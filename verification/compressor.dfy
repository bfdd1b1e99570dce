/** The context compressor: which part of the recent messages is summarised, and how long the summary can get. */
module Compressor {
  import opened Text
  import Decimal

  datatype Option<T> = None | Some(value: T)

  datatype Message = Message(role: string, content: string)

  /** A model that writes summaries; it may fail. */
  type Summarizer = (string, seq<Message>, int) -> Option<string>

  datatype Config = Config(enabled: bool, threshold: int, protectLast: int, strategy: string, maxChars: int,
                           summarizer: Option<Summarizer>)

  datatype Result = Result(block: string, persisted: string, history: seq<Message>, compressed: bool,
                           compressedMessages: nat, summaryChars: nat, tailUsed: nat)

  // ---------- text helpers ----------

  /** `strings.Fields`, with the word being read. */
  function Words(s: string, word: string): seq<string>
    decreases |s|
  {
    var done := if word == "" then [] else [word];
    if s == "" then done
    else if IsSpace(s[0]) then done + Words(s[1..], "")
    else Words(s[1..], word + [s[0]])
  }

  function Spaced(words: seq<string>): string {
    if words == [] then "" else if |words| == 1 then words[0] else words[0] + (" " + Spaced(words[1..]))
  }

  function Collapse(s: string): string {
    Spaced(Words(s, ""))
  }

  predicate Word(w: string) {
    w != "" && forall i | 0 <= i < |w| :: !IsSpace(w[i])
  }

  lemma {:induction false} WordsAreWords(s: string, word: string)
    requires word == "" || Word(word)
    ensures forall i | 0 <= i < |Words(s, word)| :: Word(Words(s, word)[i])
    decreases |s|
  {
    if s != "" {
      if IsSpace(s[0]) {
        WordsAreWords(s[1..], "");
      } else {
        WordsAreWords(s[1..], word + [s[0]]);
      }
    }
  }

  lemma {:induction false} WordsOfWord(w: string, rest: string, word: string)
    requires forall i | 0 <= i < |w| :: !IsSpace(w[i])
    ensures Words(w + rest, word) == Words(rest, word + w)
    decreases |w|
  {
    if w == "" {
      assert w + rest == rest && word + w == word;
    } else {
      assert (w + rest)[1..] == w[1..] + rest && word + [w[0]] + w[1..] == word + w;
      WordsOfWord(w[1..], rest, word + [w[0]]);
    }
  }

  lemma {:induction false} WordsOfSpaced(words: seq<string>)
    requires forall i | 0 <= i < |words| :: Word(words[i])
    ensures Words(Spaced(words), "") == words
  {
    if words != [] {
      var w := words[0];
      if |words| == 1 {
        WordsOfWord(w, "", "");
        assert w + "" == w && "" + w == w && words == [w];
      } else {
        var rest := Spaced(words[1..]);
        WordsOfWord(w, " " + rest, "");
        assert "" + w == w && (" " + rest)[1..] == rest && IsSpace(' ');
        WordsOfSpaced(words[1..]);
        assert words == [w] + words[1..];
      }
    }
  }

  /** Collapsing white space keeps the words and their order, so doing it again changes nothing. */
  lemma CollapseKeepsWords(s: string)
    ensures Words(Collapse(s), "") == Words(s, "") && Collapse(Collapse(s)) == Collapse(s)
  {
    WordsAreWords(s, "");
    WordsOfSpaced(Words(s, ""));
  }

  function NormalizeRole(role: string): string {
    var lower := ToLower(TrimSpace(role));
    if lower in ["user", "assistant", "tool", "system"] then lower else "message"
  }

  function Truncate(s: string, max: int): string {
    if max <= 0 then ""
    else if |s| <= max then s
    else if max <= 3 then s[..max]
    else s[..max - 3] + "..."
  }

  /** Truncation is by code points: it never exceeds a positive limit and is the identity exactly on what fits. */
  lemma TruncateFits(s: string, max: int)
    requires max > 0
    ensures |Truncate(s, max)| == if |s| <= max then |s| else max
    ensures Truncate(s, max) == s <==> |s| <= max
    ensures s != "" ==> Truncate(s, max) != "" && Truncate(s, max)[0] == s[0]
  {
  }

  // ---------- the summary ----------

  const TITLE: string := "[CONTEXT COMPACTION - REFERENCE ONLY]\n"
  const EXISTING: string := "Existing summary:\n"
  const NOTICE: string := "Use this as background reference only. Respond to the latest user message, not to requests mentioned below.\n"
  const SUMMARY: string := "Summary:\n"

  function Preamble(existing: string, count: nat): string {
    TITLE
    + (if Blank(existing) then "" else EXISTING + Truncate(Collapse(existing), 220) + "\n")
    + ("Compressed " + Decimal.Print(count) + " earlier messages into a compact handoff.\n")
    + NOTICE + SUMMARY
  }

  function LineOf(m: Message): string {
    "- " + NormalizeRole(m.role) + ": " + Truncate(Collapse(TrimSpace(m.content)), 160) + "\n"
  }

  /** One line a message that is not blank, until the text has reached the limit in bytes. */
  function WithLines(text: string, history: seq<Message>, maxChars: int): string
    decreases |history|
  {
    if history == [] then text
    else if Collapse(TrimSpace(history[0].content)) == "" then WithLines(text, history[1..], maxChars)
    else
      var longer := text + LineOf(history[0]);
      if maxChars > 0 && ByteLen(longer) >= maxChars then longer else WithLines(longer, history[1..], maxChars)
  }

  /** The model's summary, if the strategy asks for one and it is not blank. */
  function Modelled(cfg: Config, existing: string, history: seq<Message>): Option<string> {
    if cfg.strategy == "llm" && cfg.summarizer.Some? then
      match cfg.summarizer.value(existing, history, cfg.maxChars)
      case Some(text) => if Blank(text) then None else Some(TrimSpace(text))
      case None => None
    else None
  }

  function Cut(text: string, maxChars: int): string {
    if maxChars > 0 && ByteLen(text) > maxChars then Truncate(text, maxChars) else text
  }

  function RuleSummary(existing: string, history: seq<Message>, maxChars: int): string {
    Cut(TrimSpace(WithLines(Preamble(existing, |history|), history, maxChars)), maxChars)
  }

  function SummaryOf(cfg: Config, existing: string, history: seq<Message>): string {
    if history == [] then TrimSpace(existing)
    else
      match Modelled(cfg, existing, history)
      case Some(text) => text
      case None => RuleSummary(existing, history, cfg.maxChars)
  }

  /** Testing bytes before truncating by code points comes to truncating by code points. */
  lemma CutIsTruncate(text: string, maxChars: int)
    requires maxChars > 0
    ensures Cut(text, maxChars) == Truncate(text, maxChars)
  {
  }

  method BuildSummary(cfg: Config, existing: string, history: seq<Message>) returns (summary: string)
    ensures summary == SummaryOf(cfg, existing, history)
  {
    hide Truncate;
    hide Collapse;
    hide TrimSpace;
    hide NormalizeRole;
    hide ByteLen;
    hide Decimal.Print;
    if |history| == 0 {
      return TrimSpace(existing);
    }
    if cfg.strategy == "llm" && cfg.summarizer.Some? {
      var answer := cfg.summarizer.value(existing, history, cfg.maxChars);
      if answer.Some? && TrimSpace(answer.value) != "" {
        return TrimSpace(answer.value);
      }
    }
    var text := TITLE;
    if TrimSpace(existing) != "" {
      text := text + (EXISTING + Truncate(Collapse(existing), 220) + "\n");
    } else {
      assert text == text + "";
    }
    text := text + ("Compressed " + Decimal.Print(|history|) + " earlier messages into a compact handoff.\n");
    text := text + NOTICE + SUMMARY;
    assert text == Preamble(existing, |history|);
    ghost var goal := WithLines(text, history, cfg.maxChars);
    for i := 0 to |history|
      invariant WithLines(text, history[i..], cfg.maxChars) == goal
    {
      assert history[i..][1..] == history[i + 1..];
      var line := Collapse(TrimSpace(history[i].content));
      if line == "" {
        continue;
      }
      text := text + ("- " + NormalizeRole(history[i].role) + ": " + Truncate(line, 160) + "\n");
      if cfg.maxChars > 0 && ByteLen(text) >= cfg.maxChars {
        assert text == goal;
        break;
      }
    }
    summary := TrimSpace(text);
    if cfg.maxChars > 0 && ByteLen(summary) > cfg.maxChars {
      summary := Truncate(summary, cfg.maxChars);
    }
  }

  // ---------- what a summary says ----------

  /** With nothing to summarise the old summary is carried on; the model is asked with it and the messages, and its answer is
      taken, trimmed, if it is not blank; otherwise the rule's summary stands. */
  lemma SummaryMeans(cfg: Config, existing: string, history: seq<Message>)
    ensures history == [] ==> SummaryOf(cfg, existing, history) == TrimSpace(existing)
    ensures history != [] && cfg.strategy == "llm" && cfg.summarizer.Some? ==>
              match cfg.summarizer.value(existing, history, cfg.maxChars)
              case Some(text) => SummaryOf(cfg, existing, history) ==
                                 if Blank(text) then RuleSummary(existing, history, cfg.maxChars) else TrimSpace(text)
              case None => SummaryOf(cfg, existing, history) == RuleSummary(existing, history, cfg.maxChars)
    ensures history != [] && (cfg.strategy != "llm" || cfg.summarizer.None?) ==>
              SummaryOf(cfg, existing, history) == RuleSummary(existing, history, cfg.maxChars)
  {
    hide RuleSummary;
  }

  predicate HasWords(m: Message) {
    Words(TrimSpace(m.content), "") != []
  }

  /** The lines of messages that have words: the role, and the words on one line. */
  function Lines(history: seq<Message>): string {
    if history == [] then ""
    else
      var last := history[|history| - 1];
      Lines(history[..|history| - 1])
      + if !HasWords(last) then ""
        else "- " + NormalizeRole(last.role) + ": " + Truncate(Spaced(Words(TrimSpace(last.content), "")), 160) + "\n"
  }

  lemma NoWordsIff(m: Message)
    ensures Collapse(TrimSpace(m.content)) == "" <==> !HasWords(m)
  {
    var words := Words(TrimSpace(m.content), "");
    WordsAreWords(TrimSpace(m.content), "");
    if words != [] {
      assert Word(words[0]);
    }
  }

  /** The text with the lines of the first `k` messages. */
  function TextTo(text: string, history: seq<Message>, k: nat): string
    requires k <= |history|
  {
    text + Lines(history[..k])
  }

  predicate AtLimit(text: string, maxChars: int) {
    maxChars > 0 && ByteLen(text) >= maxChars
  }

  /** The first `n` messages have their lines; the limit was reached with the last of them, if any is left, and not before. */
  predicate StopsAt(text: string, history: seq<Message>, from: nat, n: nat, maxChars: int) {
    && from <= n <= |history|
    && (n == |history| || AtLimit(TextTo(text, history, n), maxChars))
    && forall k | from < k < n && HasWords(history[k - 1]) :: !AtLimit(TextTo(text, history, k), maxChars)
  }

  lemma {:induction false} LinesWritten(text: string, history: seq<Message>, from: nat, maxChars: int) returns (n: nat)
    requires from <= |history|
    ensures StopsAt(text, history, from, n, maxChars)
    ensures WithLines(TextTo(text, history, from), history[from..], maxChars) == TextTo(text, history, n)
    decreases |history| - from
  {
    hide AtLimit;
    hide HasWords;
    if from == |history| {
      n := from;
      hide TextTo;
    } else {
      NextText(text, history, from, maxChars);
      hide WithLines;
      hide TextTo;
      if HasWords(history[from]) && AtLimit(TextTo(text, history, from + 1), maxChars) {
        n := from + 1;
      } else {
        n := LinesWritten(text, history, from + 1, maxChars);
      }
    }
  }

  lemma NextText(text: string, history: seq<Message>, from: nat, maxChars: int)
    requires from < |history|
    ensures WithLines(TextTo(text, history, from), history[from..], maxChars) ==
            if HasWords(history[from]) && AtLimit(TextTo(text, history, from + 1), maxChars) then TextTo(text, history, from + 1)
            else WithLines(TextTo(text, history, from + 1), history[from + 1..], maxChars)
  {
    FirstLine(TextTo(text, history, from), history[from..], maxChars);
    TextGrows(text, history, from);
    assert history[from..][1..] == history[from + 1..] && history[from..][0] == history[from];
    hide WithLines;
    hide TextTo;
    hide LineOf;
    hide HasWords;
    hide ByteLen;
  }

  lemma FirstLine(text: string, history: seq<Message>, maxChars: int)
    requires history != []
    ensures var longer := text + if HasWords(history[0]) then LineOf(history[0]) else "";
            WithLines(text, history, maxChars) ==
            if HasWords(history[0]) && AtLimit(longer, maxChars) then longer else WithLines(longer, history[1..], maxChars)
  {
    hide ByteLen;
    hide LineOf;
    hide TrimSpace;
    hide Words;
    hide Collapse;
    NoWordsIff(history[0]);
    assert text + "" == text;
  }

  lemma TextGrows(text: string, history: seq<Message>, from: nat)
    requires from < |history|
    ensures TextTo(text, history, from + 1) ==
            TextTo(text, history, from) + if HasWords(history[from]) then LineOf(history[from]) else ""
  {
    hide LineOf;
    hide HasWords;
    OneLine(history[..from], history[from]);
    hide Lines;
    assert history[..from + 1] == history[..from] + [history[from]];
  }

  lemma OneLine(done: seq<Message>, m: Message)
    ensures Lines(done + [m]) == Lines(done) + if HasWords(m) then LineOf(m) else ""
  {
    hide Truncate;
    hide Words;
    hide NormalizeRole;
    hide TrimSpace;
    assert (done + [m])[..|done|] == done;
  }

  /** A rule summary is its preamble and the lines of the summarised messages, in order, as many as it takes to reach the
      limit in bytes, trimmed and cut to the limit. */
  lemma RuleSummaryMeans(existing: string, history: seq<Message>, maxChars: int) returns (n: nat)
    ensures StopsAt(Preamble(existing, |history|), history, 0, n, maxChars)
    ensures RuleSummary(existing, history, maxChars) == Cut(TrimSpace(Preamble(existing, |history|) + Lines(history[..n])), maxChars)
  {
    hide Preamble;
    hide Cut;
    hide TrimSpace;
    hide StopsAt;
    hide WithLines;
    var text := Preamble(existing, |history|);
    n := LinesWritten(text, history, 0, maxChars);
    StopsWithin(text, history, n, maxChars);
    NoLines();
    hide Lines;
    assert history[..0] == [] && history[0..] == history && text + "" == text;
  }

  lemma StopsWithin(text: string, history: seq<Message>, n: nat, maxChars: int)
    requires StopsAt(text, history, 0, n, maxChars)
    ensures n <= |history|
  {
  }

  lemma NoLines()
    ensures Lines([]) == ""
  {
  }

  /** The preamble counts the messages and carries the words of the old summary on. */
  lemma PreambleMeans(existing: string, count: nat)
    ensures Contains(Preamble(existing, count), "Compressed " + Decimal.Print(count) + " earlier messages")
    ensures !Blank(existing) ==> Contains(Preamble(existing, count), Truncate(Spaced(Words(existing, "")), 220))
  {
    hide Contains;
    hide Truncate;
    hide Words;
    hide Decimal.Print;
    hide Blank;
    var text := Truncate(Collapse(existing), 220);
    HandoffText();
    CountInside(TITLE, if Blank(existing) then "" else EXISTING + text + "\n", "Compressed ", Decimal.Print(count),
                " earlier messages", " into a compact handoff.\n", NOTICE, SUMMARY);
    if !Blank(existing) {
      OldInside(TITLE, EXISTING, text, "\n",
                "Compressed " + Decimal.Print(count) + " earlier messages into a compact handoff.\n", NOTICE, SUMMARY);
    }
  }

  lemma HandoffText()
    ensures " earlier messages into a compact handoff.\n" == " earlier messages" + " into a compact handoff.\n"
  {
  }

  lemma CountInside(a: string, b: string, c: string, number: string, d: string, e: string, f: string, g: string)
    ensures Contains(a + b + (c + number + (d + e)) + f + g, c + number + d)
  {
    assert a + b + (c + number + (d + e)) + f + g == (a + b) + (c + number + d) + (e + f + g);
    Inside(a + b, c + number + d, e + f + g);
  }

  lemma OldInside(a: string, b: string, text: string, c: string, d: string, e: string, f: string)
    ensures Contains(a + (b + text + c) + d + e + f, text)
  {
    assert a + (b + text + c) + d + e + f == (a + b) + text + (c + d + e + f);
    Inside(a + b, text, c + d + e + f);
  }

  lemma Inside(a: string, part: string, b: string)
    ensures Contains(a + part + b, part)
  {
    assert (a + part + b)[|a|..|a| + |part|] == part;
    assert MatchAt(a + part + b, part, |a|);
  }

  /** Known roles keep their name, in lower case; any other is a message. */
  lemma RoleMeans(role: string)
    ensures var r := NormalizeRole(role);
            && (r in ["user", "assistant", "tool", "system"] <==> ToLower(TrimSpace(role)) in ["user", "assistant", "tool", "system"])
            && (r in ["user", "assistant", "tool", "system"] ==> r == ToLower(TrimSpace(role)))
            && (r !in ["user", "assistant", "tool", "system"] ==> r == "message")
  {
    hide TrimSpace;
    hide ToLower;
  }

  // ---------- compressing ----------

  function Keeping(cfg: Config): (keep: nat)
    ensures keep >= 1
  {
    if cfg.protectLast <= 0 then 1 else cfg.protectLast
  }

  function Kept(cfg: Config, length: nat): (keep: nat)
    ensures keep <= length
  {
    if Keeping(cfg) > length then length else Keeping(cfg)
  }

  predicate Compresses(cfg: Config, history: seq<Message>) {
    cfg.enabled && 0 < cfg.threshold < |history|
  }

  function Compressed(cfg: Config, existing: string, history: seq<Message>): Result {
    if Compresses(cfg, history) then
      var cut := |history| - Kept(cfg, |history|);
      var summary := SummaryOf(cfg, existing, history[..cut]);
      Result(summary, summary, history[cut..], true, cut, ByteLen(summary), |history| - cut)
    else Result("", "", history, false, 0, 0, |history|)
  }

  method Compress(cfg: Config, existing: string, history: seq<Message>) returns (r: Result)
    ensures r == Compressed(cfg, existing, history)
    ensures history == history[..r.compressedMessages] + r.history && |r.history| == r.tailUsed
    ensures r.compressed <==> cfg.enabled && 0 < cfg.threshold < |history|
    ensures !r.compressed ==> r.history == history && r.block == "" && r.persisted == ""
    ensures r.compressed ==>
              && (|r.history| == |history| || |r.history| == (if cfg.protectLast <= 0 then 1 else cfg.protectLast))
              && (|r.history| == |history| ==> |history| <= cfg.protectLast)
              && r.block == r.persisted == SummaryOf(cfg, existing, history[..r.compressedMessages])
  {
    hide SummaryOf;
    r := Result("", "", history, false, 0, 0, |history|);
    if !cfg.enabled {
      return;
    }
    if cfg.threshold <= 0 || |history| <= cfg.threshold {
      return;
    }
    var keep := cfg.protectLast;
    if keep <= 0 {
      keep := 1;
    }
    if keep > |history| {
      keep := |history|;
    }
    var cut := |history| - keep;
    var summary := BuildSummary(cfg, existing, history[..cut]);
    r := Result(summary, summary, history[cut..], true, cut, ByteLen(summary), |history[cut..]|);
  }

  /** A summary that is not empty is not blank either. */
  lemma SummaryNotBlank(cfg: Config, existing: string, history: seq<Message>)
    ensures SummaryOf(cfg, existing, history) == "" || !Blank(SummaryOf(cfg, existing, history))
  {
    hide TrimSpace;
    hide WithLines;
    hide Preamble;
    hide ByteLen;
    TrimTwice(existing);
    match Modelled(cfg, existing, history)
    case Some(text) =>
      TrimTwice(cfg.summarizer.value(existing, history, cfg.maxChars).value);
    case None =>
      CutNotBlank(WithLines(Preamble(existing, |history|), history, cfg.maxChars), cfg.maxChars);
  }

  lemma CutNotBlank(text: string, maxChars: int)
    ensures Cut(TrimSpace(text), maxChars) == "" || !Blank(Cut(TrimSpace(text), maxChars))
  {
    var trimmed := TrimSpace(text);
    var _, _ := TrimSpaceCuts(text);
    hide TrimSpace;
    hide ByteLen;
    var r := Cut(trimmed, maxChars);
    if trimmed != "" {
      if maxChars > 0 {
        TruncateFits(trimmed, maxChars);
      }
      NotBlankStart(r);
    }
  }

  // ---------- how long it gets ----------

  /** A summary fits the limit exactly when it is not a model's longer one, given that the one it replaces fits. */
  lemma SummaryFitsIff(cfg: Config, existing: string, history: seq<Message>)
    requires cfg.maxChars > 0 && |existing| <= cfg.maxChars
    ensures |SummaryOf(cfg, existing, history)| <= cfg.maxChars
            <==> history == [] || Modelled(cfg, existing, history).None?
                 || |Modelled(cfg, existing, history).value| <= cfg.maxChars
  {
    hide Preamble;
    hide WithLines;
    hide TrimSpace;
    hide Truncate;
    var _, _ := TrimSpaceCuts(existing);
    if history != [] && Modelled(cfg, existing, history).None? {
      var text := TrimSpace(WithLines(Preamble(existing, |history|), history, cfg.maxChars));
      CutIsTruncate(text, cfg.maxChars);
      TruncateFits(text, cfg.maxChars);
    }
  }

  /** What a turn leaves stored: a new summary replaces the old one unless it is blank or the same. */
  function Stored(cfg: Config, stored: string, history: seq<Message>): string {
    var r := Compressed(cfg, stored, history);
    if r.compressed && r.block != "" && !Blank(r.persisted) then r.persisted else stored
  }

  function StoredAfter(cfg: Config, stored: string, turns: seq<seq<Message>>): string
    decreases |turns|
  {
    if turns == [] then stored else StoredAfter(cfg, Stored(cfg, stored, turns[0]), turns[1..])
  }

  /** Under the rule strategy the stored summary stays within the limit over any number of turns. */
  lemma {:induction false} RuleStaysWithin(cfg: Config, stored: string, turns: seq<seq<Message>>)
    requires cfg.maxChars > 0 && (cfg.strategy != "llm" || cfg.summarizer.None?) && |stored| <= cfg.maxChars
    ensures |StoredAfter(cfg, stored, turns)| <= cfg.maxChars
    decreases |turns|
  {
    hide SummaryOf;
    if turns != [] {
      SummaryFitsIff(cfg, stored, turns[0][..|turns[0]| - Kept(cfg, |turns[0]|)]);
      RuleStaysWithin(cfg, Stored(cfg, stored, turns[0]), turns[1..]);
    }
  }

  /** With a model every run stays within the limit exactly when no answer it can use is longer. */
  ghost predicate AnswersFit(cfg: Config) {
    forall existing, history | |existing| <= cfg.maxChars && Reachable(cfg, history) && Modelled(cfg, existing, history).Some? ::
      |Modelled(cfg, existing, history).value| <= cfg.maxChars
  }

  /** A part that some list of recent messages can leave to be summarised. */
  predicate Reachable(cfg: Config, history: seq<Message>) {
    history != [] && cfg.enabled && 0 < cfg.threshold < |history| + Keeping(cfg)
  }

  lemma StaysWithinIff(cfg: Config)
    requires cfg.maxChars > 0
    ensures (forall stored, turns | |stored| <= cfg.maxChars :: |StoredAfter(cfg, stored, turns)| <= cfg.maxChars) <==> AnswersFit(cfg)
  {
    if AnswersFit(cfg) {
      forall stored, turns | |stored| <= cfg.maxChars ensures |StoredAfter(cfg, stored, turns)| <= cfg.maxChars {
        AnswersFitKeeps(cfg, stored, turns);
      }
    } else {
      var existing, history :| |existing| <= cfg.maxChars && Reachable(cfg, history) && Modelled(cfg, existing, history).Some?
        && |Modelled(cfg, existing, history).value| > cfg.maxChars;
      LongAnswerStored(cfg, existing, history);
      assert |StoredAfter(cfg, existing, [Padded(cfg, history)])| > cfg.maxChars;
    }
  }

  lemma {:induction false} AnswersFitKeeps(cfg: Config, stored: string, turns: seq<seq<Message>>)
    requires cfg.maxChars > 0 && AnswersFit(cfg) && |stored| <= cfg.maxChars
    ensures |StoredAfter(cfg, stored, turns)| <= cfg.maxChars
    decreases |turns|
  {
    hide SummaryOf;
    hide Modelled;
    hide Blank;
    if turns != [] {
      var part := turns[0][..|turns[0]| - Kept(cfg, |turns[0]|)];
      SummaryFitsIff(cfg, stored, part);
      assert Compresses(cfg, turns[0]) && part != [] ==> Reachable(cfg, part);
      AnswersFitKeeps(cfg, Stored(cfg, stored, turns[0]), turns[1..]);
    }
  }

  /** Recent messages whose summarised part is `history`. */
  function Padded(cfg: Config, history: seq<Message>): seq<Message> {
    history + seq(Keeping(cfg), _ => Message("user", ""))
  }

  lemma LongAnswerStored(cfg: Config, existing: string, history: seq<Message>)
    requires cfg.maxChars > 0 && Reachable(cfg, history) && Modelled(cfg, existing, history).Some?
    ensures StoredAfter(cfg, existing, [Padded(cfg, history)]) == Modelled(cfg, existing, history).value
  {
    var turn := Padded(cfg, history);
    assert turn[..|turn| - Kept(cfg, |turn|)] == history;
    SummaryNotBlank(cfg, existing, history);
    TrimTwice(cfg.summarizer.value(existing, history, cfg.maxChars).value);
    hide TrimSpace;
    assert Stored(cfg, existing, turn) == Modelled(cfg, existing, history).value;
    assert [turn][1..] == [];
  }

  /** A limit of one, and a model whose summaries are two characters long. */
  const LONG_WINDED := Config(true, 1, 1, "llm", 1, Some((existing, history, maxChars) => Some("ab")))

  /** Two messages are enough to store a summary beyond its limit. */
  lemma LongAnswerExceeds()
    ensures |StoredAfter(LONG_WINDED, "", [[Message("user", "x"), Message("user", "")]])| > LONG_WINDED.maxChars
  {
    var history := [Message("user", "x")];
    NotBlankStart("ab");
    TrimFixed("ab");
    LongAnswerStored(LONG_WINDED, "", history);
    assert Padded(LONG_WINDED, history) == [Message("user", "x"), Message("user", "")];
  }
}
