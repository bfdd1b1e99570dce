/** Prompt assembly: system blocks, history within the budget, and the cache in front of it. */
module Prompting {
  import opened Text
  import opened Compressor
  import Decimal

  const SYSTEM: string := "You are a secure, concise assistant."

  datatype Input = Input(username: string, session: int, prompt: string, model: string, window: int, maxChars: int,
                         strategy: string)

  datatype Plan = Plan(model: string, prompt: string, blocks: seq<string>, history: seq<Message>, memory: string,
                       summary: string, compression: Result, promptChars: int, maxChars: int, window: int,
                       historyUsed: int, blocksUsed: int, summaryUpdated: bool, cacheHit: bool, cacheKey: string)

  // ---------- the budget ----------

  function BlockBytes(blocks: seq<string>): (n: nat) {
    if blocks == [] then 0 else ByteLen(blocks[0]) + BlockBytes(blocks[1..])
  }

  function HistoryBytes(history: seq<Message>): (n: nat) {
    if history == [] then 0 else ByteLen(history[0].content) + HistoryBytes(history[1..])
  }

  function PromptBytes(prompt: string, blocks: seq<string>, history: seq<Message>): (n: nat) {
    ByteLen(prompt) + ByteLen(SYSTEM) + BlockBytes(blocks) + HistoryBytes(history)
  }

  // What is counted, spelled out: the text that is sent, without roles and separators.

  function Joined(texts: seq<string>): string {
    if texts == [] then "" else texts[0] + Joined(texts[1..])
  }

  function Contents(history: seq<Message>): seq<string> {
    seq(|history|, i requires 0 <= i < |history| => history[i].content)
  }

  function SentText(prompt: string, blocks: seq<string>, history: seq<Message>): string {
    prompt + "You are a secure, concise assistant." + Joined(blocks) + Joined(Contents(history))
  }

  lemma {:induction false} BlockBytesJoined(blocks: seq<string>)
    ensures BlockBytes(blocks) == ByteLen(Joined(blocks))
  {
    hide ByteLen;
    if blocks != [] {
      BlockBytesJoined(blocks[1..]);
      ByteLenConcat(blocks[0], Joined(blocks[1..]));
    } else {
      NoBytes();
    }
  }

  lemma NoBytes()
    ensures ByteLen("") == 0
  {
  }

  lemma {:induction false} HistoryBytesJoined(history: seq<Message>)
    ensures HistoryBytes(history) == ByteLen(Joined(Contents(history)))
  {
    hide ByteLen;
    if history != [] {
      HistoryBytesJoined(history[1..]);
      assert Contents(history)[1..] == Contents(history[1..]);
      ByteLenConcat(history[0].content, Joined(Contents(history[1..])));
    } else {
      NoBytes();
    }
  }

  /** The count is the length in bytes of the prompt, the system line, every block and every message, one after the other. */
  lemma BytesOfSentText(prompt: string, blocks: seq<string>, history: seq<Message>)
    ensures PromptBytes(prompt, blocks, history) == ByteLen(SentText(prompt, blocks, history))
  {
    hide ByteLen;
    hide Joined;
    BlockBytesJoined(blocks);
    HistoryBytesJoined(history);
    ByteLenConcat(prompt, SYSTEM);
    ByteLenConcat(prompt + SYSTEM, Joined(blocks));
    ByteLenConcat(prompt + SYSTEM + Joined(blocks), Joined(Contents(history)));
  }

  /** What trimming keeps, in terms of the text that is sent: all of it without a budget; else a suffix that is empty or fits,
      and no longer one does. */
  ghost predicate KeepsWhatFits(prompt: string, blocks: seq<string>, history: seq<Message>, maxChars: int, kept: seq<Message>) {
    && |kept| <= |history| && kept == history[|history| - |kept|..]
    && (maxChars <= 0 ==> kept == history)
    && (maxChars > 0 ==>
          && (kept == [] || ByteLen(SentText(prompt, blocks, kept)) <= maxChars)
          && forall j | 0 <= j < |history| - |kept| :: ByteLen(SentText(prompt, blocks, history[j..])) > maxChars)
  }

  lemma KeepsTheLongest(prompt: string, blocks: seq<string>, history: seq<Message>, maxChars: int)
    ensures KeepsWhatFits(prompt, blocks, history, maxChars, FittingSuffix(prompt, blocks, history, maxChars))
  {
    hide SentText;
    hide PromptBytes;
    hide ByteLen;
    if maxChars > 0 {
      var k := LongestFit(prompt, blocks, history, maxChars);
      hide FittingSuffix;
      BytesOfSentText(prompt, blocks, history[k..]);
      forall j | 0 <= j < k ensures ByteLen(SentText(prompt, blocks, history[j..])) > maxChars {
        BytesOfSentText(prompt, blocks, history[j..]);
      }
    } else {
      assert history[0..] == history;
    }
  }

  predicate Fits(prompt: string, blocks: seq<string>, history: seq<Message>, maxChars: int) {
    PromptBytes(prompt, blocks, history) <= maxChars
  }

  /** Drops the oldest message until the rest fits; a limit below one means none. */
  function FittingSuffix(prompt: string, blocks: seq<string>, history: seq<Message>, maxChars: int): seq<Message>
    decreases |history|
  {
    hide Fits;
    if maxChars <= 0 || history == [] || Fits(prompt, blocks, history, maxChars) then history
    else FittingSuffix(prompt, blocks, history[1..], maxChars)
  }

  /** The kept history is the longest suffix that fits, and is empty when none does. */
  lemma {:induction false} LongestFit(prompt: string, blocks: seq<string>, history: seq<Message>, maxChars: int) returns (k: nat)
    requires maxChars > 0
    ensures k <= |history| && FittingSuffix(prompt, blocks, history, maxChars) == history[k..]
    ensures k == |history| || Fits(prompt, blocks, history[k..], maxChars)
    ensures forall j | 0 <= j < k :: !Fits(prompt, blocks, history[j..], maxChars)
    decreases |history|
  {
    hide Fits;
    if history == [] || Fits(prompt, blocks, history, maxChars) {
      k := 0;
      assert history[0..] == history;
    } else {
      var n := LongestFit(prompt, blocks, history[1..], maxChars);
      k := n + 1;
      assert history[1..][n..] == history[k..];
      forall j | 0 <= j < k ensures !Fits(prompt, blocks, history[j..], maxChars) {
        if j == 0 {
          assert history[0..] == history;
        } else {
          assert history[1..][j - 1..] == history[j..];
        }
      }
    }
  }

  /** The assembled prompt is within its budget exactly when it would be without any history. */
  lemma BudgetMetIff(prompt: string, blocks: seq<string>, history: seq<Message>, maxChars: int)
    requires maxChars > 0
    ensures Fits(prompt, blocks, FittingSuffix(prompt, blocks, history, maxChars), maxChars) <==> Fits(prompt, blocks, [], maxChars)
  {
    var k := LongestFit(prompt, blocks, history, maxChars);
    assert HistoryBytes([]) == 0;
    assert k == |history| ==> history[k..] == [];
  }

  method TrimHistoryToBudget(blocks: seq<string>, history: seq<Message>, prompt: string, maxChars: int)
    returns (trimmed: seq<Message>)
    ensures trimmed == FittingSuffix(prompt, blocks, history, maxChars)
    ensures KeepsWhatFits(prompt, blocks, history, maxChars, trimmed)
  {
    hide ByteLen;
    hide KeepsWhatFits;
    KeepsTheLongest(prompt, blocks, history, maxChars);
    if maxChars <= 0 {
      return history;
    }
    var total := ByteLen(prompt) + ByteLen(SYSTEM);
    total := AddBlocks(total, blocks);
    total := AddHistory(total, history);
    trimmed := history;
    while total > maxChars && |trimmed| > 0
      invariant total == PromptBytes(prompt, blocks, trimmed)
      invariant FittingSuffix(prompt, blocks, trimmed, maxChars) == FittingSuffix(prompt, blocks, history, maxChars)
      decreases |trimmed|
    {
      total := total - ByteLen(trimmed[0].content);
      trimmed := trimmed[1..];
    }
  }

  method AddBlocks(start: int, blocks: seq<string>) returns (total: int)
    ensures total == start + BlockBytes(blocks)
  {
    hide ByteLen;
    total := start;
    for i := 0 to |blocks|
      invariant total + BlockBytes(blocks[i..]) == start + BlockBytes(blocks)
    {
      assert blocks[i..][1..] == blocks[i + 1..];
      total := total + ByteLen(blocks[i]);
    }
  }

  method AddHistory(start: int, history: seq<Message>) returns (total: int)
    ensures total == start + HistoryBytes(history)
  {
    hide ByteLen;
    total := start;
    for i := 0 to |history|
      invariant total + HistoryBytes(history[i..]) == start + HistoryBytes(history)
    {
      assert history[i..][1..] == history[i + 1..];
      total := total + ByteLen(history[i].content);
    }
  }

  // ---------- the draft: what a build knows before it asks the cache ----------

  /** What the dependencies hand to a build: the recalled memory, the stored summary and the recent messages. */
  datatype Request = Request(input: Input, memory: string, stored: string, recent: seq<Message>)

  datatype Draft = Draft(blocks: seq<string>, summary: string, history: seq<Message>, updated: bool, compression: Result)

  function DraftOf(cfg: Config, r: Request): Draft {
    var c := Compressed(cfg, r.stored, r.recent);
    var blocks := (if r.memory != "" then [r.memory] else []) + (if r.stored != "" then [r.stored] else []);
    if c.compressed && c.block != "" then
      var replaced := if r.stored == "" then blocks + [c.block] else blocks[..|blocks| - 1] + [c.block];
      var updated := !Blank(c.persisted) && c.persisted != r.stored;
      Draft(replaced, if updated then c.persisted else r.stored, c.history, updated, c)
    else Draft(blocks, r.stored, r.recent, false, c)
  }

  function BlocksOf(memory: string, summary: string): seq<string> {
    (if memory != "" then [memory] else []) + (if summary != "" then [summary] else [])
  }

  /** In every compression case the system blocks are those of the memory and the summary the build ends with, and the
      stored summary changes exactly when that one differs from it. */
  lemma BlocksAreMemoryAndSummary(cfg: Config, r: Request)
    ensures var d := DraftOf(cfg, r);
            && d.blocks == BlocksOf(r.memory, d.summary) && d.summary == Stored(cfg, r.stored, r.recent)
            && (d.updated <==> d.summary != r.stored)
  {
    hide SummaryOf;
    hide Blank;
    if Compresses(cfg, r.recent) {
      SummaryNotBlank(cfg, r.stored, r.recent[..|r.recent| - Kept(cfg, |r.recent|)]);
    }
  }

  /** What is sent is a suffix of the recent window; what it lacks in front was summarised or did not fit. */
  lemma HistoryIsSuffix(cfg: Config, r: Request) returns (k: nat)
    ensures k <= |r.recent|
    ensures var d := DraftOf(cfg, r);
            FittingSuffix(r.input.prompt, d.blocks, d.history, r.input.maxChars) == r.recent[k..]
  {
    hide SummaryOf;
    hide Fits;
    var d := DraftOf(cfg, r);
    var n := |r.recent| - |d.history|;
    assert d.history == r.recent[n..];
    if r.input.maxChars > 0 {
      var m := LongestFit(r.input.prompt, d.blocks, d.history, r.input.maxChars);
      k := n + m;
      assert r.recent[n..][m..] == r.recent[k..];
    } else {
      k := n;
    }
  }

  // ---------- the cache key ----------

  datatype Key = Key(username: string, session: int, model: string, prompt: string, memory: string, summary: string,
                     history: seq<Message>)

  function KeyOf(cfg: Config, r: Request): Key {
    var d := DraftOf(cfg, r);
    Key(r.input.username, r.input.session, r.input.model, r.input.prompt, r.memory, d.summary, d.history)
  }

  function LineText(m: Message): string {
    m.role + (":" + m.content)
  }

  function HistoryText(history: seq<Message>): string {
    if history == [] then "" else LineText(history[0]) + ("\n" + HistoryText(history[1..]))
  }

  /** What is hashed for the key; the hash itself is taken to have no collisions. */
  function KeyText(key: Key): string {
    key.username + ("\n" + (Decimal.PrintInt(key.session) + ("\n" + (key.model + ("\n" + (key.prompt + ("\n"
    + (key.memory + ("\n" + (key.summary + ("\n" + HistoryText(key.history))))))))))))
  }

  method BuildCacheKey(key: Key) returns (text: string)
    ensures text == KeyText(key)
  {
    hide HistoryText;
    hide LineText;
    hide Decimal.PrintInt;
    text := KeyFields(key);
    for i := 0 to |key.history|
      invariant text + HistoryText(key.history[i..]) == KeyText(key)
    {
      NextLine(text, key.history, i);
      text := text + (LineText(key.history[i]) + "\n");
    }
    NoLines(text, key.history[|key.history|..]);
  }

  lemma NextLine(text: string, history: seq<Message>, i: nat)
    requires i < |history|
    ensures text + HistoryText(history[i..]) == text + (LineText(history[i]) + "\n") + HistoryText(history[i + 1..])
  {
    hide LineText;
    assert history[i..][1..] == history[i + 1..];
  }

  lemma NoLines(text: string, history: seq<Message>)
    requires history == []
    ensures text + HistoryText(history) == text
  {
  }

  method KeyFields(key: Key) returns (text: string)
    ensures text + HistoryText(key.history) == KeyText(key)
  {
    hide HistoryText;
    hide Decimal.PrintInt;
    ghost var lines := "\n" + HistoryText(key.history);
    ghost var summary := "\n" + (key.summary + lines);
    ghost var memory := "\n" + (key.memory + summary);
    ghost var prompt := "\n" + (key.prompt + memory);
    ghost var model := "\n" + (key.model + prompt);
    text := key.username + ("\n" + Decimal.PrintInt(key.session));
    assert text + model == KeyText(key) by { Regroup(key.username, Decimal.PrintInt(key.session), model); }
    Regroup(text, key.model, prompt);
    text := text + ("\n" + key.model);
    Regroup(text, key.prompt, memory);
    text := text + ("\n" + key.prompt);
    Regroup(text, key.memory, summary);
    text := text + ("\n" + key.memory);
    Regroup(text, key.summary, lines);
    text := text + ("\n" + key.summary);
    assert text + "\n" + HistoryText(key.history) == text + lines;
    text := text + "\n";
  }

  lemma Regroup(text: string, field: string, rest: string)
    ensures text + ("\n" + field) + rest == text + ("\n" + (field + rest))
  {
  }

  function Seps(s: string, sep: char): (n: nat) {
    if s == "" then 0 else (if s[0] == sep then 1 else 0) + Seps(s[1..], sep)
  }

  /** How many separators each field holds; what the flat text of a key does not say. */
  predicate SameShape(a: Key, b: Key) {
    && Seps(a.username, '\n') == Seps(b.username, '\n') && Seps(a.model, '\n') == Seps(b.model, '\n')
    && Seps(a.prompt, '\n') == Seps(b.prompt, '\n') && Seps(a.memory, '\n') == Seps(b.memory, '\n')
    && Seps(a.summary, '\n') == Seps(b.summary, '\n') && SameLines(a.history, b.history)
  }

  predicate SameLines(a: seq<Message>, b: seq<Message>) {
    |a| == |b| && forall i | 0 <= i < |a| ::
      Seps(a[i].role, ':') == Seps(b[i].role, ':') && Seps(LineText(a[i]), '\n') == Seps(LineText(b[i]), '\n')
  }

  /** A field ends at the same place in both texts when it holds as many separators in both. */
  lemma {:induction false} FirstField(sep: char, a: string, b: string, x: string, y: string)
    requires Seps(a, sep) == Seps(b, sep) && a + ([sep] + x) == b + ([sep] + y)
    ensures a == b && x == y
  {
    var s, t := a + ([sep] + x), b + ([sep] + y);
    assert s[0] == (if a == "" then sep else a[0]) && t[0] == (if b == "" then sep else b[0]);
    assert s[1..] == (if a == "" then x else a[1..] + ([sep] + x)) && t[1..] == (if b == "" then y else b[1..] + ([sep] + y));
    if a != "" && b != "" {
      FirstField(sep, a[1..], b[1..], x, y);
      assert a == [a[0]] + a[1..] && b == [b[0]] + b[1..];
    }
  }

  lemma {:induction false} SameHistory(a: seq<Message>, b: seq<Message>)
    requires SameLines(a, b) && HistoryText(a) == HistoryText(b)
    ensures a == b
  {
    if a != [] {
      assert Seps(a[0].role, ':') == Seps(b[0].role, ':');
      FirstField('\n', LineText(a[0]), LineText(b[0]), HistoryText(a[1..]), HistoryText(b[1..]));
      FirstField(':', a[0].role, b[0].role, a[0].content, b[0].content);
      SameHistory(a[1..], b[1..]);
      assert a == [a[0]] + a[1..] && b == [b[0]] + b[1..];
    }
  }

  lemma {:induction false} DigitsHaveNo(s: string, sep: char)
    requires forall i | 0 <= i < |s| :: s[i] != sep
    ensures Seps(s, sep) == 0
  {
    if s != "" {
      DigitsHaveNo(s[1..], sep);
    }
  }

  lemma IntText(n: int, m: int)
    ensures Seps(Decimal.PrintInt(n), '\n') == 0
    ensures Decimal.PrintInt(n) == Decimal.PrintInt(m) ==> n == m
  {
    DigitsHaveNo(Decimal.PrintInt(n), '\n') by {
      if n < 0 {
        assert Decimal.Digits(Decimal.Print(-n));
      }
    }
    IntValue(n);
    IntValue(m);
  }

  lemma IntValue(n: int)
    ensures Decimal.Parse(Decimal.PrintInt(n)) == Decimal.Some(n)
  {
    if n < 0 {
      Decimal.ValuePrint(-n);
      assert ("-" + Decimal.Print(-n))[1..] == Decimal.Print(-n);
    } else {
      Decimal.RoundTrip(n);
    }
  }

  /** Two keys with the same text are the same key exactly when their fields hold as many separators each. */
  lemma SameTextIff(a: Key, b: Key)
    requires KeyText(a) == KeyText(b)
    ensures a == b <==> SameShape(a, b)
  {
    hide Decimal.PrintInt;
    hide HistoryText;
    if SameShape(a, b) {
      IntText(a.session, b.session);
      IntText(b.session, a.session);
      var fa, fb := "\n" + HistoryText(a.history), "\n" + HistoryText(b.history);
      var ea, eb := "\n" + (a.summary + fa), "\n" + (b.summary + fb);
      var da, db := "\n" + (a.memory + ea), "\n" + (b.memory + eb);
      var ca, cb := "\n" + (a.prompt + da), "\n" + (b.prompt + db);
      var ba, bb := "\n" + (a.model + ca), "\n" + (b.model + cb);
      FirstField('\n', a.username, b.username, Decimal.PrintInt(a.session) + ba, Decimal.PrintInt(b.session) + bb);
      FirstField('\n', Decimal.PrintInt(a.session), Decimal.PrintInt(b.session), a.model + ca, b.model + cb);
      FirstField('\n', a.model, b.model, a.prompt + da, b.prompt + db);
      FirstField('\n', a.prompt, b.prompt, a.memory + ea, b.memory + eb);
      FirstField('\n', a.memory, b.memory, a.summary + fa, b.summary + fb);
      FirstField('\n', a.summary, b.summary, HistoryText(a.history), HistoryText(b.history));
      SameHistory(a.history, b.history);
    }
  }

  // ---------- fresh builds ----------

  function Fresh(cfg: Config, r: Request): Plan {
    var d := DraftOf(cfg, r);
    var history := FittingSuffix(r.input.prompt, d.blocks, d.history, r.input.maxChars);
    Plan(r.input.model, r.input.prompt, d.blocks, history, r.memory, d.summary, d.compression,
         PromptBytes(r.input.prompt, d.blocks, history), r.input.maxChars, r.input.window, |history|, |d.blocks|,
         d.updated, false, KeyText(KeyOf(cfg, r)))
  }

  /** A fresh plan, field by field: memory before summary in the blocks, the kept history, and the bytes of the text sent. */
  lemma FreshMeans(cfg: Config, r: Request)
    ensures var p := Fresh(cfg, r);
            && p.prompt == r.input.prompt && p.model == r.input.model && p.memory == r.memory
            && p.blocks == (if r.memory == "" then [] else [r.memory]) + (if p.summary == "" then [] else [p.summary])
            && p.summary == Stored(cfg, r.stored, r.recent) && (p.summaryUpdated <==> p.summary != r.stored)
            && KeepsWhatFits(p.prompt, p.blocks, DraftOf(cfg, r).history, r.input.maxChars, p.history)
            && p.promptChars == ByteLen(SentText(p.prompt, p.blocks, p.history))
            && p.historyUsed == |p.history| && p.blocksUsed == |p.blocks| && !p.cacheHit
            && p.maxChars == r.input.maxChars && p.window == r.input.window && p.compression == Compressed(cfg, r.stored, r.recent)
  {
    hide KeepsWhatFits;
    hide SentText;
    hide PromptBytes;
    hide FittingSuffix;
    hide ByteLen;
    hide KeyText;
    BlocksAreMemoryAndSummary(cfg, r);
    var d := DraftOf(cfg, r);
    var kept := FittingSuffix(r.input.prompt, d.blocks, d.history, r.input.maxChars);
    KeepsTheLongest(r.input.prompt, d.blocks, d.history, r.input.maxChars);
    BytesOfSentText(r.input.prompt, d.blocks, kept);
    hide Stored;
    hide Compressed;
  }

  lemma FreshFromSources(cfg: Config, r: Request)
    ensures Fresh(cfg, r).memory == r.memory && IsSuffix(Fresh(cfg, r).history, r.recent)
  {
    hide DraftOf;
    hide FittingSuffix;
    hide PromptBytes;
    hide KeyText;
    var k := HistoryIsSuffix(cfg, r);
  }

  /** What is sent to the model. */
  datatype Sent = Sent(prompt: string, blocks: seq<string>, history: seq<Message>, promptChars: int)

  function SentOf(p: Plan): Sent {
    Sent(p.prompt, p.blocks, p.history, p.promptChars)
  }

  /** What is sent is a function of the key and the budget. */
  lemma SentFromKey(cfg: Config, r: Request)
    ensures var key := KeyOf(cfg, r);
            var blocks := BlocksOf(key.memory, key.summary);
            var history := FittingSuffix(key.prompt, blocks, key.history, r.input.maxChars);
            SentOf(Fresh(cfg, r)) == Sent(key.prompt, blocks, history, PromptBytes(key.prompt, blocks, history))
  {
    BlocksAreMemoryAndSummary(cfg, r);
    hide DraftOf;
  }

  // ---------- the cache ----------

  datatype Entry = Entry(plan: Plan, expiresAt: int)

  type Entries = map<string, Entry>

  predicate Live(entries: Entries, key: string, now: int) {
    key in entries && now <= entries[key].expiresAt
  }

  /** One build at `now`: the plan, the entries after it, and whether the cache answered. */
  datatype Built = Built(plan: Plan, entries: Entries, hit: bool)

  function Build(cfg: Config, ttl: int, entries: Entries, now: int, r: Request): Built {
    var key := KeyText(KeyOf(cfg, r));
    if Live(entries, key, now) then Built(entries[key].plan.(cacheHit := true, cacheKey := key), entries, true)
    else
      var plan := Fresh(cfg, r);
      Built(plan, entries[key := Entry(plan, now + ttl)], false)
  }

  /** A plan answers its own request, marked as a hit, up to the end of its lifetime and not beyond. */
  lemma HitUntilExpiry(cfg: Config, ttl: int, now: int, later: int, r: Request)
    ensures var first := Build(cfg, ttl, map[], now, r);
            var second := Build(cfg, ttl, first.entries, later, r);
            && !first.hit && first.plan == Fresh(cfg, r)
            && (second.hit <==> later <= now + ttl)
            && (second.hit ==> second.plan == first.plan.(cacheHit := true) && second.entries == first.entries)
            && (!second.hit ==> second.plan == Fresh(cfg, r))
  {
    hide DraftOf;
    hide KeyText;
    hide PromptBytes;
  }

  datatype Op = Make(now: int, request: Request) | Clear

  function After(cfg: Config, ttl: int, entries: Entries, ops: seq<Op>): Entries
    decreases |ops|
  {
    if ops == [] then entries
    else
      match ops[0]
      case Make(now, r) => After(cfg, ttl, Build(cfg, ttl, entries, now, r).entries, ops[1..])
      case Clear => After(cfg, ttl, map[], ops[1..])
  }

  /** Builds whose keys share a text send the same. */
  ghost predicate Consistent(cfg: Config, requests: set<Request>) {
    forall a, b | a in requests && b in requests && KeyText(KeyOf(cfg, a)) == KeyText(KeyOf(cfg, b)) ::
      SentOf(Fresh(cfg, a)) == SentOf(Fresh(cfg, b))
  }

  ghost predicate Over(requests: set<Request>, ops: seq<Op>) {
    forall i | 0 <= i < |ops| :: ops[i].Make? ==> ops[i].request in requests
  }

  /** After any run over these requests, any of them is answered with what a fresh build would send. */
  ghost predicate Transparent(cfg: Config, ttl: int, requests: set<Request>) {
    forall ops, now, r | Over(requests, ops) && r in requests ::
      SentOf(Build(cfg, ttl, After(cfg, ttl, map[], ops), now, r).plan) == SentOf(Fresh(cfg, r))
  }

  /** Every entry was made for one of the requests, under its key. */
  ghost predicate Sound(cfg: Config, requests: set<Request>, entries: Entries) {
    forall key | key in entries ::
      exists r | r in requests :: KeyText(KeyOf(cfg, r)) == key && SentOf(Fresh(cfg, r)) == SentOf(entries[key].plan)
  }

  lemma {:induction false} SoundAfter(cfg: Config, ttl: int, requests: set<Request>, entries: Entries, ops: seq<Op>)
    requires Sound(cfg, requests, entries) && Over(requests, ops)
    ensures Sound(cfg, requests, After(cfg, ttl, entries, ops))
    decreases |ops|
  {
    hide Fresh;
    hide KeyText;
    hide SentOf;
    if ops != [] {
      assert Over(requests, ops[1..]) by {
        forall i | 0 <= i < |ops[1..]| ensures ops[1..][i].Make? ==> ops[1..][i].request in requests {
          assert ops[1..][i] == ops[i + 1];
        }
      }
      match ops[0]
      case Make(now, r) =>
        SoundBuild(cfg, ttl, requests, entries, now, r);
        SoundAfter(cfg, ttl, requests, Build(cfg, ttl, entries, now, r).entries, ops[1..]);
      case Clear =>
        SoundAfter(cfg, ttl, requests, map[], ops[1..]);
    }
  }

  lemma SoundBuild(cfg: Config, ttl: int, requests: set<Request>, entries: Entries, now: int, r: Request)
    requires Sound(cfg, requests, entries) && r in requests
    ensures Sound(cfg, requests, Build(cfg, ttl, entries, now, r).entries)
  {
    hide Fresh;
    hide KeyText;
    hide KeyOf;
    hide SentOf;
    var after := Build(cfg, ttl, entries, now, r).entries;
    forall key | key in after
      ensures exists q | q in requests :: KeyText(KeyOf(cfg, q)) == key && SentOf(Fresh(cfg, q)) == SentOf(after[key].plan)
    {
      if key in entries && after[key] == entries[key] {
      } else {
        assert KeyText(KeyOf(cfg, r)) == key;
      }
    }
  }

  lemma OneBuild(cfg: Config, ttl: int, r: Request)
    ensures After(cfg, ttl, map[], [Make(0, r)]) == map[KeyText(KeyOf(cfg, r)) := Entry(Fresh(cfg, r), ttl)]
  {
    hide Fresh;
    hide KeyText;
    hide KeyOf;
    assert [Make(0, r)][1..] == [];
  }

  lemma TransparentIffConsistent(cfg: Config, ttl: int, requests: set<Request>)
    requires ttl > 0
    ensures Transparent(cfg, ttl, requests) <==> Consistent(cfg, requests)
  {
    hide Fresh;
    hide KeyText;
    hide KeyOf;
    if Consistent(cfg, requests) {
      forall ops, now, r | Over(requests, ops) && r in requests
        ensures SentOf(Build(cfg, ttl, After(cfg, ttl, map[], ops), now, r).plan) == SentOf(Fresh(cfg, r))
      {
        SoundAfter(cfg, ttl, requests, map[], ops);
        var entries := After(cfg, ttl, map[], ops);
        var key := KeyText(KeyOf(cfg, r));
        if Live(entries, key, now) {
          var q :| q in requests && KeyText(KeyOf(cfg, q)) == key && SentOf(Fresh(cfg, q)) == SentOf(entries[key].plan);
        }
      }
    }
    if Transparent(cfg, ttl, requests) {
      forall a, b | a in requests && b in requests && KeyText(KeyOf(cfg, a)) == KeyText(KeyOf(cfg, b))
        ensures SentOf(Fresh(cfg, a)) == SentOf(Fresh(cfg, b))
      {
        var ops := [Make(0, a)];
        OneBuild(cfg, ttl, a);
        assert Over(requests, ops);
        assert SentOf(Build(cfg, ttl, After(cfg, ttl, map[], ops), 0, b).plan) == SentOf(Fresh(cfg, b));
      }
    }
  }

  // ---------- when the cache is transparent, in terms of the keys and the budgets ----------

  /** The budget leaves room for these messages; one below one sets no limit. */
  predicate Admits(prompt: string, blocks: seq<string>, history: seq<Message>, maxChars: int) {
    maxChars <= 0 || Fits(prompt, blocks, history, maxChars)
  }

  predicate IsSuffix(t: seq<Message>, history: seq<Message>) {
    |t| <= |history| && history[|history| - |t|..] == t
  }

  /** Every suffix of one history that its budget admits is one of the other history that the other budget admits. */
  predicate AdmitsNoMore(prompt: string, blocks: seq<string>, a: seq<Message>, maxA: int, b: seq<Message>, maxB: int) {
    forall j | 0 <= j < |a| && Admits(prompt, blocks, a[j..], maxA) :: IsSuffix(a[j..], b) && Admits(prompt, blocks, a[j..], maxB)
  }

  /** Same prompt and blocks, and the same suffixes of the histories are admitted. */
  predicate Alike(a: Key, maxA: int, b: Key, maxB: int) {
    && a.prompt == b.prompt && BlocksOf(a.memory, a.summary) == BlocksOf(b.memory, b.summary)
    && AdmitsNoMore(a.prompt, BlocksOf(a.memory, a.summary), a.history, maxA, b.history, maxB)
    && AdmitsNoMore(a.prompt, BlocksOf(a.memory, a.summary), b.history, maxB, a.history, maxA)
  }

  lemma {:induction false} SuffixIsSmaller(history: seq<Message>, j: nat)
    requires j <= |history|
    ensures HistoryBytes(history[j..]) <= HistoryBytes(history)
    decreases j
  {
    hide ByteLen;
    if j > 0 {
      SuffixIsSmaller(history[1..], j - 1);
      assert history[1..][j - 1..] == history[j..];
    } else {
      assert history[0..] == history;
    }
  }

  lemma AdmitsSuffix(prompt: string, blocks: seq<string>, history: seq<Message>, j: nat, maxChars: int)
    requires j <= |history| && Admits(prompt, blocks, history, maxChars)
    ensures Admits(prompt, blocks, history[j..], maxChars)
  {
    hide ByteLen;
    SuffixIsSmaller(history, j);
  }

  lemma DroppedFirst(history: seq<Message>, t: seq<Message>)
    requires history != [] && t != history
    ensures IsSuffix(t, history) <==> IsSuffix(t, history[1..])
  {
    assert |t| < |history| ==> history[1..][|history| - 1 - |t|..] == history[|history| - |t|..];
    assert history[0..] == history;
  }

  /** What is kept ends in exactly those messages the history ends in and the budget admits. */
  lemma {:induction false} KeptSuffixes(prompt: string, blocks: seq<string>, history: seq<Message>, maxChars: int, t: seq<Message>)
    requires t != []
    ensures IsSuffix(t, FittingSuffix(prompt, blocks, history, maxChars))
            <==> IsSuffix(t, history) && Admits(prompt, blocks, t, maxChars)
    decreases |history|
  {
    hide Fits;
    hide IsSuffix;
    if history == [] {
      assert !IsSuffix(t, []) by { NoSuffix(t); }
    } else if Admits(prompt, blocks, history, maxChars) {
      if IsSuffix(t, history) {
        SuffixAdmitted(prompt, blocks, history, t, maxChars);
      }
    } else {
      KeptSuffixes(prompt, blocks, history[1..], maxChars, t);
      if t != history {
        DroppedFirst(history, t);
      } else {
        assert !IsSuffix(t, history[1..]) by { NoSuffix(t); }
      }
    }
  }

  lemma NoSuffix(t: seq<Message>)
    ensures forall history | |history| < |t| :: !IsSuffix(t, history)
  {
  }

  lemma SuffixAdmitted(prompt: string, blocks: seq<string>, history: seq<Message>, t: seq<Message>, maxChars: int)
    requires IsSuffix(t, history) && Admits(prompt, blocks, history, maxChars)
    ensures Admits(prompt, blocks, t, maxChars)
  {
    AdmitsSuffix(prompt, blocks, history, |history| - |t|, maxChars);
  }

  /** Two histories under two budgets keep the same exactly when the same suffixes of them are admitted. */
  lemma KeptSameIff(prompt: string, blocks: seq<string>, a: seq<Message>, maxA: int, b: seq<Message>, maxB: int)
    ensures FittingSuffix(prompt, blocks, a, maxA) == FittingSuffix(prompt, blocks, b, maxB)
            <==> AdmitsNoMore(prompt, blocks, a, maxA, b, maxB) && AdmitsNoMore(prompt, blocks, b, maxB, a, maxA)
  {
    hide FittingSuffix;
    var keptA, keptB := FittingSuffix(prompt, blocks, a, maxA), FittingSuffix(prompt, blocks, b, maxB);
    KeptWithin(prompt, blocks, a, maxA, b, maxB);
    KeptWithin(prompt, blocks, b, maxB, a, maxA);
    if IsSuffix(keptA, keptB) && IsSuffix(keptB, keptA) {
      assert keptB[0..] == keptB;
    }
    assert keptA == keptB ==> IsSuffix(keptA, keptB) by {
      assert keptA[0..] == keptA;
    }
  }

  lemma KeptWithin(prompt: string, blocks: seq<string>, a: seq<Message>, maxA: int, b: seq<Message>, maxB: int)
    ensures IsSuffix(FittingSuffix(prompt, blocks, a, maxA), FittingSuffix(prompt, blocks, b, maxB))
            <==> AdmitsNoMore(prompt, blocks, a, maxA, b, maxB)
  {
    hide FittingSuffix;
    hide Admits;
    var keptA, keptB := FittingSuffix(prompt, blocks, a, maxA), FittingSuffix(prompt, blocks, b, maxB);
    if AdmitsNoMore(prompt, blocks, a, maxA, b, maxB) && keptA != [] {
      assert keptA[0..] == keptA;
      KeptSuffixes(prompt, blocks, a, maxA, keptA);
      assert a[|a| - |keptA|..] == keptA;
      KeptSuffixes(prompt, blocks, b, maxB, keptA);
    }
    if IsSuffix(keptA, keptB) {
      forall j | 0 <= j < |a| && Admits(prompt, blocks, a[j..], maxA)
        ensures IsSuffix(a[j..], b) && Admits(prompt, blocks, a[j..], maxB)
      {
        KeptSuffixes(prompt, blocks, a, maxA, a[j..]);
        SuffixOfSuffix(a[j..], keptA, keptB);
        KeptSuffixes(prompt, blocks, b, maxB, a[j..]);
      }
    }
  }

  lemma SuffixOfSuffix(t: seq<Message>, middle: seq<Message>, history: seq<Message>)
    requires IsSuffix(t, middle) && IsSuffix(middle, history)
    ensures IsSuffix(t, history)
  {
    assert history[|history| - |middle|..][|middle| - |t|..] == history[|history| - |t|..];
  }

  /** Two builds send the same exactly when their keys and budgets are alike. */
  lemma SentSameIff(cfg: Config, a: Request, b: Request)
    ensures SentOf(Fresh(cfg, a)) == SentOf(Fresh(cfg, b))
            <==> Alike(KeyOf(cfg, a), a.input.maxChars, KeyOf(cfg, b), b.input.maxChars)
  {
    hide Fresh;
    hide KeyOf;
    hide SentOf;
    hide PromptBytes;
    hide FittingSuffix;
    hide AdmitsNoMore;
    hide BlocksOf;
    SentFromKey(cfg, a);
    SentFromKey(cfg, b);
    var key, key' := KeyOf(cfg, a), KeyOf(cfg, b);
    KeptSameIff(key.prompt, BlocksOf(key.memory, key.summary), key.history, a.input.maxChars, key'.history, b.input.maxChars);
  }

  /** Requests whose keys share a text have alike keys and budgets. */
  ghost predicate Agreeing(cfg: Config, requests: set<Request>) {
    forall a, b | a in requests && b in requests && KeyText(KeyOf(cfg, a)) == KeyText(KeyOf(cfg, b)) ::
      Alike(KeyOf(cfg, a), a.input.maxChars, KeyOf(cfg, b), b.input.maxChars)
  }

  /** The cache never changes what is sent, over every run, exactly when the requests agree in keys and budgets. */
  lemma TransparentIff(cfg: Config, ttl: int, requests: set<Request>)
    requires ttl > 0
    ensures Transparent(cfg, ttl, requests) <==> Agreeing(cfg, requests)
  {
    hide Transparent;
    hide KeyText;
    hide KeyOf;
    hide Fresh;
    hide SentOf;
    hide Alike;
    TransparentIffConsistent(cfg, ttl, requests);
    forall a, b | a in requests && b in requests
      ensures SentOf(Fresh(cfg, a)) == SentOf(Fresh(cfg, b))
              <==> Alike(KeyOf(cfg, a), a.input.maxChars, KeyOf(cfg, b), b.input.maxChars)
    {
      SentSameIff(cfg, a, b);
    }
  }

  /** Requests with one key text have one key. */
  ghost predicate ToldApart(cfg: Config, requests: set<Request>) {
    forall a, b | a in requests && b in requests && KeyText(KeyOf(cfg, a)) == KeyText(KeyOf(cfg, b)) ::
      SameShape(KeyOf(cfg, a), KeyOf(cfg, b))
  }

  /** The budget of `a` admits the same suffixes of the history of `key` as that of `b`. */
  predicate SameRoom(key: Key, maxA: int, maxB: int) {
    var blocks := BlocksOf(key.memory, key.summary);
    forall j | 0 <= j < |key.history| ::
      Admits(key.prompt, blocks, key.history[j..], maxA) <==> Admits(key.prompt, blocks, key.history[j..], maxB)
  }

  /** Where the texts tell the keys apart, the cache is transparent exactly when the budgets asked of one key leave the
      same room for its history. */
  lemma TransparentIffSameRoom(cfg: Config, ttl: int, requests: set<Request>)
    requires ttl > 0 && ToldApart(cfg, requests)
    ensures Transparent(cfg, ttl, requests) <==>
              forall a, b | a in requests && b in requests && KeyOf(cfg, a) == KeyOf(cfg, b) ::
                SameRoom(KeyOf(cfg, a), a.input.maxChars, b.input.maxChars)
  {
    hide Transparent;
    hide KeyText;
    hide KeyOf;
    hide Alike;
    hide SameRoom;
    hide SameShape;
    TransparentIff(cfg, ttl, requests);
    forall a, b | a in requests && b in requests && KeyText(KeyOf(cfg, a)) == KeyText(KeyOf(cfg, b))
      ensures KeyOf(cfg, a) == KeyOf(cfg, b)
      ensures Alike(KeyOf(cfg, a), a.input.maxChars, KeyOf(cfg, b), b.input.maxChars)
              <==> SameRoom(KeyOf(cfg, a), a.input.maxChars, b.input.maxChars)
    {
      SameTextIff(KeyOf(cfg, a), KeyOf(cfg, b));
      AlikeIffSameRoom(KeyOf(cfg, a), a.input.maxChars, b.input.maxChars);
    }
  }

  lemma AlikeIffSameRoom(key: Key, maxA: int, maxB: int)
    ensures Alike(key, maxA, key, maxB) <==> SameRoom(key, maxA, maxB)
  {
    hide Admits;
    assert forall j | 0 <= j < |key.history| :: IsSuffix(key.history[j..], key.history);
  }

  /** Under one budget, keys told apart by their texts are enough. */
  lemma FixedBudgetTransparent(cfg: Config, ttl: int, requests: set<Request>, maxChars: int)
    requires ttl > 0 && ToldApart(cfg, requests) && forall r | r in requests :: r.input.maxChars == maxChars
    ensures Transparent(cfg, ttl, requests)
  {
    hide Transparent;
    hide KeyOf;
    TransparentIffSameRoom(cfg, ttl, requests);
  }

  /** Without compression a build's draft is its memory, its stored summary and its recent messages. */
  lemma PlainDraft(cfg: Config, r: Request)
    requires !cfg.enabled
    ensures KeyOf(cfg, r) == Key(r.input.username, r.input.session, r.input.model, r.input.prompt, r.memory, r.stored, r.recent)
    ensures SentOf(Fresh(cfg, r)).history == FittingSuffix(r.input.prompt, BlocksOf(r.memory, r.stored), r.recent, r.input.maxChars)
  {
    hide FittingSuffix;
    hide PromptBytes;
    hide KeyText;
  }

  /** The budget is not part of the key: the same request under a smaller one is answered with the longer history. */
  lemma BudgetNotInKey(cfg: Config, ttl: int) returns (a: Request, b: Request)
    requires !cfg.enabled && ttl > 0
    ensures b == a.(input := a.input.(maxChars := b.input.maxChars)) && !Transparent(cfg, ttl, {a, b})
  {
    hide KeyText;
    hide KeyOf;
    hide Fresh;
    hide ByteLen;
    hide Transparent;
    var message := Message("user", "hi");
    a := Request(Input("u", 0, "", "m", 8, 0, "rule"), "", "", [message]);
    b := a.(input := a.input.(maxChars := 1));
    PlainDraft(cfg, a);
    PlainDraft(cfg, b);
    SystemIsLong("", [], []);
    SystemIsLong("", [], [message]);
    hide Fits;
    assert [message][1..] == [];
    assert SentOf(Fresh(cfg, a)).history != SentOf(Fresh(cfg, b)).history;
    TransparentIffConsistent(cfg, ttl, {a, b});
  }

  lemma SystemIsLong(prompt: string, blocks: seq<string>, history: seq<Message>)
    ensures !Fits(prompt, blocks, history, 1)
  {
    hide ByteLen;
    assert ByteLen(SYSTEM) >= |SYSTEM|;
  }

  /** A line feed in a message can make two histories share a key text. */
  lemma KeyTextIsAmbiguous(cfg: Config, ttl: int) returns (a: Request, b: Request)
    requires !cfg.enabled && ttl > 0
    ensures a.input == b.input && !Transparent(cfg, ttl, {a, b})
  {
    hide KeyOf;
    hide Fresh;
    hide Transparent;
    hide Decimal.PrintInt;
    var input := Input("u", 0, "", "m", 8, 0, "rule");
    var one, two := AmbiguousHistories();
    a, b := Request(input, "", "", one), Request(input, "", "", two);
    PlainDraft(cfg, a);
    PlainDraft(cfg, b);
    hide HistoryText;
    assert KeyText(KeyOf(cfg, a)) == KeyText(KeyOf(cfg, b));
    assert SentOf(Fresh(cfg, a)).history == one && SentOf(Fresh(cfg, b)).history == two;
    hide KeyText;
    TransparentIffConsistent(cfg, ttl, {a, b});
  }

  lemma AmbiguousHistories() returns (one: seq<Message>, two: seq<Message>)
    ensures one != two && HistoryText(one) == HistoryText(two)
  {
    one := [Message("user", "a\nuser:b")];
    two := [Message("user", "a"), Message("user", "b")];
    assert one[1..] == [] && two[1..] == [Message("user", "b")] && two[1..][1..] == [];
  }

  class Cache {
    const ttl: int
    var entries: Entries
    var hits: nat
    var misses: nat

    constructor (ttl: int)
      ensures this.ttl == (if ttl <= 0 then 300_000_000_000 else ttl) && entries == map[] && hits == 0 && misses == 0
    {
      this.ttl := if ttl <= 0 then 300_000_000_000 else ttl;
      entries, hits, misses := map[], 0, 0;
    }

    method Get(key: string, now: int) returns (plan: Option<Plan>)
      modifies this
      ensures Live(old(entries), key, now) ==>
                && plan == Some(old(entries)[key].plan.(cacheHit := true, cacheKey := key))
                && entries == old(entries) && hits == old(hits) + 1 && misses == old(misses)
      ensures !Live(old(entries), key, now) ==>
                && plan == None && entries == old(entries) - {key} && hits == old(hits) && misses == old(misses) + 1
    {
      if key !in entries || now > entries[key].expiresAt {
        entries := entries - {key};
        misses := misses + 1;
        return None;
      }
      hits := hits + 1;
      plan := Some(entries[key].plan.(cacheHit := true, cacheKey := key));
    }

    method Set(key: string, plan: Plan, now: int)
      modifies this`entries
      ensures entries == old(entries)[key := Entry(plan.(cacheKey := key), now + ttl)]
    {
      entries := entries[key := Entry(plan.(cacheKey := key), now + ttl)];
    }

    method Clear()
      modifies this`entries
      ensures entries == map[]
    {
      entries := map[];
    }
  }

  /** The read-only sources of a build; each may fail. */
  datatype Sources = Sources(prefetch: (string, string) -> Option<string>,
                             recent: (string, int) -> Option<seq<Message>>,
                             recentBySession: Option<(int, int) -> Option<seq<Message>>>)

  class Builder {
    const cfg: Config
    const sources: Sources
    const cache: Cache?
    var summaries: map<string, string>

    constructor (cfg: Config, sources: Sources, cache: Cache?)
      ensures this.cfg == cfg && this.sources == sources && this.cache == cache && summaries == map[]
    {
      this.cfg, this.sources, this.cache, summaries := cfg, sources, cache, map[];
    }

    ghost function RecentOf(input: Input): Option<seq<Message>> {
      if input.session > 0 && sources.recentBySession.Some? then sources.recentBySession.value(input.session, input.window)
      else sources.recent(input.username, input.window)
    }

    /** The plan's memory is what is recalled for this user and prompt, and its history ends the recent messages of the session,
        if there is one to read by, else of the user. */
    ghost predicate FromSources(input: Input, p: Plan) {
      var recent := if input.session > 0 && sources.recentBySession.Some?
                    then sources.recentBySession.value(input.session, input.window)
                    else sources.recent(input.username, input.window);
      sources.prefetch(input.username, input.prompt) == Some(p.memory) && recent.Some? && IsSuffix(p.history, recent.value)
    }

    /** What the sources and the stored summary make of an input, or nothing if one of them cannot be read. */
    ghost function RequestOf(input: Input, readOk: bool): Option<Request>
      reads this`summaries
    {
      var memory := sources.prefetch(input.username, input.prompt);
      var recent := RecentOf(input);
      if memory.None? || !readOk || recent.None? then None
      else Some(Request(input, memory.value, if input.username in summaries then summaries[input.username] else "", recent.value))
    }

    /** Assembles one prompt. `readOk` and `persistOk` say whether reading and writing the stored summary succeed. */
    method Assemble(input: Input, now: int, readOk: bool, persistOk: bool) returns (plan: Option<Plan>)
      modifies this`summaries, cache
      ensures old(RequestOf(input, readOk)).None? ==>
                plan == None && summaries == old(summaries) && (cache != null ==> cache.entries == old(cache.entries))
      ensures old(RequestOf(input, readOk)).Some? ==>
                var r := old(RequestOf(input, readOk)).value;
                var d := DraftOf(cfg, r);
                && summaries == (if d.updated && persistOk then old(summaries)[input.username := d.summary] else old(summaries))
                && (d.updated && !persistOk ==> plan == None && (cache != null ==> cache.entries == old(cache.entries)))
                && (!d.updated || persistOk ==>
                      if cache == null then plan == Some(Fresh(cfg, r))
                      else
                        var b := Build(cfg, cache.ttl, old(cache.entries), now, r);
                        && plan == Some(b.plan) && cache.entries == b.entries
                        && cache.hits == old(cache.hits) + (if b.hit then 1 else 0)
                        && cache.misses == old(cache.misses) + (if b.hit then 0 else 1))
      ensures cache == null && plan.Some? ==> FromSources(input, plan.value)
    {
      hide Build;
      hide DraftOf;
      hide Fresh;
      var memory := sources.prefetch(input.username, input.prompt);
      if memory.None? {
        return None;
      }
      if !readOk {
        return None;
      }
      var stored := if input.username in summaries then summaries[input.username] else "";
      var recent := if input.session > 0 && sources.recentBySession.Some?
        then sources.recentBySession.value(input.session, input.window)
        else sources.recent(input.username, input.window);
      if recent.None? {
        return None;
      }
      var d := MakeDraft(Request(input, memory.value, stored, recent.value));
      if d.updated {
        if !persistOk {
          return None;
        }
        summaries := summaries[input.username := d.summary];
      }
      plan := Answer(Request(input, memory.value, stored, recent.value), d, now);
      FreshFromSources(cfg, Request(input, memory.value, stored, recent.value));
    }

    /** The cache's plan for a draft, or a new one that is then cached. */
    method Answer(r: Request, d: Draft, now: int) returns (plan: Option<Plan>)
      requires d == DraftOf(cfg, r)
      modifies cache
      ensures cache == null ==> plan == Some(Fresh(cfg, r))
      ensures cache != null ==>
                var b := Build(cfg, cache.ttl, old(cache.entries), now, r);
                && plan == Some(b.plan) && cache.entries == b.entries
                && cache.hits == old(cache.hits) + (if b.hit then 1 else 0)
                && cache.misses == old(cache.misses) + (if b.hit then 0 else 1)
    {
      hide KeyText;
      hide DraftOf;
      hide FittingSuffix;
      hide PromptBytes;
      hide KeepsWhatFits;
      var input := r.input;
      var key := BuildCacheKey(Key(input.username, input.session, input.model, input.prompt, r.memory, d.summary, d.history));
      if cache != null {
        var cached := cache.Get(key, now);
        if cached.Some? {
          return cached;
        }
      }
      var trimmed := TrimHistoryToBudget(d.blocks, d.history, input.prompt, input.maxChars);
      var chars := CountChars(input.prompt, d.blocks, trimmed);
      var built := Plan(input.model, input.prompt, d.blocks, trimmed, r.memory, d.summary, d.compression, chars, input.maxChars,
                        input.window, |trimmed|, |d.blocks|, d.updated, false, key);
      if cache != null {
        cache.Set(key, built, now);
      }
      plan := Some(built);
    }

    /** The blocks, the history and the summary of a build; `updated` asks for the summary to be persisted. */
    method MakeDraft(r: Request) returns (d: Draft)
      ensures d == DraftOf(cfg, r)
    {
      hide Compressed;
      hide TrimSpace;
      var history := r.recent;
      var compression := Compress(cfg, r.stored, history);
      var blocks := [];
      if r.memory != "" {
        blocks := blocks + [r.memory];
      }
      var summary := r.stored;
      if summary != "" {
        blocks := blocks + [summary];
      }
      var updated := false;
      if compression.compressed && compression.block != "" {
        if summary == "" {
          blocks := blocks + [compression.block];
        } else {
          blocks := blocks[|blocks| - 1 := compression.block];
        }
        history := compression.history;
        if TrimSpace(compression.persisted) != "" && compression.persisted != r.stored {
          updated := true;
          summary := compression.persisted;
        }
      }
      d := Draft(blocks, summary, history, updated, compression);
    }

    static method CountChars(prompt: string, blocks: seq<string>, history: seq<Message>) returns (total: int)
      ensures total == PromptBytes(prompt, blocks, history)
    {
      hide ByteLen;
      total := ByteLen(prompt) + ByteLen(SYSTEM);
      total := AddBlocks(total, blocks);
      total := AddHistory(total, history);
    }
  }
}
