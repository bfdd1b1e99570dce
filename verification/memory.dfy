/** The file-backed memory provider: entries joined by a delimiter line, with a byte limit. */
module Memory {
  import opened Text

  const DELIMITER: string := "\n\U{A7}\n"

  // ---------- printing and parsing ----------

  function Join(entries: seq<string>): (text: string) {
    if entries == [] then ""
    else if |entries| == 1 then entries[0]
    else entries[0] + DELIMITER + Join(entries[1..])
  }

  /** Leftmost occurrence of the delimiter, or -1. */
  function Find(text: string): (r: int)
    ensures -1 <= r
    ensures r == -1 ==> forall k :: !MatchAt(text, DELIMITER, k)
    ensures r >= 0 ==> MatchAt(text, DELIMITER, r) && forall k | k < r :: !MatchAt(text, DELIMITER, k)
  {
    if |text| < 3 then -1
    else if text[..3] == DELIMITER then assert MatchAt(text, DELIMITER, 0); 0
    else
      var rest := Find(text[1..]);
      assert forall k | 1 <= k :: MatchAt(text, DELIMITER, k) == MatchAt(text[1..], DELIMITER, k - 1) by {
        forall k | 1 <= k
          ensures MatchAt(text, DELIMITER, k) == MatchAt(text[1..], DELIMITER, k - 1)
        {
          if k + 3 <= |text| {
            assert text[k..k + 3] == text[1..][k - 1..k + 2];
          }
        }
      }
      if rest < 0 then -1 else rest + 1
  }

  /** `strings.Split` on the delimiter: leftmost, non-overlapping. */
  function Split(text: string): (parts: seq<string>)
    ensures parts != []
    decreases |text|
  {
    var i := Find(text);
    if i < 0 then [text] else [text[..i]] + Split(text[i + 3..])
  }

  /** Trims every part and drops the empty ones. */
  function Tidy(parts: seq<string>): (entries: seq<string>) {
    if parts == [] then []
    else
      var part := TrimSpace(parts[0]);
      (if part == "" then [] else [part]) + Tidy(parts[1..])
  }

  /** What `readEntries` makes of the text of a file. */
  function Parse(text: string): (entries: seq<string>) {
    Tidy(Split(TrimSpace(text)))
  }

  // ---------- the round trip, and exactly when it holds ----------

  /** Trimmed and not empty: what `Write` puts in the list and what reading gives back. */
  predicate Entries(entries: seq<string>) {
    forall e | e in entries :: e != "" && Trimmed(e)
  }

  predicate EndsInHalfDelimiter(e: string) {
    |e| >= 2 && e[|e| - 2..] == DELIMITER[..2]
  }

  /** No entry holds the delimiter, and none but the last ends in its first two characters. */
  predicate Separable(entries: seq<string>) {
    && (forall e | e in entries :: Find(e) < 0)
    && (forall i | 0 <= i < |entries| - 1 :: !EndsInHalfDelimiter(entries[i]))
  }

  /** The leftmost delimiter of `e + DELIMITER + rest` is the one after `e`, unless `e` spoils it. */
  lemma FindAfterEntry(e: string, rest: string)
    requires e != "" && Trimmed(e)
    ensures Find(e) < 0 && !EndsInHalfDelimiter(e) ==> Find(e + DELIMITER + rest) == |e|
    ensures Find(e) >= 0 || EndsInHalfDelimiter(e) ==> 0 < Find(e + DELIMITER + rest) < |e|
  {
    var text := e + DELIMITER + rest;
    assert text[|e|..|e| + 3] == DELIMITER;
    assert MatchAt(text, DELIMITER, |e|);
    forall k | 0 <= k < |e|
      ensures MatchAt(text, DELIMITER, k) <==> MatchAt(e, DELIMITER, k) || (k == |e| - 2 && EndsInHalfDelimiter(e))
    {
      if k + 3 <= |e| {
        assert text[k..k + 3] == e[k..k + 3];
      } else {
        assert text[k..k + 3][0] == e[k];
        if k == |e| - 2 {
          assert text[k..k + 3] == e[k..] + DELIMITER[..1];
          assert MatchAt(text, DELIMITER, k) <==> e[k..] == DELIMITER[..2] by {
            assert text[k..k + 3][..2] == e[k..];
            assert DELIMITER == DELIMITER[..2] + DELIMITER[..1];
          }
        } else {
          assert k == |e| - 1;
        }
      }
    }
    assert !MatchAt(text, DELIMITER, 0);
    if Find(e) >= 0 {
      assert MatchAt(text, DELIMITER, Find(e));
    }
    if EndsInHalfDelimiter(e) {
      assert e[|e| - 2] == DELIMITER[0];
      assert MatchAt(text, DELIMITER, |e| - 2);
    }
  }

  /** A leading piece cut out of a trimmed entry is a different, non-empty entry. */
  lemma CutDiffers(e: string, i: int)
    requires e != "" && Trimmed(e) && 0 < i < |e|
    ensures TrimSpace(e[..i]) != "" && TrimSpace(e[..i]) != e
  {
    var a, b := TrimSpaceCuts(e[..i]);
    var j := TrimRightCuts(e[..i]);
    assert TrimLeft(e[..i]) == e[..i];
  }

  lemma JoinTrimmed(entries: seq<string>)
    requires Entries(entries)
    ensures Trimmed(Join(entries))
    ensures entries != [] ==> Join(entries) != "" && Join(entries)[0] == entries[0][0]
  {
    if entries != [] {
      assert entries[0] in entries;
      if |entries| > 1 {
        assert forall e | e in entries[1..] :: e in entries;
        JoinTrimmed(entries[1..]);
      }
    }
  }

  lemma SplitOnce(text: string)
    requires Find(text) >= 0
    ensures var head, parts := text[..Find(text)], Split(text[Find(text) + 3..]);
            Tidy(Split(text)) == if TrimSpace(head) == "" then Tidy(parts) else [TrimSpace(head)] + Tidy(parts)
  {
    TidyCons(text[..Find(text)], Split(text[Find(text) + 3..]));
  }

  lemma TidyCons(head: string, parts: seq<string>)
    ensures Tidy([head] + parts) == if TrimSpace(head) == "" then Tidy(parts) else [TrimSpace(head)] + Tidy(parts)
  {
    assert ([head] + parts)[1..] == parts;
  }

  /** A spoiled entry at the front of a text is read as something else. */
  lemma SpoiledFront(e: string, text: string)
    requires e != "" && Trimmed(e) && 0 < Find(text) < |e| <= |text| && text[..|e|] == e
    ensures Tidy(Split(text)) != [] && Tidy(Split(text))[0] != e
  {
    assert text[..Find(text)] == e[..Find(text)];
    CutDiffers(e, Find(text));
    SplitOnce(text);
  }

  lemma SplitJoinOne(e: string)
    requires e != "" && Trimmed(e)
    ensures Tidy(Split(e)) == [e] <==> Find(e) < 0
  {
    TrimFixed(e);
    if Find(e) >= 0 {
      assert MatchAt(e, DELIMITER, Find(e));
      SpoiledFront(e, e);
    } else {
      TidyCons(e, []);
    }
  }

  lemma {:induction false} SplitJoin(entries: seq<string>)
    requires Entries(entries) && entries != []
    ensures Tidy(Split(Join(entries))) == entries <==> Separable(entries)
  {
    var e, rest := entries[0], entries[1..];
    assert e in entries && forall x | x in rest :: x in entries;
    if rest == [] {
      assert entries == [e];
      SplitJoinOne(e);
    } else {
      var text := e + DELIMITER + Join(rest);
      assert text[..|e|] == e && text[|e| + 3..] == Join(rest);
      FindAfterEntry(e, Join(rest));
      assert entries == [e] + rest;
      SeparableCons(e, rest);
      if Find(e) < 0 && !EndsInHalfDelimiter(e) {
        TrimFixed(e);
        SplitOnce(text);
        SplitJoin(rest);
      } else {
        SpoiledFront(e, text);
      }
    }
  }

  lemma SeparableCons(e: string, rest: seq<string>)
    requires rest != []
    ensures Separable([e] + rest) <==> Find(e) < 0 && !EndsInHalfDelimiter(e) && Separable(rest)
  {
    var all := [e] + rest;
    if Separable(all) {
      assert all[0] == e;
      assert forall i | 0 <= i < |rest| - 1 :: rest[i] == all[i + 1];
    }
  }

  /** Reading back a written file returns the same list exactly when the list is separable. */
  lemma RoundTrip(entries: seq<string>)
    requires Entries(entries)
    ensures Parse(Join(entries)) == entries <==> Separable(entries)
  {
    JoinTrimmed(entries);
    TrimFixed(Join(entries));
    if entries == [] {
      assert Parse("") == [];
    } else {
      SplitJoin(entries);
    }
  }

  /** Two well-formed entries whose file reads back as a different list: the split matches across the join. */
  lemma HalfDelimiterSpoils()
    ensures var entries := ["x\n\U{A7}", "y"]; Entries(entries) && Parse(Join(entries)) != entries
  {
    var entries := ["x\n\U{A7}", "y"];
    assert EndsInHalfDelimiter(entries[0]);
    RoundTrip(entries);
  }

  /** Everything read from a file is trimmed and not empty. */
  lemma {:induction false} TidyEntries(parts: seq<string>)
    ensures Entries(Tidy(parts))
  {
    if parts != [] {
      TidyEntries(parts[1..]);
      var _, _ := TrimSpaceCuts(parts[0]);
    }
  }

  // ---------- sizes ----------

  lemma JoinLen(e: string, rest: seq<string>)
    ensures ByteLen(Join([e] + rest)) == ByteLen(e) + if rest == [] then 0 else 4 + ByteLen(Join(rest))
  {
    if rest == [] {
      assert [e] + rest == [e];
    } else {
      assert ([e] + rest)[1..] == rest;
      ByteLenConcat(e + DELIMITER, Join(rest));
      ByteLenConcat(e, DELIMITER);
      DelimiterLen();
    }
  }

  lemma DelimiterLen()
    ensures ByteLen(DELIMITER) == 4
  {
    assert DELIMITER[1..] == "\U{A7}\n" && DELIMITER[1..][1..] == "\n" && DELIMITER[1..][1..][1..] == "";
  }

  /** Rejoining what was read is never longer than the text. */
  lemma {:induction false} TidyShrinks(text: string)
    ensures ByteLen(Join(Tidy(Split(text)))) <= ByteLen(text)
    decreases |text|
  {
    var i := Find(text);
    if i < 0 {
      ByteLenTrim(text);
      assert Tidy([text]) == (if TrimSpace(text) == "" then [] else [TrimSpace(text)]) + Tidy([text][1..]);
    } else {
      var head, tail := text[..i], text[i + 3..];
      assert text == head + (DELIMITER + tail);
      ByteLenConcat(head, DELIMITER + tail);
      ByteLenConcat(DELIMITER, tail);
      DelimiterLen();
      ByteLenTrim(head);
      TidyShrinks(tail);
      SplitOnce(text);
      JoinLen(TrimSpace(head), Tidy(Split(tail)));
    }
  }

  lemma ParseShrinks(text: string)
    ensures ByteLen(Join(Parse(text))) <= ByteLen(text)
  {
    TidyShrinks(TrimSpace(text));
    ByteLenTrim(text);
  }

  lemma EmptyJoin()
    ensures ByteLen(Join([])) == 0
  {
  }

  lemma {:induction false} RemoveShrinks(entries: seq<string>, i: nat)
    requires i < |entries|
    ensures ByteLen(Join(entries[..i] + entries[i + 1..])) <= ByteLen(Join(entries))
  {
    hide ByteLen;
    hide Join;
    var e, rest := entries[0], entries[1..];
    assert entries == [e] + rest;
    JoinLen(e, rest);
    if i == 0 {
      assert entries[..0] + entries[1..] == rest;
      EmptyJoin();
    } else {
      RemoveShrinks(rest, i - 1);
      var rest' := rest[..i - 1] + rest[i..];
      assert entries[..i] + entries[i + 1..] == [e] + rest';
      JoinLen(e, rest');
    }
  }

  // ---------- the provider ----------

  datatype Error = BadTarget | ContentRequired | MatchAndContentRequired | MatchRequired | NoEntryMatched | LimitExceeded | BadAction

  /** What one action does to the list of entries of a file. */
  datatype Edit = Refused(error: Error) | Untouched | Stored(entries: seq<string>)

  datatype Target = MemoryFile | UserFile

  /** A file is named by the hash of its user and by its target. */
  datatype Path = Path(user: string, target: Target)

  type Files = map<Path, string>

  datatype Limits = Limits(memory: int, user: int) {
    function Of(target: Target): int {
      match target case MemoryFile => memory case UserFile => user
    }
  }

  datatype Snapshot = Snapshot(memory: seq<string>, user: seq<string>)

  datatype Outcome = Failed(error: Error) | Read(snapshot: Snapshot)

  /** First entry holding `part`, or -1. */
  function FirstContaining(entries: seq<string>, part: string): (r: int)
    ensures -1 <= r < |entries|
    ensures r == -1 ==> forall e | e in entries :: !Contains(e, part)
    ensures r >= 0 ==> Contains(entries[r], part) && forall k | 0 <= k < r :: !Contains(entries[k], part)
  {
    if entries == [] then -1
    else if Contains(entries[0], part) then 0
    else
      var rest := FirstContaining(entries[1..], part);
      if rest < 0 then -1 else rest + 1
  }

  function Fitted(entries: seq<string>, limit: int): Edit {
    if ByteLen(Join(entries)) > limit then Refused(LimitExceeded) else Stored(entries)
  }

  function EditOf(entries: seq<string>, action: string, content: string, part: string, limit: int): Edit {
    var content, part := TrimSpace(content), TrimSpace(part);
    if action == "add" then
      if content == "" then Refused(ContentRequired)
      else if content in entries then Untouched
      else Fitted(entries + [content], limit)
    else if action == "replace" then
      if part == "" || content == "" then Refused(MatchAndContentRequired)
      else
        var i := FirstContaining(entries, part);
        if i < 0 then Refused(NoEntryMatched) else Fitted(entries[i := content], limit)
    else if action == "remove" then
      if part == "" then Refused(MatchRequired)
      else
        var i := FirstContaining(entries, part);
        if i < 0 then Refused(NoEntryMatched) else Stored(entries[..i] + entries[i + 1..])
    else if action == "read" then Untouched
    else Refused(BadAction)
  }

  function Load(files: Files, path: Path): (entries: seq<string>) {
    if path in files then Parse(files[path]) else []
  }

  datatype Option<T> = None | Some(value: T)

  function Resolve(target: string): Option<Target> {
    var t := ToLower(TrimSpace(target));
    if t == "memory" then Some(MemoryFile) else if t == "user" then Some(UserFile) else None
  }

  /** One call of `Write`, with the user already hashed. */
  datatype Request = Request(user: string, target: string, action: string, content: string, part: string)

  function SnapshotOf(files: Files, user: string): Snapshot {
    Snapshot(Load(files, Path(user, MemoryFile)), Load(files, Path(user, UserFile)))
  }

  function Step(files: Files, limits: Limits, r: Request): (Files, Outcome) {
    match Resolve(r.target)
    case None => (files, Failed(BadTarget))
    case Some(target) =>
      var path := Path(r.user, target);
      match EditOf(Load(files, path), r.action, r.content, r.part, limits.Of(target))
      case Refused(e) => (files, Failed(e))
      case Untouched => (files, Read(SnapshotOf(files, r.user)))
      case Stored(entries) =>
        var files' := files[path := Join(entries)];
        (files', Read(SnapshotOf(files', r.user)))
  }

  function Run(files: Files, limits: Limits, rs: seq<Request>): Files
    decreases |rs|
  {
    if rs == [] then files else Run(Step(files, limits, rs[0]).0, limits, rs[1..])
  }

  predicate WithinLimits(files: Files, limits: Limits) {
    forall path | path in files :: ByteLen(files[path]) <= if path.target == MemoryFile then limits.memory else limits.user
  }

  /** No sequence of calls, whatever the content, takes a file over its limit. */
  lemma {:induction false} RunWithinLimits(files: Files, limits: Limits, rs: seq<Request>)
    requires WithinLimits(files, limits)
    ensures WithinLimits(Run(files, limits, rs), limits)
    decreases |rs|
  {
    if rs != [] {
      StepWithinLimits(files, limits, rs[0]);
      RunWithinLimits(Step(files, limits, rs[0]).0, limits, rs[1..]);
    }
  }

  /** An add or a replace is checked against the limit; a remove needs no check. */
  lemma EditFits(entries: seq<string>, action: string, content: string, part: string, limit: int)
    requires EditOf(entries, action, content, part, limit).Stored?
    ensures var size := ByteLen(Join(EditOf(entries, action, content, part, limit).entries));
            size <= limit || (action == "remove" && size <= ByteLen(Join(entries)))
  {
    if action == "remove" {
      RemoveShrinks(entries, FirstContaining(entries, TrimSpace(part)));
    }
  }

  lemma StepWithinLimits(files: Files, limits: Limits, r: Request)
    requires WithinLimits(files, limits)
    ensures WithinLimits(Step(files, limits, r).0, limits)
  {
    if Resolve(r.target).Some? {
      var path := Path(r.user, Resolve(r.target).value);
      var entries := Load(files, path);
      var limit := limits.Of(path.target);
      if EditOf(entries, r.action, r.content, r.part, limit).Stored? {
        EditFits(entries, r.action, r.content, r.part, limit);
        if path in files {
          ParseShrinks(files[path]);
        }
      }
    }
  }

  /** After an add or a replace that stored a list, the list read back is the intended one iff it is separable. */
  lemma StoredIsReadBack(files: Files, path: Path, action: string, content: string, part: string, limit: int)
    requires EditOf(Load(files, path), action, content, part, limit).Stored?
    ensures var entries := EditOf(Load(files, path), action, content, part, limit).entries;
            Load(files[path := Join(entries)], path) == entries <==> Separable(entries)
  {
    if path in files {
      TidyEntries(Split(TrimSpace(files[path])));
    }
    EditKeepsEntries(Load(files, path), action, content, part, limit);
    RoundTrip(EditOf(Load(files, path), action, content, part, limit).entries);
  }

  lemma EditKeepsEntries(entries: seq<string>, action: string, content: string, part: string, limit: int)
    requires Entries(entries) && EditOf(entries, action, content, part, limit).Stored?
    ensures Entries(EditOf(entries, action, content, part, limit).entries)
  {
    var _, _ := TrimSpaceCuts(content);
    hide TrimSpace;
    hide Contains;
    hide ByteLen;
    hide Join;
    var i := FirstContaining(entries, TrimSpace(part));
    hide FirstContaining;
    if TrimSpace(content) != "" {
      WithEntry(entries, TrimSpace(content), i);
    }
    if i >= 0 {
      WithoutEntry(entries, i);
    }
    hide Entries;
  }

  lemma WithEntry(entries: seq<string>, e: string, i: int)
    requires Entries(entries) && e != "" && Trimmed(e)
    ensures Entries(entries + [e]) && (0 <= i < |entries| ==> Entries(entries[i := e]))
  {
    hide Trimmed;
  }

  lemma WithoutEntry(entries: seq<string>, i: nat)
    requires Entries(entries) && i < |entries|
    ensures Entries(entries[..i] + entries[i + 1..])
  {
    hide Trimmed;
    forall e | e in entries[..i] + entries[i + 1..] ensures e != "" && Trimmed(e) {
      assert e in entries[..i] || e in entries[i + 1..];
      assert e in entries;
    }
  }

  // ---------- what an edit does to the list ----------

  /** The first entry that contains `part`. */
  predicate FirstHit(entries: seq<string>, part: string, i: int) {
    0 <= i < |entries| && Contains(entries[i], part) && forall k | 0 <= k < i :: !Contains(entries[k], part)
  }

  predicate NoHit(entries: seq<string>, part: string) {
    forall k | 0 <= k < |entries| :: !Contains(entries[k], part)
  }

  predicate Fits(entries: seq<string>, limit: int) {
    ByteLen(Join(entries)) <= limit
  }

  predicate Appended(entries: seq<string>, content: string, next: seq<string>) {
    |next| == |entries| + 1 && next[..|entries|] == entries && next[|entries|] == content
  }

  predicate Replaced(entries: seq<string>, i: int, content: string, next: seq<string>) {
    |next| == |entries| && forall k | 0 <= k < |next| :: next[k] == if k == i then content else entries[k]
  }

  predicate Removed(entries: seq<string>, i: int, next: seq<string>) {
    |next| == |entries| - 1 && forall k | 0 <= k < |next| :: next[k] == entries[if k < i then k else k + 1]
  }

  /** A stored add keeps the list and appends the trimmed content; it happens exactly when that is not blank, not there yet
      and fits. Content that is there changes nothing. */
  lemma AddMeans(entries: seq<string>, content: string, part: string, limit: int)
    ensures var edit, c := EditOf(entries, "add", content, part, limit), TrimSpace(content);
            && (edit.Stored? <==> c != "" && c !in entries && Fits(entries + [c], limit))
            && (edit.Stored? ==> Appended(entries, c, edit.entries))
            && (edit.Untouched? <==> c != "" && c in entries)
            && (edit == Refused(ContentRequired) <==> c == "")
            && (edit.Refused? && c != "" ==> edit.error == LimitExceeded)
  {
    hide TrimSpace;
    hide Join;
    hide ByteLen;
    assert (entries + [TrimSpace(content)])[..|entries|] == entries;
  }

  /** A stored replace changes exactly the first entry that contains the trimmed part. */
  lemma ReplaceMeans(entries: seq<string>, content: string, part: string, limit: int)
    ensures var edit, c, p := EditOf(entries, "replace", content, part, limit), TrimSpace(content), TrimSpace(part);
            && (edit.Stored? ==> c != "" && p != "" && exists i :: FirstHit(entries, p, i) && Replaced(entries, i, c, edit.entries))
            && (edit == Refused(NoEntryMatched) <==> c != "" && p != "" && NoHit(entries, p))
            && (edit == Refused(MatchAndContentRequired) <==> c == "" || p == "")
            && (forall i, next | c != "" && p != "" && FirstHit(entries, p, i) && Replaced(entries, i, c, next) ::
                  edit == if Fits(next, limit) then Stored(next) else Refused(LimitExceeded))
  {
    hide TrimSpace;
    hide Join;
    hide ByteLen;
    hide Contains;
    var c, p := TrimSpace(content), TrimSpace(part);
    var i := FirstContaining(entries, p);
    hide FirstContaining;
    if i >= 0 {
      assert FirstHit(entries, p, i) && Replaced(entries, i, c, entries[i := c]);
      forall j, next | FirstHit(entries, p, j) && Replaced(entries, j, c, next) ensures j == i && next == entries[i := c] {
      }
    }
  }

  /** A stored remove drops exactly the first entry that contains the trimmed part and keeps the order of the rest. */
  lemma RemoveMeans(entries: seq<string>, content: string, part: string, limit: int)
    ensures var edit, p := EditOf(entries, "remove", content, part, limit), TrimSpace(part);
            && (edit.Stored? <==> p != "" && !NoHit(entries, p))
            && (edit.Stored? ==> exists i :: FirstHit(entries, p, i) && Removed(entries, i, edit.entries))
            && (edit == Refused(NoEntryMatched) <==> p != "" && NoHit(entries, p))
            && (edit == Refused(MatchRequired) <==> p == "")
  {
    hide TrimSpace;
    hide Contains;
    var p := TrimSpace(part);
    var i := FirstContaining(entries, p);
    hide FirstContaining;
    if i >= 0 {
      assert FirstHit(entries, p, i) && Removed(entries, i, entries[..i] + entries[i + 1..]);
    }
  }

  /** Only `add`, `replace` and `remove` store, only in the file named, and only for that user; each target has its own limit. */
  lemma StepTouches(files: Files, limits: Limits, r: Request)
    ensures var files' := Step(files, limits, r).0;
            && (forall path | path in files :: path in files')
            && (forall path | path in files' && (path !in files || files'[path] != files[path]) ::
                  && path.user == r.user && r.action in ["add", "replace", "remove"]
                  && ToLower(TrimSpace(r.target)) == (if path.target == MemoryFile then "memory" else "user")
                  && EditOf(Load(files, path), r.action, r.content, r.part,
                            if path.target == MemoryFile then limits.memory else limits.user).Stored?)
  {
    hide TrimSpace;
    hide FirstContaining;
    hide Load;
  }

  /** What a request may take out of a list: it replaces or removes, and its part is in the entry. */
  predicate Takes(r: Request, path: Path, e: string) {
    path.user == r.user && r.action in ["replace", "remove"] && Contains(e, TrimSpace(r.part))
  }

  /** The list a request stores, if it stores one, can be read back. */
  predicate StepSeparable(files: Files, limits: Limits, r: Request) {
    match Resolve(r.target)
    case None => true
    case Some(target) =>
      var edit := EditOf(Load(files, Path(r.user, target)), r.action, r.content, r.part, limits.Of(target));
      edit.Stored? ==> Separable(edit.entries)
  }

  predicate RunSeparable(files: Files, limits: Limits, rs: seq<Request>)
    decreases |rs|
  {
    rs == [] || (StepSeparable(files, limits, rs[0]) && RunSeparable(Step(files, limits, rs[0]).0, limits, rs[1..]))
  }

  lemma AppendedKeeps(entries: seq<string>, content: string, next: seq<string>, e: string)
    requires Appended(entries, content, next) && e in entries
    ensures e in next
  {
    var k :| 0 <= k < |entries| && entries[k] == e;
    assert next[..|entries|][k] == next[k];
  }

  lemma ReplacedKeeps(entries: seq<string>, i: int, content: string, next: seq<string>, e: string)
    requires Replaced(entries, i, content, next) && 0 <= i < |entries| && e in entries
    ensures e in next || e == entries[i]
  {
    var k :| 0 <= k < |entries| && entries[k] == e;
    assert next[k] == if k == i then content else entries[k];
  }

  lemma RemovedKeeps(entries: seq<string>, i: int, next: seq<string>, e: string)
    requires Removed(entries, i, next) && 0 <= i < |entries| && e in entries
    ensures e in next || e == entries[i]
  {
    var k :| 0 <= k < |entries| && entries[k] == e;
    if k != i {
      var m := if k < i then k else k - 1;
      assert next[m] == entries[if m < i then m else m + 1];
    }
  }

  lemma EditLoses(entries: seq<string>, r: Request, path: Path, limit: int, e: string)
    requires EditOf(entries, r.action, r.content, r.part, limit).Stored? && path.user == r.user
    requires e in entries && e !in EditOf(entries, r.action, r.content, r.part, limit).entries
    ensures Takes(r, path, e)
  {
    AddMeans(entries, r.content, r.part, limit);
    ReplaceMeans(entries, r.content, r.part, limit);
    RemoveMeans(entries, r.content, r.part, limit);
    var next, c, p := EditOf(entries, r.action, r.content, r.part, limit).entries, TrimSpace(r.content), TrimSpace(r.part);
    assert r.action in ["add", "replace", "remove"];
    hide TrimSpace;
    hide Contains;
    hide EditOf;
    hide Appended;
    hide Replaced;
    hide Removed;
    if r.action == "add" {
      AppendedKeeps(entries, c, next, e);
    } else if r.action == "replace" {
      var i :| FirstHit(entries, p, i) && Replaced(entries, i, c, next);
      ReplacedKeeps(entries, i, c, next, e);
    } else {
      var i :| FirstHit(entries, p, i) && Removed(entries, i, next);
      RemovedKeeps(entries, i, next, e);
    }
  }

  lemma StepLoses(files: Files, limits: Limits, r: Request, path: Path, e: string)
    requires StepSeparable(files, limits, r) && e in Load(files, path) && e !in Load(Step(files, limits, r).0, path)
    ensures Takes(r, path, e)
  {
    hide EditOf;
    hide Separable;
    hide Takes;
    if Resolve(r.target).Some? && path == Path(r.user, Resolve(r.target).value) {
      var entries, limit := Load(files, path), limits.Of(path.target);
      if EditOf(entries, r.action, r.content, r.part, limit).Stored? {
        StoredIsReadBack(files, path, r.action, r.content, r.part, limit);
        EditLoses(entries, r, path, limit, e);
      }
    }
  }

  /** Over any run whose lists stay separable, an entry disappears only by a replace or a remove whose part it contains. */
  lemma {:induction false} LostOnlyByTaking(files: Files, limits: Limits, rs: seq<Request>, path: Path, e: string)
    requires RunSeparable(files, limits, rs) && e in Load(files, path) && e !in Load(Run(files, limits, rs), path)
    ensures exists k | 0 <= k < |rs| :: Takes(rs[k], path, e)
    decreases |rs|
  {
    hide Step;
    hide Load;
    hide StepSeparable;
    hide Takes;
    if e in Load(Step(files, limits, rs[0]).0, path) {
      LostOnlyByTaking(Step(files, limits, rs[0]).0, limits, rs[1..], path, e);
      var k :| 0 <= k < |rs[1..]| && Takes(rs[1..][k], path, e);
      assert Takes(rs[k + 1], path, e);
    } else {
      StepLoses(files, limits, rs[0], path, e);
    }
  }

  class FileProvider {
    var files: Files
    const limits: Limits

    constructor (limits: Limits)
      ensures files == map[] && this.limits == limits
    {
      this.files := map[];
      this.limits := limits;
    }

    method ReadEntries(path: Path) returns (entries: seq<string>)
      ensures entries == Load(files, path)
    {
      entries := [];
      if path !in files {
        return;
      }
      var text := TrimSpace(files[path]);
      if text == "" {
        assert Split(text) == [""];
        return;
      }
      var parts := Split(text);
      for i := 0 to |parts|
        invariant entries + Tidy(parts[i..]) == Tidy(parts)
      {
        var part := TrimSpace(parts[i]);
        assert parts[i..] == [parts[i]] + parts[i + 1..];
        TidyCons(parts[i], parts[i + 1..]);
        if part != "" {
          entries := entries + [part];
        }
      }
    }

    method IndexContaining(values: seq<string>, part: string) returns (index: int)
      ensures index == FirstContaining(values, part)
    {
      for i := 0 to |values|
        invariant forall k | 0 <= k < i :: !Contains(values[k], part)
      {
        if Contains(values[i], part) {
          return i;
        }
      }
      return -1;
    }

    method Write(r: Request) returns (outcome: Outcome)
      modifies this`files
      ensures (files, outcome) == Step(old(files), limits, r)
    {
      var resolved := Resolve(r.target);
      if resolved.None? {
        return Failed(BadTarget);
      }
      var path := Path(r.user, resolved.value);
      var limit := limits.Of(resolved.value);
      var entries := ReadEntries(path);
      var content, part := TrimSpace(r.content), TrimSpace(r.part);
      if r.action == "add" {
        if content == "" {
          return Failed(ContentRequired);
        }
        if content in entries {
          outcome := ReadAll(r.user);
          return;
        }
        var next := entries + [content];
        if ByteLen(Join(next)) > limit {
          return Failed(LimitExceeded);
        }
        entries := next;
      } else if r.action == "replace" {
        if part == "" || content == "" {
          return Failed(MatchAndContentRequired);
        }
        var index := IndexContaining(entries, part);
        if index < 0 {
          return Failed(NoEntryMatched);
        }
        var next := entries[index := content];
        if ByteLen(Join(next)) > limit {
          return Failed(LimitExceeded);
        }
        entries := next;
      } else if r.action == "remove" {
        if part == "" {
          return Failed(MatchRequired);
        }
        var index := IndexContaining(entries, part);
        if index < 0 {
          return Failed(NoEntryMatched);
        }
        entries := entries[..index] + entries[index + 1..];
      } else if r.action == "read" {
        outcome := ReadAll(r.user);
        return;
      } else {
        return Failed(BadAction);
      }
      files := files[path := Join(entries)];
      outcome := ReadAll(r.user);
    }

    method ReadAll(user: string) returns (outcome: Outcome)
      ensures outcome == Read(SnapshotOf(files, user))
      ensures outcome.snapshot.memory == Load(files, Path(user, MemoryFile))
      ensures outcome.snapshot.user == Load(files, Path(user, UserFile))
    {
      var memory := ReadEntries(Path(user, MemoryFile));
      var profile := ReadEntries(Path(user, UserFile));
      return Read(Snapshot(memory, profile));
    }
  }
}
