/** Content-Length framing on a tool server's pipes, one character a byte, as in the base protocol of LSP 3.17. */
module Mcp {
  import opened Text
  import Decimal

  datatype Option<T> = None | Some(value: T)

  // ---------- bytes ----------

  predicate Space(c: char) {
    c == ' ' || '\t' <= c <= '\r'
  }

  function TrimFront(s: string): string {
    if s != "" && Space(s[0]) then TrimFront(s[1..]) else s
  }

  function TrimBack(s: string): string {
    if s != "" && Space(s[|s| - 1]) then TrimBack(s[..|s| - 1]) else s
  }

  /** `bytes.TrimSpace` on ASCII white space. */
  function Trim(s: string): string {
    TrimBack(TrimFront(s))
  }

  lemma {:induction false} TrimFrontShrinks(s: string)
    ensures |TrimFront(s)| <= |s| && (|TrimFront(s)| == |s| ==> TrimFront(s) == s && (s == "" || !Space(s[0])))
  {
    if s != "" && Space(s[0]) {
      TrimFrontShrinks(s[1..]);
    }
  }

  lemma {:induction false} TrimBackShrinks(s: string)
    ensures |TrimBack(s)| <= |s| && (|TrimBack(s)| == |s| ==> TrimBack(s) == s && (s == "" || !Space(s[|s| - 1])))
  {
    if s != "" && Space(s[|s| - 1]) {
      TrimBackShrinks(s[..|s| - 1]);
    }
  }

  /** Trimming changes nothing exactly when neither end is white space. */
  lemma TrimIsIdentityIff(s: string)
    ensures Trim(s) == s <==> s == "" || (!Space(s[0]) && !Space(s[|s| - 1]))
  {
    TrimFrontShrinks(s);
    TrimBackShrinks(TrimFront(s));
  }

  // ---------- writing ----------

  const FIELD: string := "Content-Length:"
  const EOL: string := "\r\n"

  function Header(field: string, length: nat): string {
    field + (" " + Decimal.Print(length))
  }

  /** A message with the length field spelled `field`; `send` writes `FIELD`. */
  function FrameAs(field: string, body: string): string {
    Header(field, |body|) + (EOL + (EOL + body))
  }

  function Frame(body: string): string {
    FrameAs(FIELD, body)
  }

  // ---------- reading ----------

  datatype ReadError = UnexpectedEof | NotANumber | InvalidLength | EmptyBody | NotJson

  datatype Outcome = Body(text: string) | Failed(error: ReadError)

  /** What one read returns and what it leaves on the pipe. */
  datatype Read = Read(outcome: Outcome, rest: string)

  function NewLine(s: string): (r: Option<nat>)
    ensures r.Some? ==> r.value < |s| && s[r.value] == '\n'
  {
    if s == "" then None
    else if s[0] == '\n' then Some(0)
    else match NewLine(s[1..]) case None => None case Some(i) => Some(i + 1)
  }

  /** `strings.TrimRight(line, "\r\n")`. */
  function TrimEol(line: string): (r: string)
    ensures r <= line
  {
    if line != "" && line[|line| - 1] in "\r\n" then TrimEol(line[..|line| - 1]) else line
  }

  const LOWER_FIELD: string := "content-length:"

  predicate IsLengthField(line: string) {
    LOWER_FIELD <= ToLower(line)
  }

  /** The prefix test ignores case; the prefix removal does not. */
  function LengthOf(line: string): Option<int> {
    var value := if FIELD <= line then line[|FIELD|..] else line;
    match Decimal.Parse(Trim(value)) case Some(n) => Some(n) case None => None
  }

  datatype Headers = Headers(length: int, rest: string) | HeadersFailed(error: ReadError, rest: string)

  function ReadHeaders(s: string, length: int): Headers
    decreases |s|
  {
    match NewLine(s)
    case None => HeadersFailed(UnexpectedEof, "")
    case Some(i) =>
      var line := TrimEol(s[..i + 1]);
      if line == "" then Headers(length, s[i + 1..])
      else if !IsLengthField(line) then ReadHeaders(s[i + 1..], length)
      else match LengthOf(line)
        case None => HeadersFailed(NotANumber, s[i + 1..])
        case Some(n) => ReadHeaders(s[i + 1..], n)
  }

  /** `isJson` says which bodies decode as a response. */
  function Content(body: string, isJson: string -> bool): Outcome {
    if body == "" then Failed(EmptyBody) else if isJson(body) then Body(body) else Failed(NotJson)
  }

  function ReadBody(s: string, length: int, isJson: string -> bool): Read {
    if length <= 0 then Read(Failed(InvalidLength), s)
    else if |s| < length then Read(Failed(UnexpectedEof), "")
    else Read(Content(Trim(s[..length]), isJson), s[length..])
  }

  function ReadFrame(s: string, isJson: string -> bool): Read {
    match ReadHeaders(s, 0)
    case HeadersFailed(e, rest) => Read(Failed(e), rest)
    case Headers(length, rest) => ReadBody(rest, length, isJson)
  }

  // ---------- one frame ----------

  lemma {:induction false} NewLineAt(line: string, rest: string)
    requires '\n' !in line
    ensures NewLine(line + ("\n" + rest)) == Some(|line|)
  {
    if line == "" {
      assert line + ("\n" + rest) == "\n" + rest;
    } else {
      assert (line + ("\n" + rest))[1..] == line[1..] + ("\n" + rest);
      NewLineAt(line[1..], rest);
    }
  }

  /** A header line ends at its first line feed, and the trailing carriage return goes. */
  lemma LineCut(line: string, rest: string)
    requires '\n' !in line && (line == "" || line[|line| - 1] != '\r')
    ensures var s := line + (EOL + rest);
            && NewLine(s) == Some(|line| + 1)
            && TrimEol(s[..|line| + 2]) == line && s[|line| + 2..] == rest
  {
    var s := line + (EOL + rest);
    NewLineAt(line + "\r", rest);
    assert s == line + "\r" + ("\n" + rest);
    assert s[..|line| + 2] == line + EOL && s[|line| + 2..] == rest;
    assert (line + EOL)[..|line| + 1] == line + "\r" && (line + "\r")[..|line|] == line;
    assert TrimEol(line) == line;
    assert TrimEol(line + "\r") == line;
  }

  predicate OneLine(line: string) {
    line != "" && '\n' !in line && line[|line| - 1] != '\r'
  }

  lemma HeaderConsumed(line: string, rest: string, length: int)
    requires OneLine(line)
    ensures ReadHeaders(line + (EOL + rest), length) ==
            if !IsLengthField(line) then ReadHeaders(rest, length)
            else match LengthOf(line) case None => HeadersFailed(NotANumber, rest) case Some(n) => ReadHeaders(rest, n)
  {
    LineCut(line, rest);
    hide TrimEol;
    hide NewLine;
    hide IsLengthField;
    hide LengthOf;
  }

  lemma HeadersEnd(rest: string, length: int)
    ensures ReadHeaders(EOL + rest, length) == Headers(length, rest)
  {
    LineCut("", rest);
    assert "" + (EOL + rest) == EOL + rest;
    hide TrimEol;
    hide NewLine;
  }

  /** Any other header line before a frame changes nothing. */
  lemma OtherHeadersIgnored(line: string, rest: string, isJson: string -> bool)
    requires OneLine(line) && !IsLengthField(line)
    ensures ReadFrame(line + (EOL + rest), isJson) == ReadFrame(rest, isJson)
  {
    HeaderConsumed(line, rest, 0);
  }

  /** Either spelling of the field is taken for the length; only the exact one has its number read. */
  lemma LengthReadIff(field: string, n: nat)
    requires ToLower(field) == LOWER_FIELD
    ensures IsLengthField(Header(field, n)) && OneLine(Header(field, n))
    ensures LengthOf(Header(field, n)) == if field == FIELD then Some(n) else None
  {
    var digits := Decimal.Print(n);
    var line := Header(field, n);
    assert Decimal.IsDigit(digits[|digits| - 1]) && Decimal.IsDigit(digits[0]);
    assert |field| == |LOWER_FIELD| && line[..|field|] == field;
    forall i | 0 <= i < |field| ensures ToLower(line)[i] == LOWER_FIELD[i] {
      assert ToLower(field)[i] == LOWER_FIELD[i] && line[i] == field[i];
    }
    assert ToLower(line)[..|LOWER_FIELD|] == LOWER_FIELD;
    forall i | 0 <= i < |line| ensures line[i] != '\n' {
      if i < |field| {
        assert ToLower(field)[i] == LOWER_FIELD[i] && LOWER_FIELD[i] != '\n';
      } else if i > |field| {
        assert Decimal.IsDigit(digits[i - |field| - 1]) && line[i] == digits[i - |field| - 1];
      }
    }
    if field == FIELD {
      assert line[|FIELD|..] == " " + digits;
      TrimDigits(digits);
      Decimal.RoundTrip(n);
    } else {
      assert line[..|FIELD|] != FIELD;
      TrimIsIdentityIff(line);
      assert ToLower(field)[0] == 'c';
      NotDecimal(line);
    }
  }

  lemma TrimDigits(digits: string)
    requires Decimal.AllDigits(digits)
    ensures Trim(" " + digits) == digits
  {
    assert Decimal.IsDigit(digits[0]) && Decimal.IsDigit(digits[|digits| - 1]);
    assert (" " + digits)[1..] == digits;
    assert TrimFront(digits) == digits;
  }

  lemma NotDecimal(line: string)
    requires line != "" && line[0] in "cC"
    ensures Decimal.Parse(line) == Decimal.None
  {
    assert !Decimal.IsDigit(line[0]);
  }

  /** Reading a frame consumes exactly the frame, and returns its trimmed body, exactly when the field has the exact
      spelling and the body is JSON and not blank; a differently cased field stops the read after its line. */
  lemma FrameRead(field: string, body: string, tail: string, isJson: string -> bool)
    requires ToLower(field) == LOWER_FIELD
    ensures ReadFrame(FrameAs(field, body) + tail, isJson) ==
            if field != FIELD then Read(Failed(NotANumber), EOL + (body + tail))
            else if body == "" then Read(Failed(InvalidLength), tail)
            else if Trim(body) == "" then Read(Failed(EmptyBody), tail)
            else if !isJson(Trim(body)) then Read(Failed(NotJson), tail)
            else Read(Body(Trim(body)), tail)
  {
    var line := Header(field, |body|);
    LengthReadIff(field, |body|);
    assert FrameAs(field, body) + tail == line + (EOL + (EOL + (body + tail)));
    HeaderConsumed(line, EOL + (body + tail), 0);
    HeadersEnd(body + tail, |body|);
    assert (body + tail)[..|body|] == body && (body + tail)[|body|..] == tail;
    assert body == "" ==> body + tail == tail;
  }

  // ---------- streams of frames ----------

  function Stream(bodies: seq<string>): string {
    if bodies == [] then "" else Frame(bodies[0]) + Stream(bodies[1..])
  }

  /** `n` reads, one after the other. */
  function ReadMany(s: string, n: nat, isJson: string -> bool): (seq<Outcome>, string)
    decreases n
  {
    if n == 0 then ([], s)
    else
      var first := ReadFrame(s, isJson);
      var (more, rest) := ReadMany(first.rest, n - 1, isJson);
      ([first.outcome] + more, rest)
  }

  function OutcomeOf(body: string, isJson: string -> bool): Outcome {
    if body == "" then Failed(InvalidLength) else Content(Trim(body), isJson)
  }

  lemma FieldLower()
    ensures ToLower(FIELD) == LOWER_FIELD
  {
  }

  /** A body that is blank or not JSON costs its own read an error and no more: every other body arrives, in order, and what follows is untouched. */
  lemma {:induction false} StreamRead(bodies: seq<string>, tail: string, isJson: string -> bool)
    ensures ReadMany(Stream(bodies) + tail, |bodies|, isJson)
            == (seq(|bodies|, i requires 0 <= i < |bodies| => OutcomeOf(bodies[i], isJson)), tail)
  {
    hide ReadFrame;
    hide Frame;
    hide OutcomeOf;
    if bodies == [] {
      assert Stream(bodies) + tail == tail;
    } else {
      assert Stream(bodies) + tail == Frame(bodies[0]) + (Stream(bodies[1..]) + tail);
      FrameOutcome(bodies[0], Stream(bodies[1..]) + tail, isJson);
      StreamRead(bodies[1..], tail, isJson);
      assert seq(|bodies|, i requires 0 <= i < |bodies| => OutcomeOf(bodies[i], isJson))
          == [OutcomeOf(bodies[0], isJson)] + seq(|bodies| - 1, i requires 0 <= i < |bodies| - 1 => OutcomeOf(bodies[1..][i], isJson));
    }
  }

  lemma FrameOutcome(body: string, tail: string, isJson: string -> bool)
    ensures ReadFrame(Frame(body) + tail, isJson) == Read(OutcomeOf(body, isJson), tail)
  {
    FieldLower();
    FrameRead(FIELD, body, tail, isJson);
  }

  /** Not empty, no white space at either end, and JSON. */
  predicate Sendable(body: string, isJson: string -> bool) {
    body != "" && !Space(body[0]) && !Space(body[|body| - 1]) && isJson(body)
  }

  /** Every body comes back unchanged exactly when each is sendable. */
  lemma StreamRoundTripsIff(bodies: seq<string>, tail: string, isJson: string -> bool)
    ensures ReadMany(Stream(bodies) + tail, |bodies|, isJson) == (seq(|bodies|, i requires 0 <= i < |bodies| => Body(bodies[i])), tail)
            <==> forall i | 0 <= i < |bodies| :: Sendable(bodies[i], isJson)
  {
    StreamRead(bodies, tail, isJson);
    hide Trim;
    hide OutcomeOf;
    hide Sendable;
    hide ReadMany;
    var got := seq(|bodies|, i requires 0 <= i < |bodies| => OutcomeOf(bodies[i], isJson));
    var sent := seq(|bodies|, i requires 0 <= i < |bodies| => Body(bodies[i]));
    forall i | 0 <= i < |bodies| ensures got[i] == sent[i] <==> Sendable(bodies[i], isJson) {
      SendableIff(bodies[i], isJson);
    }
    if got != sent {
      var i :| 0 <= i < |bodies| && got[i] != sent[i];
    }
  }

  lemma SendableIff(body: string, isJson: string -> bool)
    ensures OutcomeOf(body, isJson) == Body(body) <==> Sendable(body, isJson)
  {
    TrimIsIdentityIff(body);
    hide Trim;
  }

  // ---------- the client ----------

  /** The two pipes of a tool server: what is still to be read, and what has been written. */
  class StdioClient {
    var input: string
    var output: string

    constructor (input: string)
      ensures this.input == input && output == ""
    {
      this.input, output := input, "";
    }

    method Send(body: string)
      modifies this`output
      ensures output == old(output) + Frame(body)
    {
      var frame := FIELD + (" " + Decimal.Print(|body|)) + (EOL + (EOL + body));
      output := output + frame;
    }

    method ReadResponse(isJson: string -> bool) returns (r: Outcome)
      modifies this`input
      ensures Read(r, input) == ReadFrame(old(input), isJson)
    {
      hide TrimEol;
      hide NewLine;
      hide IsLengthField;
      hide LengthOf;
      hide Trim;
      var length := 0;
      while true
        invariant ReadHeaders(input, length) == ReadHeaders(old(input), 0)
        decreases |input|
      {
        var end := NewLine(input);
        if end.None? {
          input := "";
          return Failed(UnexpectedEof);
        }
        var line := TrimEol(input[..end.value + 1]);
        input := input[end.value + 1..];
        if line == "" {
          break;
        }
        if IsLengthField(line) {
          var n := LengthOf(line);
          if n.None? {
            return Failed(NotANumber);
          }
          length := n.value;
        }
      }
      if length <= 0 {
        return Failed(InvalidLength);
      }
      if |input| < length {
        input := "";
        return Failed(UnexpectedEof);
      }
      var body := Trim(input[..length]);
      input := input[length..];
      if body == "" {
        return Failed(EmptyBody);
      }
      r := if isJson(body) then Body(body) else Failed(NotJson);
    }
  }

  // ---------- sorting property names ----------

  predicate Below(low: seq<string>, high: seq<string>) {
    forall a, b | a in low && b in high :: AtMost(a, b)
  }

  predicate Ascending(s: seq<string>) {
    forall i, j | 0 <= i < j < |s| :: AtMost(s[i], s[j])
  }

  /** The same strings, and the same first `i` of them. */
  predicate Rearranged(s: seq<string>, t: seq<string>, i: nat) {
    i <= |s| == |t| && s[..i] == t[..i] && multiset(s) == multiset(t)
  }

  predicate LeastUpTo(s: seq<string>, i: nat, j: nat) {
    i < j <= |s| && forall m | i < m < j :: AtMost(s[i], s[m])
  }

  predicate SortedUpTo(s: seq<string>, i: nat) {
    i <= |s| && Ascending(s[..i]) && Below(s[..i], s[i..])
  }

  method SortStrings(values: array<string>)
    modifies values
    ensures multiset(values[..]) == multiset(old(values[..])) && Ascending(values[..])
  {
    hide SortedUpTo;
    hide LeastUpTo;
    hide Ascending;
    StartSort(values[..]);
    for i := 0 to values.Length
      invariant multiset(values[..]) == multiset(old(values[..])) && SortedUpTo(values[..], i)
    {
      ghost var was := values[..];
      StartLeast(was, i);
      for j := i + 1 to values.Length
        invariant Rearranged(values[..], was, i) && LeastUpTo(values[..], i, j)
      {
        ghost var s := values[..];
        Exchange(s, i, j);
        if Before(values[j], values[i]) {
          values[i], values[j] := values[j], values[i];
          assert values[..] == s[i := s[j]][j := s[i]];
        }
      }
      Extend(was, values[..], i);
    }
    EndSort(values[..]);
  }

  lemma StartSort(s: seq<string>)
    ensures SortedUpTo(s, 0)
  {
    EmptyBelow(s);
  }

  lemma EndSort(s: seq<string>)
    requires SortedUpTo(s, |s|)
    ensures Ascending(s)
  {
    assert s[..|s|] == s;
  }

  lemma StartLeast(s: seq<string>, i: nat)
    requires i < |s|
    ensures LeastUpTo(s, i, i + 1)
  {
  }

  /** Swapping in a smaller string keeps position `i` the least so far. */
  lemma Exchange(s: seq<string>, i: nat, j: nat)
    requires j < |s| && LeastUpTo(s, i, j)
    ensures var t := if Before(s[j], s[i]) then s[i := s[j]][j := s[i]] else s;
            LeastUpTo(t, i, j + 1) && Rearranged(t, s, i)
  {
    hide Before;
    hide AtMost;
    OrderPair(s[i], s[j]);
    if Before(s[j], s[i]) {
      forall m | i < m < j ensures AtMost(s[j], s[m]) {
        AtMostTransitive(s[j], s[i], s[m]);
      }
    }
  }

  /** With the least of the rest at `i`, the sorted part is one longer. */
  lemma Extend(was: seq<string>, now: seq<string>, i: nat)
    requires SortedUpTo(was, i) && Rearranged(now, was, i) && LeastUpTo(now, i, |now|)
    ensures SortedUpTo(now, i + 1)
  {
    hide AtMost;
    hide Below;
    assert was == was[..i] + was[i..] && now == now[..i] + now[i..];
    SameRest(was[..i], was[i..], now[i..]);
    SameElementsBelow(was[..i], was[i..], now[i..]);
    assert now[i..] == [now[i]] + now[i + 1..] && now[..i + 1] == now[..i] + [now[i]];
    LeastBelow(now, i);
    SplitHigh(now[..i], now[i], now[i + 1..]);
  }

  lemma SameRest(low: seq<string>, a: seq<string>, b: seq<string>)
    requires multiset(low + a) == multiset(low + b)
    ensures multiset(a) == multiset(b)
  {
    assert multiset(a) == multiset(low + a) - multiset(low);
    assert multiset(b) == multiset(low + b) - multiset(low);
  }

  lemma LeastBelow(s: seq<string>, i: nat)
    requires i < |s| && LeastUpTo(s, i, |s|)
    ensures Below([s[i]], s[i + 1..])
  {
    hide AtMost;
    forall b | b in s[i + 1..] ensures AtMost(s[i], b) {
      var m :| 0 <= m < |s[i + 1..]| && s[i + 1..][m] == b;
      assert s[i + 1 + m] == b;
    }
  }

  lemma EmptyBelow(high: seq<string>)
    ensures Below([], high)
  {
  }

  lemma SameElementsBelow(low: seq<string>, high: seq<string>, high': seq<string>)
    requires Below(low, high) && multiset(high) == multiset(high')
    ensures Below(low, high')
  {
    hide AtMost;
    forall a, b | a in low && b in high' ensures AtMost(a, b) {
      assert b in multiset(high);
    }
  }

  lemma SplitHigh(low: seq<string>, least: string, rest: seq<string>)
    requires Ascending(low) && Below(low, [least] + rest) && Below([least], rest)
    ensures Ascending(low + [least]) && Below(low + [least], rest)
  {
    hide AtMost;
    assert least in [least] + rest;
    assert forall b | b in rest :: b in [least] + rest;
    forall i, j | 0 <= i < j < |low + [least]| ensures AtMost((low + [least])[i], (low + [least])[j]) {
      assert low[i] in low;
    }
  }

  lemma OrderPair(a: string, b: string)
    ensures if Before(b, a) then AtMost(b, a) else AtMost(a, b)
  {
    BeforeTotal(a, b);
  }
}
