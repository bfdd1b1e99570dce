/** Persisting a child's trace, and rebuilding from the stored rows the state in which a resumed child starts. */
module Resume {
  import opened Text
  import opened ChildLoop
  import Recent

  // ---------- stored rows ----------

  /** One row of the trace table; text of JSON columns is kept as the value it encodes, output as its text. */
  datatype Row = Row(username: string, parent: int, child: int, taskID: string, iteration: int, kind: StepKind, tool: string,
                     input: Option<Json>, output: string, snapshot: Option<Json>,
                     verified: bool, verifier: string, verificationClass: string, error: string, note: Note)

  function RowOf(w: World, child: int, step: TraceStep): Row {
    Row(w.username, w.parentID, child, w.taskID, step.iteration, step.kind, step.tool,
        if step.input.Some? then Some(Obj(step.input.value)) else None,
        if step.output.Some? then w.render(step.output.value) else "",
        step.snapshot, step.verified, step.verifier, step.verificationClass, step.error, step.note)
  }

  function RowsOf(w: World, child: int, trace: seq<TraceStep>): seq<Row> {
    seq(|trace|, k requires 0 <= k < |trace| => RowOf(w, child, trace[k]))
  }

  function Wanted(username: string, child: int): Row -> bool {
    (row: Row) => (username == "" || row.username == username) && (child <= 0 || row.child == child)
  }

  const ROW_LIMIT: nat := 200

  /** The stored rows of one child in insertion order, at most `limit` of them, from the first on. */
  function ListTraces(table: seq<Row>, username: string, child: int, limit: nat): seq<Row> {
    var rows := Recent.Filter(table, Wanted(username, child));
    if |rows| <= limit then rows else rows[..limit]
  }

  method PersistTrace(table: seq<Row>, w: World, child: int, trace: seq<TraceStep>) returns (table': seq<Row>)
    ensures table' == table + RowsOf(w, child, trace)
  {
    table' := table;
    for k := 0 to |trace|
      invariant table' == table + RowsOf(w, child, trace[..k])
    {
      table' := table' + [RowOf(w, child, trace[k])];
    }
    assert trace[..|trace|] == trace;
  }

  // ---------- decoding ----------

  function StrField(fields: Object, key: string): string {
    if key in fields && fields[key].Str? then fields[key].s else ""
  }

  function DecodeCall(json: Json): seq<ToolCall> {
    if !json.Obj? then []
    else
      var f := if "function" in json.fields && json.fields["function"].Obj? then json.fields["function"].fields else map[];
      [ToolCall(StrField(json.fields, "id"), StrField(json.fields, "type"), StrField(f, "name"), StrField(f, "arguments"))]
  }

  function DecodeCalls(items: seq<Json>): seq<ToolCall> {
    if items == [] then [] else DecodeCall(items[0]) + DecodeCalls(items[1..])
  }

  function DecodeMessage(json: Json): seq<Message> {
    if !json.Obj? then []
    else
      var e := json.fields;
      [Message(StrField(e, "role"), StrField(e, "content"), StrField(e, "name"), StrField(e, "tool_call_id"),
               if "tool_calls" in e && e["tool_calls"].Arr? then DecodeCalls(e["tool_calls"].items) else [])]
  }

  function DecodeMessages(items: seq<Json>): seq<Message> {
    if items == [] then [] else DecodeMessage(items[0]) + DecodeMessages(items[1..])
  }

  function DecodeStrings(items: seq<Json>): seq<string> {
    if items == [] then []
    else (if items[0].Str? && !Blank(items[0].s) then [TrimSpace(items[0].s)] else []) + DecodeStrings(items[1..])
  }

  /** The loop state a snapshot speaks of. */
  datatype View = View(prompt: string, historyLen: int, nextIteration: int, runtime: string,
                       history: seq<Message>, risks: seq<string>)

  function Overlay(view: View, json: Json): View {
    if !json.Obj? then view
    else
      var f := json.fields;
      View(if "current_prompt" in f && f["current_prompt"].Str? then TrimSpace(f["current_prompt"].s) else view.prompt,
           if "history_len" in f && f["history_len"].Num? then f["history_len"].n else view.historyLen,
           if "next_iteration" in f && f["next_iteration"].Num? then f["next_iteration"].n else view.nextIteration,
           if "runtime" in f && f["runtime"].Str? then TrimSpace(f["runtime"].s) else view.runtime,
           if "history" in f && f["history"].Arr? then DecodeMessages(f["history"].items) else view.history,
           if "tool_risks" in f && f["tool_risks"].Arr? then DecodeStrings(f["tool_risks"].items) else view.risks)
  }

  datatype ToolState = ToolState(iteration: int, tool: string, output: string)

  datatype Basis = Basis(lastIteration: int, successfulTool: string, successfulOutput: string,
                         failedTool: string, failedError: string, failedInput: Option<Json>,
                         snapshot: Option<Json>, view: View)

  const NO_VIEW := View("", 0, 0, "", [], [])
  const NO_BASIS := Basis(0, "", "", "", "", None, None, NO_VIEW)

  function BasisStep(b: Basis, row: Row): Basis {
    var b := if row.iteration > b.lastIteration then b.(lastIteration := row.iteration) else b;
    var b := if row.tool != "" && row.error == "" then b.(successfulTool := row.tool, successfulOutput := row.output) else b;
    var b := if row.error == "" then b
             else b.(failedTool := row.tool, failedError := row.error,
                     failedInput := if row.input.Some? && row.input.value.Obj? then row.input else b.failedInput);
    if row.snapshot.Some? && row.snapshot.value.Obj?
    then b.(snapshot := row.snapshot, view := Overlay(b.view, row.snapshot.value))
    else b
  }

  function BasisOf(rows: seq<Row>): Basis {
    if rows == [] then NO_BASIS else BasisStep(BasisOf(rows[..|rows| - 1]), rows[|rows| - 1])
  }

  method DeriveBasis(rows: seq<Row>) returns (basis: Basis)
    ensures basis == BasisOf(rows)
  {
    basis := NO_BASIS;
    for k := 0 to |rows|
      invariant basis == BasisOf(rows[..k])
    {
      var row := rows[k];
      assert rows[..k + 1][..k] == rows[..k];
      if row.iteration > basis.lastIteration {
        basis := basis.(lastIteration := row.iteration);
      }
      if row.tool != "" && row.error == "" {
        basis := basis.(successfulTool := row.tool, successfulOutput := row.output);
      }
      if row.error != "" {
        basis := basis.(failedTool := row.tool, failedError := row.error);
        if row.input.Some? && row.input.value.Obj? {
          basis := basis.(failedInput := row.input);
        }
      }
      if row.snapshot.Some? && row.snapshot.value.Obj? {
        basis := basis.(snapshot := row.snapshot, view := Overlay(basis.view, row.snapshot.value));
      }
    }
    assert rows[..|rows|] == rows;
  }

  predicate Succeeded(row: Row) {
    row.tool != "" && row.error == ""
  }

  /** The basis names the last tool that succeeded, and its output. */
  lemma {:induction false} LastSuccess(rows: seq<Row>, k: nat)
    requires k < |rows| && Succeeded(rows[k]) && forall i | k < i < |rows| :: !Succeeded(rows[i])
    ensures BasisOf(rows).successfulTool == rows[k].tool && BasisOf(rows).successfulOutput == rows[k].output
  {
    hide Overlay;
    if k < |rows| - 1 {
      LastSuccess(rows[..|rows| - 1], k);
    }
  }

  /** It names the last row that failed, its tool and its error. */
  lemma {:induction false} LastFailure(rows: seq<Row>, k: nat)
    requires k < |rows| && rows[k].error != "" && forall i | k < i < |rows| :: rows[i].error == ""
    ensures BasisOf(rows).failedTool == rows[k].tool && BasisOf(rows).failedError == rows[k].error
    ensures rows[k].input.Some? && rows[k].input.value.Obj? ==> BasisOf(rows).failedInput == rows[k].input
  {
    hide Overlay;
    if k < |rows| - 1 {
      LastFailure(rows[..|rows| - 1], k);
    }
  }

  lemma {:induction false} NoSuccess(rows: seq<Row>)
    requires forall k | 0 <= k < |rows| :: !Succeeded(rows[k])
    ensures BasisOf(rows).successfulTool == BasisOf(rows).successfulOutput == ""
  {
    hide Overlay;
    if rows != [] {
      NoSuccess(rows[..|rows| - 1]);
    }
  }

  lemma {:induction false} NoFailure(rows: seq<Row>)
    requires forall k | 0 <= k < |rows| :: rows[k].error == ""
    ensures BasisOf(rows).failedTool == BasisOf(rows).failedError == ""
  {
    hide Overlay;
    if rows != [] {
      NoFailure(rows[..|rows| - 1]);
    }
  }

  /** It names the greatest iteration, at least zero. */
  lemma {:induction false} GreatestIteration(rows: seq<Row>)
    ensures var last := BasisOf(rows).lastIteration;
            last >= 0 && (forall row | row in rows :: row.iteration <= last) && (last > 0 ==> exists row | row in rows :: row.iteration == last)
  {
    hide Overlay;
    if rows != [] {
      var front, row := rows[..|rows| - 1], rows[|rows| - 1];
      GreatestIteration(front);
      assert rows == front + [row] && row in rows;
    }
  }

  function LoopSeed(basis: Basis): Seed {
    Seed(TrimSpace(basis.view.prompt),
         if basis.view.nextIteration <= 0 then basis.lastIteration + 1 else basis.view.nextIteration,
         TrimSpace(basis.view.runtime), basis.view.risks)
  }

  // ---------- recovered tool states and history ----------

  predicate GoodToolRow(row: Row) {
    row.tool != "" && row.error == "" && !Blank(row.output)
  }

  function ToolStatesOf(rows: seq<Row>, limit: int): seq<ToolState> {
    var kept := Recent.LastN(Recent.Filter(rows, GoodToolRow), if limit <= 0 then 3 else limit);
    seq(|kept|, k requires 0 <= k < |kept| => ToolState(kept[k].iteration, kept[k].tool, kept[k].output))
  }

  /** The last three (or `limit`) successful tool rows, oldest first. */
  method CollectToolStates(rows: seq<Row>, limit: int) returns (states: seq<ToolState>)
    ensures states == ToolStatesOf(rows, limit)
    ensures var kept := Recent.LastN(Recent.Filter(rows, GoodToolRow), if limit <= 0 then 3 else limit);
            && |states| == |kept|
            && forall k | 0 <= k < |kept| :: states[k] == ToolState(kept[k].iteration, kept[k].tool, kept[k].output)
  {
    var kept := Recent.ScanBack(rows, GoodToolRow, if limit <= 0 then 3 else limit);
    states := seq(|kept|, k requires 0 <= k < |kept| => ToolState(kept[k].iteration, kept[k].tool, kept[k].output));
  }

  datatype Stored = Stored(role: string, content: string)

  predicate Replayable(m: Stored) {
    (m.role == "assistant" || m.role == "tool") && !Blank(m.content)
  }

  /** Position of the first match of `part`, or -1. */
  function IndexOf(s: string, part: string): (r: int)
    ensures -1 <= r <= |s|
    ensures r >= 0 ==> MatchAt(s, part, r)
    ensures forall k | 0 <= k < (if r < 0 then |s| + 1 else r) :: !MatchAt(s, part, k)
  {
    if |s| < |part| then -1
    else if s[..|part|] == part then 0
    else if s == "" then -1
    else
      var r := IndexOf(s[1..], part);
      assert forall k | 1 <= k :: MatchAt(s, part, k) == MatchAt(s[1..], part, k - 1) by {
        forall k | 1 <= k
          ensures MatchAt(s, part, k) == MatchAt(s[1..], part, k - 1)
        {
          if k + |part| <= |s| {
            assert s[k..k + |part|] == s[1..][k - 1..k - 1 + |part|];
          }
        }
      }
      if r < 0 then -1 else r + 1
  }

  function SplitToolMessage(content: string): (string, string) {
    var r := IndexOf(content, " result: ");
    if r > 0 then (TrimSpace(content[..r]), TrimSpace(content[r + 9..]))
    else
      var e := IndexOf(content, " error: ");
      if e > 0 then (TrimSpace(content[..e]), TrimSpace(content[e + 8..])) else ("", TrimSpace(content))
  }

  function Replay(m: Stored): Message {
    if m.role == "assistant" then Say("assistant", m.content)
    else var (name, content) := SplitToolMessage(m.content); Message("tool", content, name, "", [])
  }

  predicate FirstAt(content: string, part: string, k: nat) {
    MatchAt(content, part, k) && forall j | 0 <= j < k :: !MatchAt(content, part, j)
  }

  /** What stands before the first result marker is the tool's name, what follows it the content. */
  lemma ResultSplits(content: string, k: nat)
    requires k > 0 && FirstAt(content, " result: ", k)
    ensures Replay(Stored("tool", content)) == Message("tool", TrimSpace(content[k + 9..]), TrimSpace(content[..k]), "", [])
  {
    hide TrimSpace;
    assert |" result: "| == 9;
  }

  /** Without one, the same for the first error marker. */
  lemma ErrorSplits(content: string, k: nat)
    requires k > 0 && FirstAt(content, " error: ", k) && forall j :: !MatchAt(content, " result: ", j)
    ensures Replay(Stored("tool", content)) == Message("tool", TrimSpace(content[k + 8..]), TrimSpace(content[..k]), "", [])
  {
    hide TrimSpace;
    assert |" error: "| == 8;
  }

  /** Without either all of it is content; an answer of the model is replayed as it is. */
  lemma OthersReplayed(content: string)
    requires forall j :: !MatchAt(content, " result: ", j) && !MatchAt(content, " error: ", j)
    ensures Replay(Stored("tool", content)) == Message("tool", TrimSpace(content), "", "", [])
  {
    hide TrimSpace;
  }

  lemma NoMatchInName(tool: string, rest: string, part: string)
    requires ' ' !in tool && part != "" && part[0] == ' '
    ensures forall j | 0 <= j < |tool| :: !MatchAt(tool + rest, part, j)
  {
    forall j | 0 <= j < |tool|
      ensures !MatchAt(tool + rest, part, j)
    {
      assert (tool + rest)[j] == tool[j] != ' ';
      if MatchAt(tool + rest, part, j) {
        MatchHead(tool + rest, part, j);
        assert false;
      }
    }
  }

  /** A result stored for a tool whose name has no space is replayed with that name and that output, trimmed. */
  lemma StoredResultReplayed(tool: string, output: string)
    requires tool != "" && ' ' !in tool
    ensures Replay(Stored("tool", tool + " result: " + output)) == Message("tool", TrimSpace(output), TrimSpace(tool), "", [])
  {
    hide TrimSpace;
    var content := tool + " result: " + output;
    NoMatchInName(tool, " result: " + output, " result: ");
    assert content == tool + (" result: " + output);
    assert content[|tool|..|tool| + 9] == " result: ";
    ResultSplits(content, |tool|);
    assert content[..|tool|] == tool && content[|tool| + 9..] == output;
  }

  /** A stored error has result markers only where its text does. */
  lemma ErrorMarkers(tool: string, e: string, j: int)
    requires ' ' !in tool
    ensures MatchAt(tool + " error: " + e, " result: ", j) ==> j >= |tool| + 7
    ensures j >= |tool| + 7 ==> (MatchAt(tool + " error: " + e, " result: ", j) <==> MatchAt(" " + e, " result: ", j - |tool| - 7))
  {
    var head, content := tool + " error:", tool + " error: " + e;
    assert content == head + (" " + e);
    if j >= |head| {
      MatchBehind(head, " " + e, " result: ", j - |head|);
    } else if j >= 0 {
      assert content[j] == if j < |tool| then tool[j] else " error:"[j - |tool|];
      assert content[|tool| + 1] == 'e' && " result: "[1] == 'r';
      assert j + 9 <= |content| ==> content[j..j + 9][1] == content[j + 1];
      if MatchAt(content, " result: ", j) {
        MatchHead(content, " result: ", j);
        assert false;
      }
    }
  }

  lemma MarkedErrorMisread(tool: string, e: string, j: int)
    requires tool != "" && (forall c | c in tool :: !IsSpace(c)) && MatchAt(" " + e, " result: ", j)
    ensures Replay(Stored("tool", tool + " error: " + e)).name != tool
  {
    assert !IsSpace(tool[0]) && !IsSpace(':') && IsSpace(' ');
    hide TrimSpace;
    hide IsSpace;
    hide MatchAt;
    hide IndexOf;
    hide Replay;
    var content := tool + " error: " + e;
    ErrorMarkers(tool, e, |tool| + 7 + j);
    var r := IndexOf(content, " result: ");
    ErrorMarkers(tool, e, r);
    ResultSplits(content, r);
    assert content[..r][|tool| + 6] == ':' && content[..r][0] == tool[0];
    TrimKeepsHead(content[..r], |tool| + 6);
  }

  lemma UnmarkedErrorReplayed(tool: string, e: string)
    requires tool != "" && (forall c | c in tool :: !IsSpace(c)) && forall j :: !MatchAt(" " + e, " result: ", j)
    ensures Replay(Stored("tool", tool + " error: " + e)) == Message("tool", TrimSpace(e), tool, "", [])
  {
    hide TrimSpace;
    var content := tool + " error: " + e;
    assert !IsSpace(tool[0]) && !IsSpace(tool[|tool| - 1]) && IsSpace(' ');
    TrimFixed(tool);
    hide IsSpace;
    hide Replay;
    forall j
      ensures !MatchAt(content, " result: ", j)
    {
      ErrorMarkers(tool, e, j);
    }
    assert content == tool + (" error: " + e);
    NoMatchInName(tool, " error: " + e, " error: ");
    assert content[|tool|..|tool| + 8] == " error: ";
    ErrorSplits(content, |tool|);
    hide MatchAt;
    assert content[..|tool|] == tool && content[|tool| + 8..] == e;
  }

  /** A stored error is replayed with the name of its tool and its text exactly when no result marker stands in that text. */
  lemma StoredErrorReplayedIff(tool: string, e: string)
    requires tool != "" && forall c | c in tool :: !IsSpace(c)
    ensures Replay(Stored("tool", tool + " error: " + e)) == Message("tool", TrimSpace(e), tool, "", [])
            <==> forall j :: !MatchAt(" " + e, " result: ", j)
  {
    hide TrimSpace;
    hide Replay;
    hide MatchAt;
    if j :| MatchAt(" " + e, " result: ", j) {
      MarkedErrorMisread(tool, e, j);
    } else {
      UnmarkedErrorReplayed(tool, e);
    }
  }

  /** An error text that quotes a result is read as one. */
  lemma ErrorReadAsResult()
    ensures Replay(Stored("tool", "t error: no result: x")) != Message("tool", "no result: x", "t", "", [])
  {
    var e := "no result: x";
    assert TrimSpace(e) == e;
    assert (" " + e)[3..12] == " result: ";
    assert MatchAt(" " + e, " result: ", 3);
    assert "t" + " error: " + e == "t error: no result: x";
    StoredErrorReplayedIff("t", e);
  }

  function ReplaysOf(messages: seq<Stored>, limit: int): seq<Message> {
    var kept := Recent.LastN(Recent.Filter(messages, Replayable), if limit <= 0 then 8 else limit);
    seq(|kept|, k requires 0 <= k < |kept| => Replay(kept[k]))
  }

  method HistoryMessages(messages: seq<Stored>, limit: int) returns (history: seq<Message>)
    ensures history == ReplaysOf(messages, limit)
    ensures var kept := Recent.LastN(Recent.Filter(messages, Replayable), if limit <= 0 then 8 else limit);
            |history| == |kept| && forall k | 0 <= k < |kept| :: history[k] == Replay(kept[k])
  {
    var kept := Recent.ScanBack(messages, Replayable, if limit <= 0 then 8 else limit);
    history := seq(|kept|, k requires 0 <= k < |kept| => Replay(kept[k]));
  }

  /** The history a resumed child starts from: the snapshot's, then the recovered outputs; without one the last replayable
      messages; without those the last successful output. */
  function SeedHistoryOf(messages: seq<Stored>, basis: Basis, states: seq<ToolState>): seq<Message> {
    if basis.view.history != [] then basis.view.history + Outputs(states)
    else if ReplaysOf(messages, 8) != [] then ReplaysOf(messages, 8)
    else if basis.successfulTool == "" || Blank(basis.successfulOutput) then []
    else [Message("tool", basis.successfulOutput, basis.successfulTool, "", [])]
  }

  method SeedHistory(messages: seq<Stored>, basis: Basis, states: seq<ToolState>) returns (history: seq<Message>)
    ensures history == SeedHistoryOf(messages, basis, states)
  {
    if basis.view.history != [] {
      history := basis.view.history;
      for k := 0 to |states|
        invariant history == basis.view.history + Outputs(states[..k])
      {
        assert states[..k + 1][..k] == states[..k];
        if states[k].output != "" {
          history := history + [Message("tool", states[k].output, states[k].tool, "", [])];
        }
      }
      assert states[..|states|] == states;
      return;
    }
    history := HistoryMessages(messages, 8);
    if history != [] {
      return;
    }
    if basis.successfulTool == "" || Blank(basis.successfulOutput) {
      return [];
    }
    return [Message("tool", basis.successfulOutput, basis.successfulTool, "", [])];
  }

  function Outputs(states: seq<ToolState>): seq<Message> {
    if states == [] then []
    else
      var last := states[|states| - 1];
      Outputs(states[..|states| - 1]) + if last.output == "" then [] else [Message("tool", last.output, last.tool, "", [])]
  }

  lemma {:induction false} OutputsMean(states: seq<ToolState>)
    requires forall s | s in states :: s.output != ""
    ensures |Outputs(states)| == |states|
    ensures forall k | 0 <= k < |states| :: Outputs(states)[k] == Message("tool", states[k].output, states[k].tool, "", [])
  {
    if states != [] {
      OutputsMean(states[..|states| - 1]);
    }
  }

  /** After the snapshot's history comes one tool message for each recovered row, in order, with its tool and its output. */
  lemma RecoveredMessages(messages: seq<Stored>, basis: Basis, rows: seq<Row>, limit: int)
    requires basis.view.history != []
    ensures var kept := Recent.LastN(Recent.Filter(rows, GoodToolRow), if limit <= 0 then 3 else limit);
            var n, history := |basis.view.history|, SeedHistoryOf(messages, basis, ToolStatesOf(rows, limit));
            && |history| == n + |kept| && history[..n] == basis.view.history
            && forall k | 0 <= k < |kept| :: history[n..][k] == Message("tool", kept[k].output, kept[k].tool, "", [])
  {
    var good := Recent.Filter(rows, GoodToolRow);
    var kept, states := Recent.LastN(good, if limit <= 0 then 3 else limit), ToolStatesOf(rows, limit);
    Recent.FilterKeeps(rows, GoodToolRow);
    forall s | s in states
      ensures s.output != ""
    {
      var k :| 0 <= k < |states| && states[k] == s;
      assert kept[k] in good && s.output == kept[k].output;
    }
    OutputsMean(states);
    assert (basis.view.history + Outputs(states))[|basis.view.history|..] == Outputs(states);
  }

  /** Without a snapshot's history a child starts from replayed messages if there is any to replay, else from the last tool
      that succeeded, unless its output is blank. */
  lemma SeedFallsBack(messages: seq<Stored>, basis: Basis, states: seq<ToolState>)
    requires basis.view.history == []
    ensures var history := SeedHistoryOf(messages, basis, states);
            if exists m :: m in messages && Replayable(m) then history == ReplaysOf(messages, 8) && 0 < |history| <= 8
            else if basis.successfulTool != "" && !Blank(basis.successfulOutput)
            then history == [Message("tool", basis.successfulOutput, basis.successfulTool, "", [])]
            else history == []
  {
    hide Replay;
    hide Replayable;
    hide TrimSpace;
    Recent.FilterKeeps(messages, Replayable);
    var kept := Recent.Filter(messages, Replayable);
    if m :| m in messages && Replayable(m) {
      assert m in kept;
    } else {
      Recent.FilterNone(messages, Replayable);
    }
  }

  // ---------- decoding inverts encoding, up to trimming ----------

  function TrimMessage(m: Message): Message {
    Message(m.role, TrimSpace(m.content), TrimSpace(m.name), TrimSpace(m.toolCallID), m.toolCalls)
  }

  function TrimMessages(ms: seq<Message>): seq<Message> {
    if ms == [] then [] else [TrimMessage(ms[0])] + TrimMessages(ms[1..])
  }

  function TrimStrings(ss: seq<string>): seq<string> {
    if ss == [] then [] else (if Blank(ss[0]) then [] else [TrimSpace(ss[0])]) + TrimStrings(ss[1..])
  }

  /** A loop state, read back: everything trimmed, blank risks dropped, nothing else lost. */
  function ViewOf(runtime: Runtime, iteration: int, st: Loop): View {
    View(TrimSpace(st.prompt), |st.history|, iteration + 1, RuntimeName(runtime), TrimMessages(st.history), TrimStrings(st.risks))
  }

  lemma {:induction false} CallsRoundTrip(cs: seq<ToolCall>)
    ensures DecodeCalls(CallJsons(cs)) == cs
  {
    if cs != [] {
      CallsRoundTrip(cs[1..]);
      CallRoundTrip(cs[0]);
    }
  }

  lemma CallRoundTrip(c: ToolCall)
    ensures DecodeCall(CallJson(c)) == [c]
  {
    assert |"id"| == 2 && |"type"| == 4 && |"function"| == 8 && |"name"| == 4 && |"arguments"| == 9;
  }

  lemma MessageRoundTrip(m: Message)
    ensures DecodeMessage(MessageJson(m)) == [TrimMessage(m)]
  {
    CallsRoundTrip(m.toolCalls);
    MessageFields(m);
  }

  lemma MessageFields(m: Message)
    ensures var e := MessageJson(m).fields;
            && StrField(e, "role") == m.role && StrField(e, "content") == TrimSpace(m.content)
            && StrField(e, "name") == TrimSpace(m.name) && StrField(e, "tool_call_id") == TrimSpace(m.toolCallID)
            && ("tool_calls" in e <==> m.toolCalls != [])
            && (m.toolCalls != [] ==> e["tool_calls"] == Arr(CallJsons(m.toolCalls)))
  {
    hide TrimSpace;
    hide CallJsons;
    assert "role"[0] != "name"[0] && |"content"| == 7 && |"tool_call_id"| == 12 && |"tool_calls"| == 10;
  }

  lemma {:induction false} MessagesRoundTrip(ms: seq<Message>)
    ensures DecodeMessages(MessageJsons(ms)) == TrimMessages(ms)
  {
    if ms != [] {
      MessagesRoundTrip(ms[1..]);
      MessageRoundTrip(ms[0]);
    }
  }

  lemma {:induction false} StringsRoundTrip(ss: seq<string>)
    ensures DecodeStrings(Strings(ss)) == TrimStrings(ss)
  {
    if ss != [] {
      StringsRoundTrip(ss[1..]);
    }
  }

  /** The field names of a snapshot are different strings. */
  lemma SnapshotFields(a: Json, b: Json, c: Json, d: Json, e: Json, f: Json, g: Json, h: Json)
    ensures var m := map["task_id" := a, "current_prompt" := b, "history_len" := c, "history" := d,
                         "allowed_tools" := e, "next_iteration" := f, "runtime" := g, "tool_risks" := h];
            m["current_prompt"] == b && m["history_len"] == c && m["history"] == d
            && m["next_iteration"] == f && m["runtime"] == g && m["tool_risks"] == h
  {
    assert |"task_id"| == |"history"| == |"runtime"| == 7 && |"history_len"| == 11 && |"tool_risks"| == 10;
    assert |"current_prompt"| == |"next_iteration"| == 14 && |"allowed_tools"| == 13;
    assert "task_id"[0] != "history"[0] && "history"[0] != "runtime"[0] && "current_prompt"[0] != "next_iteration"[0];
  }

  /** Overlaying a fresh snapshot yields the loop state, except that no risks leave the old ones standing. */
  lemma SnapshotRoundTrip(w: World, runtime: Runtime, iteration: int, st: Loop, view: View)
    ensures Overlay(view, SnapshotJson(w, runtime, iteration, st)) ==
            ViewOf(runtime, iteration, st).(risks := if st.risks == [] then view.risks else TrimStrings(st.risks))
  {
    SnapshotFields(Str(w.taskID), Str(TrimSpace(st.prompt)), Num(|st.history|), Arr(MessageJsons(st.history)),
                   Arr(Strings(w.allowed)), Num(iteration + 1), Str(TrimSpace(RuntimeName(runtime))), RisksJson(st.risks));
    MessagesRoundTrip(st.history);
    StringsRoundTrip(st.risks);
    TrimTwice(st.prompt);
    RuntimeTrimmed(runtime);
  }

  lemma RuntimeTrimmed(runtime: Runtime)
    ensures TrimSpace(RuntimeName(runtime)) == RuntimeName(runtime)
  {
    TrimFixed(RuntimeName(runtime));
  }
}
