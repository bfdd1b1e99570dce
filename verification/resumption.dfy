/** What a resumed child starts from, and chains of resumes: each run read back by the next. */
module Resumption {
  import opened Text
  import opened ChildLoop
  import opened ChildTask
  import opened Resume
  import opened Recovery
  import Recent

  // ---------- where one resume begins ----------

  /** The rows of a run stored for a fresh child, as a resume reads them. */
  function RowsAfter(table: seq<Row>, w: World, child: int, trace: seq<TraceStep>): seq<Row> {
    ListTraces(table + RowsOf(w, child, trace), w.username, child, ROW_LIMIT)
  }

  predicate ForFreshChild(table: seq<Row>, child: int) {
    child > 0 && forall k | 0 <= k < |table| :: table[k].child != child
  }

  lemma {:induction false} OutputsOfGood(states: seq<ToolState>)
    requires forall k | 0 <= k < |states| :: states[k].output != ""
    ensures |Outputs(states)| == |states|
  {
    if states != [] {
      OutputsOfGood(states[..|states| - 1]);
    }
  }

  /** Outputs are recovered exactly when some row is a successful tool step. */
  lemma RecoveredIff(rows: seq<Row>)
    ensures Outputs(ToolStatesOf(rows, 3)) == [] <==> forall row | row in rows :: !GoodToolRow(row)
  {
    var good := Recent.Filter(rows, GoodToolRow);
    Recent.FilterKeeps(rows, GoodToolRow);
    var kept := Recent.LastN(good, 3);
    forall k | 0 <= k < |kept| ensures kept[k].output != "" {
      assert kept[k] in good;
      NotBlankNotEmpty(kept[k].output);
    }
    OutputsOfGood(ToolStatesOf(rows, 3));
    if good != [] {
      assert good[0] in good;
    }
  }

  lemma NotBlankNotEmpty(s: string)
    requires !Blank(s)
    ensures s != ""
  {
  }

  lemma ReplaysIff(messages: seq<Stored>)
    ensures ReplaysOf(messages, 8) == [] <==> forall m | m in messages :: !Replayable(m)
  {
    var kept := Recent.Filter(messages, Replayable);
    Recent.FilterKeeps(messages, Replayable);
    if kept != [] {
      assert kept[0] in kept;
    }
  }

  lemma {:induction false} TrimmedLength(ms: seq<Message>)
    ensures |TrimMessages(ms)| == |ms|
  {
    if ms != [] {
      TrimmedLength(ms[1..]);
    }
  }

  // ---------- one child and its resume ----------

  /** One child of a chain: what it meets outside, what it is asked, and where its trace is stored. */
  datatype Link = Link(w: World, configured: bool, prompt: string, history: seq<Message>, table: seq<Row>, child: int)

  function Tries(l: Link, seed: Seed): seq<Attempt> {
    Attempts(l.w, l.configured, l.prompt, l.history, seed)
  }

  /** The trace the child stores: its successful loop's, or the stub. */
  function StoredOf(l: Link, seed: Seed): seq<TraceStep> {
    StoredTrace(Tries(l, seed))
  }

  function BasisOfLink(l: Link, seed: Seed): Basis {
    BasisAfter(l.table, l.w, l.child, StoredOf(l, seed))
  }

  /** The seed a resume of this child starts with. */
  function SeedAfter(l: Link, seed: Seed): Seed {
    LoopSeed(BasisOfLink(l, seed))
  }

  /** The loop that decided. */
  function Decider(l: Link, seed: Seed): Attempt
    requires l.configured
  {
    Tries(l, seed)[|Tries(l, seed)| - 1]
  }

  /** The last iteration the deciding loop began, and the state at its top. */
  function TopOf(l: Link, seed: Seed): (int, Loop)
    requires l.configured && Start(seed) <= CAP
  {
    var at := Decider(l, seed);
    LastTop(BodyOf(l.w, at.runtime), Start(seed), Begin(l.prompt, l.history, seed, at.calls))
  }

  lemma DeciderIsTry(l: Link, seed: Seed)
    requires l.configured
    ensures var at := Decider(l, seed);
            && at.result == RunFrom(BodyOf(l.w, at.runtime), Start(seed), Begin(l.prompt, l.history, seed, at.calls))
            && Permitted(l.w, at.calls) && GoodRun(l.w, at.result, Start(seed))
  {
    hide Attempts;
    hide GoodRun;
    hide BodyOf;
    hide RunFrom;
    TaskIsGood(l.w, l.configured, l.prompt, l.history, seed);
    assert Decider(l, seed) in Tries(l, seed);
  }

  lemma StubBasis(table: seq<Row>, w: World, child: int)
    requires ForFreshChild(table, child)
    ensures var b := BasisAfter(table, w, child, [STUB]);
            && b.view == NO_VIEW && b.successfulTool == "" && LoopSeed(b) == Seed("", 2, "", [])
            && forall row | row in RowsAfter(table, w, child, [STUB]) :: !GoodToolRow(row)
    ensures LastSnapshot([STUB]) == -1
  {
    FreshRows(table, w, child, [STUB]);
    var rows := RowsOf(w, child, [STUB]);
    assert rows[..0] == [] && [STUB][..0] == [];
    assert BasisOf(rows) == BasisStep(NO_BASIS, rows[0]);
    assert TrimSpace("") == "";
  }

  lemma EmptyBasis(table: seq<Row>, w: World, child: int)
    requires ForFreshChild(table, child)
    ensures LoopSeed(BasisAfter(table, w, child, [])).nextIteration == 1
  {
    FreshRows(table, w, child, []);
  }

  lemma {:induction false} LastSnapshotBounds(trace: seq<TraceStep>)
    ensures -1 <= LastSnapshot(trace) < |trace|
  {
    if trace != [] && trace[|trace| - 1].snapshot.None? {
      LastSnapshotBounds(trace[..|trace| - 1]);
    }
  }

  /** A resume recovers the state at the top of the last iteration of the child's deciding loop, up to trimming, exactly when
      that loop succeeded and the snapshot of that state is among the first 200 rows. A child without a successful loop
      leaves nothing to recover, however far it came, and is resumed at iteration two. */
  lemma ResumeRecovers(l: Link, seed: Seed)
    requires l.configured && Start(seed) <= CAP && ForFreshChild(l.table, l.child)
    ensures var (i, top) := TopOf(l, seed);
            var runtime, stored := Decider(l, seed).runtime, StoredOf(l, seed);
            && (BasisOfLink(l, seed).view == ViewOf(runtime, i, top)
                && SeedAfter(l, seed) == Seed(TrimSpace(top.prompt), i + 1, RuntimeName(runtime), TrimStrings(top.risks))
                <==> Answered(Tries(l, seed)) && LastSnapshot(stored) < ROW_LIMIT)
            && (!Answered(Tries(l, seed)) ==> BasisOfLink(l, seed).view == NO_VIEW && SeedAfter(l, seed) == Seed("", 2, "", []))
  {
    hide Attempts;
    hide BodyOf;
    hide RunFrom;
    hide LastTop;
    hide BasisAfter;
    hide GoodRun;
    hide TrimSpace;
    hide LastSnapshot;
    var at := Decider(l, seed);
    DeciderIsTry(l, seed);
    if Answered(Tries(l, seed)) {
      TraceRecovers(l.w, at.runtime, Start(seed), Begin(l.prompt, l.history, seed, at.calls), l.table, l.child);
    } else {
      StubBasis(l.table, l.w, l.child);
      assert RuntimeName(at.runtime) != "";
    }
  }

  /** Where a resume of a child begins, against the state at the top of the last iteration of its successful loop. The prompt
      is that state's unless it was blank, which it is after successful tool calls; then the resuming child's own prompt takes
      its place. The history is that state's followed by the outputs of the last successful tools, which that history may
      hold already. After a child without a successful loop prompt and history are those of a new child and its messages. */
  lemma ResumedState(l: Link, seed: Seed, messages: seq<Stored>, prompt: string, calls: seq<Call>)
    requires l.configured && Start(seed) <= CAP && ForFreshChild(l.table, l.child)
    requires Answered(Tries(l, seed)) ==> LastSnapshot(StoredOf(l, seed)) < ROW_LIMIT
    ensures var top, basis := TopOf(l, seed).1, BasisOfLink(l, seed);
            var rows := RowsAfter(l.table, l.w, l.child, StoredOf(l, seed));
            var states := ToolStatesOf(rows, 3);
            var begin := Begin(prompt, SeedHistoryOf(messages, basis, states), SeedAfter(l, seed), calls);
            && begin.trace == []
            && (if Answered(Tries(l, seed)) then
                  && begin.prompt == (if Blank(top.prompt) then prompt else TrimSpace(top.prompt))
                  && (top.history != [] ==> begin.history == TrimMessages(top.history) + Outputs(states))
                  && begin.risks == TrimStrings(top.risks)
                  && (begin.prompt == TrimSpace(top.prompt) <==> !Blank(top.prompt) || prompt == "")
                  && (begin.history == TrimMessages(top.history) <==>
                        if top.history != [] then forall row | row in rows :: !GoodToolRow(row)
                        else (forall m | m in messages :: !Replayable(m))
                             && (basis.successfulTool == "" || Blank(basis.successfulOutput)))
                else begin == Loop(prompt, ReplaysOf(messages, 8), [], [], calls))
  {
    hide TrimSpace;
    hide Outputs;
    hide ToolStatesOf;
    hide ReplaysOf;
    hide GoodToolRow;
    hide Replayable;
    hide TopOf;
    hide BasisAfter;
    hide ListTraces;
    hide Attempts;
    hide LastSnapshot;
    var top := TopOf(l, seed).1;
    var rows := RowsAfter(l.table, l.w, l.child, StoredOf(l, seed));
    ResumeRecovers(l, seed);
    TrimTwice(top.prompt);
    TrimmedLength(top.history);
    RecoveredIff(rows);
    ReplaysIff(messages);
    StubBasis(l.table, l.w, l.child);
    BlankNothing();
    hide RowsAfter;
    assert TrimMessages(top.history) + [] == TrimMessages(top.history);
    var states := ToolStatesOf(rows, 3);
    assert |TrimMessages(top.history) + Outputs(states)| == |TrimMessages(top.history)| + |Outputs(states)|;
  }

  // ---------- two children to show it ----------

  /** A model that calls an allowed tool once and then answers. */
  const ONE_CALL: World := World("u", 1, "task", ["t"],
    (runtime, iteration, history, prompt) => Value(Completion("", if iteration == 1 then [ToolCall("", "", "t", "")] else [])),
    (runtime, iteration) => None, content => None, arguments => Value(map[]), (n, call) => Value(map[]), output => "{}")

  const CALL: ToolCall := ToolCall("", "", "t", "")

  lemma OneCallDone(iteration: int, st: Loop)
    ensures var done := ExecuteCall(ONE_CALL, iteration, CALL, st.calls);
            && done.error == None && done.step.tool == "t" && done.step.error == "" && done.step.output == Some(map[])
            && RunCalls(ONE_CALL, iteration, st, [CALL])
               == Record(st, done).(history := Record(st, done).history + [done.message], prompt := "")
  {
    var done := ExecuteCall(ONE_CALL, iteration, CALL, st.calls);
    assert "t" in ONE_CALL.allowed && done.error.None?;
    assert [CALL][1..] == [];
    var next := Record(st, done).(history := Record(st, done).history + [done.message]);
    assert RunCalls(ONE_CALL, iteration, next, []) == next.(prompt := "");
  }

  lemma OneCallFirst(st: Loop) returns (st2: Loop)
    requires st.trace == []
    ensures BodyOf(ONE_CALL, ToolCalling)(1, st) == Next(st2)
    ensures st2.prompt == "" && st2.history != [] && |st2.trace| == 2
    ensures st2.trace[1].tool == "t" && st2.trace[1].error == "" && st2.trace[1].output == Some(map[])
  {
    var top := Open(ONE_CALL, ToolCalling, 1, st);
    var st1 := top.(history := top.history + [Message("assistant", "", "", "", [CALL])]);
    OneCallDone(1, st1);
    hide ExecuteCall;
    hide Snapshot;
    st2 := RunCalls(ONE_CALL, 1, st1, [CALL]);
    hide RunCalls;
  }

  lemma OneCallSecond(st: Loop)
    ensures var turn := BodyOf(ONE_CALL, ToolCalling)(2, st);
            turn.Stop? && |turn.st.trace| == |st.trace| + 2 && st.trace <= turn.st.trace
  {
    hide Snapshot;
  }

  lemma OneCallTrace() returns (trace: seq<TraceStep>)
    ensures var st, body := Begin("p", [], FRESH, []), BodyOf(ONE_CALL, ToolCalling);
            && RunFrom(body, 1, st).Completed? && trace == RunFrom(body, 1, st).st.trace && |trace| == 4
            && LastTop(body, 1, st).0 == 2 && LastTop(body, 1, st).1.prompt == "" && LastTop(body, 1, st).1.history != []
            && trace[1].tool == "t" && trace[1].error == "" && trace[1].output == Some(map[])
  {
    hide BodyOf;
    var body, st := BodyOf(ONE_CALL, ToolCalling), Begin("p", [], FRESH, []);
    var st2 := OneCallFirst(st);
    OneCallSecond(st2);
    trace := body(2, st2).st.trace;
    assert RunFrom(body, 1, st) == RunFrom(body, 2, st2);
    assert LastTop(body, 1, st) == LastTop(body, 2, st2);
  }

  const ONE_LINK := Link(ONE_CALL, true, "p", [], [], 1)

  lemma OneCallTries()
    ensures Tries(ONE_LINK, FRESH) == [Try(ONE_CALL, ToolCalling, "p", [], FRESH, [])] && Answered(Tries(ONE_LINK, FRESH))
  {
    var _ := OneCallTrace();
    hide BodyOf;
    hide RunFrom;
    assert TrimSpace("") == "";
  }

  /** A resume that starts from another prompt and a longer history than the state it recovers. */
  lemma ResumeRepeatsOutputs(prompt: string)
    requires prompt != ""
    ensures var top, basis := TopOf(ONE_LINK, FRESH).1, BasisOfLink(ONE_LINK, FRESH);
            var rows := RowsAfter([], ONE_CALL, 1, StoredOf(ONE_LINK, FRESH));
            var begin := Begin(prompt, SeedHistoryOf([], basis, ToolStatesOf(rows, 3)), SeedAfter(ONE_LINK, FRESH), []);
            begin.prompt != TrimSpace(top.prompt) && begin.history != TrimMessages(top.history)
  {
    hide BodyOf;
    hide RunFrom;
    hide LastTop;
    hide SeedHistoryOf;
    hide ToolStatesOf;
    hide BasisAfter;
    hide RowsAfter;
    hide LastSnapshot;
    hide GoodToolRow;
    hide Begin;
    hide LoopSeed;
    hide TrimMessages;
    hide Attempts;
    BlankNothing();
    hide TrimSpace;
    var trace := OneCallTrace();
    OneCallTries();
    LastSnapshotBounds(trace);
    ResumedState(ONE_LINK, FRESH, [], prompt, []);
    GoodRow(ONE_CALL, 1, trace, 1);
  }

  lemma BlankNothing()
    ensures Blank("") && !Blank("{}") && ONE_CALL.render(map[]) == "{}"
  {
    NotBlankStart("{}");
  }

  /** A successful tool step with visible output becomes such a row. */
  lemma GoodRow(w: World, child: int, trace: seq<TraceStep>, k: nat)
    requires child > 0 && k < |trace| <= ROW_LIMIT
    requires trace[k].tool != "" && trace[k].error == "" && trace[k].output.Some? && !Blank(w.render(trace[k].output.value))
    ensures exists row | row in RowsAfter([], w, child, trace) :: GoodToolRow(row)
  {
    FreshRows([], w, child, trace);
    assert [] + RowsOf(w, child, trace) == RowsOf(w, child, trace);
    assert RowsOf(w, child, trace)[k] in RowsAfter([], w, child, trace);
  }

  // ---------- where resumes start, over chains of them ----------

  /** The seed of the child at position `k`, each earlier one resumed by the next. */
  function SeedAt(links: seq<Link>, seed: Seed, k: nat): Seed
    requires k <= |links|
  {
    if k == 0 then seed else SeedAfter(links[k - 1], SeedAt(links, seed, k - 1))
  }

  predicate Linkable(l: Link) {
    l.configured && ForFreshChild(l.table, l.child)
  }

  predicate Linked(links: seq<Link>) {
    forall k | 0 <= k < |links| :: Linkable(links[k])
  }

  lemma NextStartWithin(l: Link, seed: Seed)
    requires ForFreshChild(l.table, l.child) && Start(seed) <= CAP && Answered(Tries(l, seed))
    ensures var a, b, stored, last := Start(seed), Start(SeedAfter(l, seed)), StoredOf(l, seed), TopOf(l, seed).0;
            && LastSnapshot(stored) >= 0 && a < b <= last + 1 <= CAP + 1
            && (b == last + 1 <==> LastSnapshot(stored) < ROW_LIMIT)
  {
    hide Attempts;
    hide BodyOf;
    hide RunFrom;
    hide LastTop;
    hide BasisAfter;
    hide GoodRun;
    hide Blank;
    hide LoopSeed;
    hide LastSnapshot;
    var at := Decider(l, seed);
    DeciderIsTry(l, seed);
    TraceResumesLater(l.w, at.runtime, Start(seed), Begin(l.prompt, l.history, seed, at.calls), l.table, l.child);
  }

  /** The next start: two after a child without a successful loop; one after one that started beyond the cap; else later than
      this child's, and just after the last iteration of its successful loop exactly when the last snapshot is read back. */
  lemma NextStart(l: Link, seed: Seed)
    requires ForFreshChild(l.table, l.child)
    ensures var a, b, stored := Start(seed), Start(SeedAfter(l, seed)), StoredOf(l, seed);
            && (LastSnapshot(stored) >= 0 <==> Answered(Tries(l, seed)) && a <= CAP)
            && (if !Answered(Tries(l, seed)) then b == 2
                else if a > CAP then stored == [] && b == 1
                else
                  var last := TopOf(l, seed).0;
                  a < b <= last + 1 <= CAP + 1 && (b == last + 1 <==> LastSnapshot(stored) < ROW_LIMIT))
  {
    hide Attempts;
    hide BasisAfter;
    hide TopOf;
    hide Blank;
    if !Answered(Tries(l, seed)) {
      StubBasis(l.table, l.w, l.child);
    } else if Start(seed) <= CAP {
      NextStartWithin(l, seed);
    } else {
      DeciderIsTry(l, seed);
      EmptyBasis(l.table, l.w, l.child);
    }
  }

  /** Over any chain of resumes the start rises from one child to the next exactly when the child's loop succeeded and began
      within the cap, or no loop of it succeeded and it began at one; it never passes five by rising. */
  lemma StartsRise(links: seq<Link>, seed: Seed, k: nat)
    requires Linked(links) && k < |links|
    ensures var a, b := Start(SeedAt(links, seed, k)), Start(SeedAt(links, seed, k + 1));
            && (a < b <==> if Answered(Tries(links[k], SeedAt(links, seed, k))) then a <= CAP else a == 1)
            && (a < b ==> b <= CAP + 1) && (a >= b ==> b <= 2)
  {
    hide Tries;
    hide StoredOf;
    hide SeedAfter;
    hide LastSnapshot;
    NextStart(links[k], SeedAt(links, seed, k));
  }

  /** At most four children in a row store a snapshot. */
  lemma {:induction false} AtMostFourInARow(links: seq<Link>, seed: Seed, k: nat)
    requires Linked(links) && k <= |links|
    requires forall j | 0 <= j < k :: LastSnapshot(StoredOf(links[j], SeedAt(links, seed, j))) >= 0
    ensures Start(seed) + k <= Start(SeedAt(links, seed, k)) && (k > 0 ==> Start(SeedAt(links, seed, k)) <= CAP + 1)
    ensures k <= CAP
  {
    hide Tries;
    hide StoredOf;
    hide SeedAfter;
    hide LastSnapshot;
    hide Linked;
    if k > 0 {
      AtMostFourInARow(links, seed, k - 1);
      NextStartOf(links, seed, k - 1);
    }
  }

  lemma NextStartOf(links: seq<Link>, seed: Seed, k: nat)
    requires Linked(links) && k < |links| && LastSnapshot(StoredOf(links[k], SeedAt(links, seed, k))) >= 0
    ensures Start(SeedAt(links, seed, k)) < Start(SeedAt(links, seed, k + 1)) <= CAP + 1
  {
    hide Tries;
    hide StoredOf;
    hide SeedAfter;
    hide LastSnapshot;
    NextStart(links[k], SeedAt(links, seed, k));
  }

  // ---------- the iterations a child runs ----------

  /** The last step of a run is of the last iteration it began. */
  lemma {:induction false} EndsAtLastTop(w: World, body: Body, from: int, iteration: int, st: Loop)
    requires GoodBody(w, body) && Underway(st.trace, from, iteration) && iteration <= CAP
    ensures LastIs(RunFrom(body, iteration, st).st.trace, LastTop(body, iteration, st).0)
    decreases CAP - iteration
  {
    hide Permitted;
    hide ChildLoop.Chain;
    var turn := body(iteration, st);
    assert TurnGood(w, from, iteration, st, turn);
    if turn.Next? && iteration < CAP {
      EndsAtLastTop(w, body, from, iteration + 1, turn.st);
    }
  }

  /** Every step taken by the loops of a child, stored or not. */
  function Taken(tries: seq<Attempt>): seq<TraceStep> {
    if tries == [] then [] else tries[0].result.st.trace + Taken(tries[1..])
  }

  function LastOf(at: Attempt): int {
    var trace := at.result.st.trace;
    if trace == [] then 0 else trace[|trace| - 1].iteration
  }

  /** The latest iteration any loop of a child reached; none is 0. */
  function Reach(tries: seq<Attempt>): int {
    if tries == [] then 0 else if LastOf(tries[0]) > Reach(tries[1..]) then LastOf(tries[0]) else Reach(tries[1..])
  }

  /** The steps of a loop that ran run over every iteration from its start to its last. */
  predicate Spans(at: Attempt, from: int) {
    && (forall step | step in at.result.st.trace :: from <= step.iteration <= LastOf(at))
    && (forall k | from <= k <= LastOf(at) :: Began(at.result.st.trace, k))
    && from <= LastOf(at) <= CAP
  }

  predicate Began(trace: seq<TraceStep>, k: int) {
    exists step | step in trace :: step.iteration == k
  }

  lemma {:induction false} ChainCovers(trace: seq<TraceStep>, from: int, k: int)
    requires ChildLoop.Chain(trace, from) && trace != [] && from <= k <= trace[|trace| - 1].iteration
    ensures Began(trace, k)
  {
    var last := trace[|trace| - 1];
    if k == last.iteration {
      assert last in trace;
    } else {
      var front := trace[..|trace| - 1];
      assert ChildLoop.Succeeds(trace[|trace| - 2], last);
      assert forall i | 0 <= i < |front| :: front[i] == trace[i];
      ChainCovers(front, from, k);
      var step :| step in front && step.iteration == k;
      assert step in trace;
    }
  }

  /** Each loop of a child spans the iterations from the seed's start to the last it began; beyond the cap there is one loop,
      which runs none. */
  lemma TriesSpan(l: Link, seed: Seed)
    ensures Start(seed) <= CAP ==> forall at | at in Tries(l, seed) :: Spans(at, Start(seed))
    ensures Start(seed) > CAP ==> Taken(Tries(l, seed)) == [] && Reach(Tries(l, seed)) == 0 && (l.configured ==> Answered(Tries(l, seed)))
    ensures l.configured && Start(seed) <= CAP ==> LastOf(Decider(l, seed)) == TopOf(l, seed).0
  {
    hide BodyOf;
    hide GoodRun;
    TaskIsGood(l.w, l.configured, l.prompt, l.history, seed);
    if Start(seed) <= CAP {
      hide RunFrom;
      hide Attempts;
      forall at | at in Tries(l, seed)
        ensures Spans(at, Start(seed))
        ensures LastOf(at) == LastTop(BodyOf(l.w, at.runtime), Start(seed), Begin(l.prompt, l.history, seed, at.calls)).0
      {
        TrySpans(l, seed, at);
      }
      if l.configured {
        assert Decider(l, seed) in Tries(l, seed);
      }
    } else {
      assert Taken([]) == [] && Reach([]) == 0;
    }
  }

  lemma TrySpans(l: Link, seed: Seed, at: Attempt)
    requires Start(seed) <= CAP && IsTry(l.w, l.prompt, l.history, seed, at) && GoodRun(l.w, at.result, Start(seed))
    ensures Spans(at, Start(seed))
    ensures LastOf(at) == LastTop(BodyOf(l.w, at.runtime), Start(seed), Begin(l.prompt, l.history, seed, at.calls)).0
  {
    hide BodyOf;
    hide RunFrom;
    var body, st, trace := BodyOf(l.w, at.runtime), Begin(l.prompt, l.history, seed, at.calls), at.result.st.trace;
    BodyIsGood(l.w, at.runtime);
    EndsAtLastTop(l.w, body, Start(seed), Start(seed), st);
    ChainBounds(trace, Start(seed));
    assert trace[|trace| - 1] in trace;
    forall k | Start(seed) <= k <= LastOf(at) ensures Began(trace, k) {
      ChainCovers(trace, Start(seed), k);
    }
  }

  /** An iteration runs twice within one child exactly when a failed tool-calling loop and the JSON loop after it, which starts
      over, both reached it. */
  lemma TwiceWithinIff(l: Link, seed: Seed, k: int)
    requires Start(seed) <= CAP
    ensures var tries := Tries(l, seed);
            (exists i, j | 0 <= i < j < |tries| :: Began(tries[i].result.st.trace, k) && Began(tries[j].result.st.trace, k))
            <==> |tries| == 2 && Start(seed) <= k <= LastOf(tries[0]) && k <= LastOf(tries[1])
  {
    hide Attempts;
    hide Began;
    hide LastOf;
    hide Spans;
    TriesSpan(l, seed);
    TwiceOf(Tries(l, seed), Start(seed), k);
  }

  lemma TwiceOf(tries: seq<Attempt>, from: int, k: int)
    requires |tries| <= 2 && forall at | at in tries :: Spans(at, from)
    ensures (exists i, j | 0 <= i < j < |tries| :: Began(tries[i].result.st.trace, k) && Began(tries[j].result.st.trace, k))
            <==> |tries| == 2 && from <= k <= LastOf(tries[0]) && k <= LastOf(tries[1])
  {
    hide Began;
    hide LastOf;
    hide Spans;
    if |tries| == 2 {
      assert tries[0] in tries && tries[1] in tries;
      SpansBegan(tries[0], from, k);
      SpansBegan(tries[1], from, k);
      if from <= k <= LastOf(tries[0]) && k <= LastOf(tries[1]) {
        assert Began(tries[0].result.st.trace, k) && Began(tries[1].result.st.trace, k);
      }
    }
  }

  lemma SpansBegan(at: Attempt, from: int, k: int)
    requires Spans(at, from)
    ensures Began(at.result.st.trace, k) <==> from <= k <= LastOf(at)
  {
    hide LastOf;
  }

  lemma {:induction false} TakenReach(tries: seq<Attempt>, from: int)
    requires from >= 1 && forall at | at in tries :: Spans(at, from)
    ensures forall step | step in Taken(tries) :: from <= step.iteration <= Reach(tries)
    ensures tries != [] ==> from <= Reach(tries) <= CAP && Began(Taken(tries), from) && Began(Taken(tries), Reach(tries))
    ensures forall at | at in tries :: LastOf(at) <= Reach(tries)
  {
    if tries != [] {
      var first, rest := tries[0].result.st.trace, tries[1..];
      assert tries[0] in tries && forall at | at in rest :: at in tries;
      hide Spans;
      TakenReach(rest, from);
      SpansEnds(tries[0], from);
      BeganIn(first, Taken(rest), from);
      BeganIn(first, Taken(rest), Reach(tries));
      assert forall at | at in tries :: at == tries[0] || at in rest;
    }
  }

  lemma SpansEnds(at: Attempt, from: int)
    requires Spans(at, from)
    ensures Began(at.result.st.trace, from) && Began(at.result.st.trace, LastOf(at)) && from <= LastOf(at) <= CAP && 0 <= CAP
    ensures forall step | step in at.result.st.trace :: from <= step.iteration <= LastOf(at)
  {
  }

  lemma BeganIn(a: seq<TraceStep>, b: seq<TraceStep>, k: int)
    ensures Began(a, k) || Began(b, k) ==> Began(a + b, k)
  {
    if Began(a, k) {
      var step :| step in a && step.iteration == k;
      assert step in a + b;
    }
    if Began(b, k) {
      var step :| step in b && step.iteration == k;
      assert step in a + b;
    }
  }

  // ---------- which iterations run again ----------

  predicate Before(a: seq<TraceStep>, b: seq<TraceStep>) {
    forall s, t | s in a && t in b :: s.iteration < t.iteration
  }

  lemma BeforeIff(l: Link, seed: Seed, next: Link, seed': Seed)
    requires l.configured && next.configured && Start(seed) <= CAP
    ensures Before(Taken(Tries(l, seed)), Taken(Tries(next, seed')))
            <==> Reach(Tries(l, seed)) < Start(seed') || Start(seed') > CAP
  {
    hide Attempts;
    hide Spans;
    hide Taken;
    hide Reach;
    TriesSpan(l, seed);
    TriesSpan(next, seed');
    TakenReach(Tries(l, seed), Start(seed));
    if Start(seed') <= CAP {
      TakenReach(Tries(next, seed'), Start(seed'));
    }
  }

  /** A child after which a resume goes on rather than back. Its loop succeeded, within the cap, its last snapshot is read
      back, and no failed loop before went further; or no loop succeeded, but none went beyond iteration one either. */
  predicate Forward(l: Link, seed: Seed) {
    var tries := Tries(l, seed);
    if Answered(tries) then
      Start(seed) <= CAP && LastSnapshot(StoredOf(l, seed)) < ROW_LIMIT && Reach(tries) == LastOf(tries[|tries| - 1])
    else Reach(tries) <= 1
  }

  /** After a forward child, and of those within the cap after no other, the next start is later than all it did. */
  lemma ForwardIff(l: Link, seed: Seed)
    requires l.configured && ForFreshChild(l.table, l.child)
    ensures Forward(l, seed) ==> Start(seed) <= Reach(Tries(l, seed)) < Start(SeedAfter(l, seed)) && Start(seed) <= CAP
    ensures Start(seed) <= CAP ==>
              (Forward(l, seed) <==> Reach(Tries(l, seed)) < Start(SeedAfter(l, seed)) || Start(SeedAfter(l, seed)) > CAP)
  {
    hide Attempts;
    hide Spans;
    hide Taken;
    hide Reach;
    hide BodyOf;
    hide SeedAfter;
    hide LastSnapshot;
    NextStart(l, seed);
    TriesSpan(l, seed);
    if Start(seed) <= CAP {
      TakenReach(Tries(l, seed), Start(seed));
      assert Decider(l, seed) in Tries(l, seed);
    }
  }

  /** A resume runs no iteration again that the child it resumes has run exactly when that child was forward. */
  lemma NoRepeatIff(l: Link, seed: Seed, next: Link)
    requires Linkable(l) && Linkable(next) && Start(seed) <= CAP
    ensures Before(Taken(Tries(l, seed)), Taken(Tries(next, SeedAfter(l, seed)))) <==> Forward(l, seed)
  {
    hide Attempts;
    hide SeedAfter;
    hide Forward;
    ForwardIff(l, seed);
    BeforeIff(l, seed, next, SeedAfter(l, seed));
  }

  /** Every child of the chain runs only later iterations than the children before it. */
  ghost predicate NoneTwice(links: seq<Link>, seed: Seed) {
    forall i, j | 0 <= i < j < |links| ::
      Before(Taken(Tries(links[i], SeedAt(links, seed, i))), Taken(Tries(links[j], SeedAt(links, seed, j))))
  }

  ghost predicate AllForward(links: seq<Link>, seed: Seed) {
    forall k | 0 <= k < |links| - 1 :: Forward(links[k], SeedAt(links, seed, k))
  }

  lemma {:induction false} ForwardChain(links: seq<Link>, seed: Seed, i: nat, j: nat)
    requires Linked(links) && AllForward(links, seed) && i <= j < |links|
    ensures Start(SeedAt(links, seed, i)) <= Start(SeedAt(links, seed, j))
    decreases j - i
  {
    hide AllForward;
    hide Linked;
    hide SeedAfter;
    if i < j {
      ForwardRises(links, seed, j - 1);
      ForwardChain(links, seed, i, j - 1);
    }
  }

  lemma ForwardRises(links: seq<Link>, seed: Seed, k: nat)
    requires Linked(links) && AllForward(links, seed) && k < |links| - 1
    ensures var tries := Tries(links[k], SeedAt(links, seed, k));
            Start(SeedAt(links, seed, k)) <= Reach(tries) < Start(SeedAt(links, seed, k + 1))
            && Start(SeedAt(links, seed, k)) <= CAP && links[k].configured && links[k + 1].configured
  {
    hide Forward;
    hide SeedAfter;
    hide Tries;
    hide Reach;
    hide ForFreshChild;
    assert Linkable(links[k]) && Linkable(links[k + 1]) && Forward(links[k], SeedAt(links, seed, k));
    ForwardIff(links[k], SeedAt(links, seed, k));
  }

  /** Over a chain of resumes that starts within the cap, no child runs an iteration an earlier one has run exactly when every
      child but the last is forward. */
  lemma NoIterationTwiceIff(links: seq<Link>, seed: Seed)
    requires Linked(links) && Start(seed) <= CAP
    ensures NoneTwice(links, seed) <==> AllForward(links, seed)
  {
    hide Forward;
    hide Before;
    hide Taken;
    hide Tries;
    hide SeedAt;
    if AllForward(links, seed) {
      forall i, j | 0 <= i < j < |links|
        ensures Before(Taken(Tries(links[i], SeedAt(links, seed, i))), Taken(Tries(links[j], SeedAt(links, seed, j))))
      {
        ForwardApart(links, seed, i, j);
      }
    }
    if NoneTwice(links, seed) && |links| > 0 {
      ForwardUpTo(links, seed, |links| - 1);
    }
  }

  lemma ForwardApart(links: seq<Link>, seed: Seed, i: nat, j: nat)
    requires Linked(links) && i < j < |links| && AllForward(links, seed)
    ensures Before(Taken(Tries(links[i], SeedAt(links, seed, i))), Taken(Tries(links[j], SeedAt(links, seed, j))))
  {
    hide Before;
    hide Taken;
    hide Tries;
    hide Reach;
    hide SeedAt;
    hide AllForward;
    ForwardRises(links, seed, i);
    ForwardChain(links, seed, i + 1, j);
    assert Linkable(links[j]);
    hide Linked;
    BeforeIff(links[i], SeedAt(links, seed, i), links[j], SeedAt(links, seed, j));
  }

  lemma {:induction false} ForwardUpTo(links: seq<Link>, seed: Seed, n: nat)
    requires Linked(links) && Start(seed) <= CAP && NoneTwice(links, seed) && n < |links|
    ensures forall k | 0 <= k < n :: Forward(links[k], SeedAt(links, seed, k))
  {
    hide Forward;
    hide Before;
    hide Taken;
    hide Tries;
    hide SeedAfter;
    hide Reach;
    if n > 0 {
      ForwardUpTo(links, seed, n - 1);
      var k := n - 1;
      var at := SeedAt(links, seed, k);
      assert SeedAt(links, seed, n) == SeedAfter(links[k], at);
      assert Before(Taken(Tries(links[k], at)), Taken(Tries(links[n], SeedAfter(links[k], at))));
      if Start(at) <= CAP {
        NoRepeatIff(links[k], at, links[n]);
      } else {
        assert k > 0;
        Restarts(links, seed, k);
      }
    }
  }

  /** A child that starts beyond the cap makes the next start over at one, where the first of the chain has been. */
  lemma Restarts(links: seq<Link>, seed: Seed, k: nat)
    requires Linked(links) && Start(seed) <= CAP && 0 < k < |links| - 1 && Start(SeedAt(links, seed, k)) > CAP
    ensures !NoneTwice(links, seed)
  {
    hide Before;
    hide Taken;
    hide Tries;
    hide SeedAfter;
    hide Reach;
    hide LastSnapshot;
    var at := SeedAt(links, seed, k);
    assert SeedAt(links, seed, k + 1) == SeedAfter(links[k], at) && SeedAt(links, seed, 0) == seed;
    NextStart(links[k], at);
    TriesSpan(links[k], at);
    TriesSpan(links[0], seed);
    BeforeIff(links[0], seed, links[k + 1], SeedAfter(links[k], at));
    ReachFromStart(links[0], seed);
    assert !Before(Taken(Tries(links[0], SeedAt(links, seed, 0))), Taken(Tries(links[k + 1], SeedAt(links, seed, k + 1))));
  }

  lemma ReachFromStart(l: Link, seed: Seed)
    requires l.configured && Start(seed) <= CAP
    ensures Start(seed) <= Reach(Tries(l, seed)) <= CAP
  {
    hide Attempts;
    hide Spans;
    hide Taken;
    hide Reach;
    TriesSpan(l, seed);
    TakenReach(Tries(l, seed), Start(seed));
  }

  /** A resume runs only iterations from its start, within the cap; when the child it resumes succeeded and its last snapshot
      is read back, only those after the last one of the loop that succeeded, and none if that was capped. */
  lemma ResumedRunContinues(l: Link, seed: Seed, next: Link)
    requires Linkable(l) && Linkable(next) && Start(seed) <= CAP
    ensures var b, again := Start(SeedAfter(l, seed)), Tries(next, SeedAfter(l, seed));
            && (forall step | step in Taken(again) :: b <= step.iteration <= CAP)
            && (forall at | at in again :: GoodRun(next.w, at.result, b))
            && (Answered(Tries(l, seed)) && LastSnapshot(StoredOf(l, seed)) < ROW_LIMIT ==> b == TopOf(l, seed).0 + 1)
            && (b > CAP ==> Answered(again) && Taken(again) == [])
            && (!Answered(Tries(l, seed)) ==> b == 2)
  {
    hide Attempts;
    hide Spans;
    hide Taken;
    hide Reach;
    hide GoodRun;
    hide TopOf;
    hide SeedAfter;
    hide LastSnapshot;
    NextStart(l, seed);
    var seed' := SeedAfter(l, seed);
    TaskIsGood(next.w, next.configured, next.prompt, next.history, seed');
    TriesSpan(next, seed');
    if Start(seed') <= CAP {
      TakenReach(Tries(next, seed'), Start(seed'));
    }
  }

  // ---------- a child that fails late ----------

  /** A model that asks for a tool and is then down. */
  const FAILING: World := World("u", 1, "task", ["t"],
    (runtime, iteration, history, prompt) =>
      if runtime == ToolCalling && iteration == 1 then Value(Completion("", [CALL])) else Err("down"),
    (runtime, iteration) => None, content => None, arguments => Value(map[]), (n, call) => Value(map[]), output => "{}")

  const FAILING_LINK := Link(FAILING, true, "p", [], [], 1)

  lemma FailingTurns(st: Loop)
    ensures BodyOf(FAILING, ToolCalling)(1, st).Next? && BodyOf(FAILING, ToolCalling)(2, st).Broken?
    ensures BodyOf(FAILING, JsonOnly)(1, st).Broken?
  {
    hide Snapshot;
    hide RunCalls;
  }

  lemma FailingTries()
    ensures |Tries(FAILING_LINK, FRESH)| == 2 && !Answered(Tries(FAILING_LINK, FRESH))
    ensures LastOf(Tries(FAILING_LINK, FRESH)[0]) == 2
  {
    hide BodyOf;
    assert TrimSpace("") == "";
    var st := Begin("p", [], FRESH, []);
    var tool, json := BodyOf(FAILING, ToolCalling), BodyOf(FAILING, JsonOnly);
    FailingTurns(st);
    FailingTurns(tool(1, st).st);
    assert RunFrom(tool, 1, st) == RunFrom(tool, 2, tool(1, st).st);
    assert LastTop(tool, 1, st) == LastTop(tool, 2, tool(1, st).st);
    var first := Try(FAILING, ToolCalling, "p", [], FRESH, []);
    FailingTurns(Begin("p", [], FRESH, first.result.st.calls));
    TaskIsGood(FAILING, true, "p", [], FRESH);
    assert Tries(FAILING_LINK, FRESH)[0] in Tries(FAILING_LINK, FRESH);
    TrySpans(FAILING_LINK, FRESH, first);
  }

  /** It reached iteration two, stored the stub, and its resume runs iteration two again. */
  lemma FailedChildRepeats(next: Link)
    requires Linkable(next)
    ensures StoredOf(FAILING_LINK, FRESH) == [STUB] && Start(SeedAfter(FAILING_LINK, FRESH)) == 2
    ensures !Before(Taken(Tries(FAILING_LINK, FRESH)), Taken(Tries(next, SeedAfter(FAILING_LINK, FRESH))))
  {
    hide Attempts;
    hide SeedAfter;
    hide Spans;
    hide Taken;
    hide BodyOf;
    FailingTries();
    var tries := Tries(FAILING_LINK, FRESH);
    assert tries[0] in tries;
    TriesSpan(FAILING_LINK, FRESH);
    TakenReach(tries, 1);
    hide Reach;
    NextStart(FAILING_LINK, FRESH);
    NoRepeatIff(FAILING_LINK, FRESH, next);
  }
}
