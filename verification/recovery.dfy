/** What a resumed child gets back from the trace of the run it continues. */
module Recovery {
  import opened Text
  import opened ChildLoop
  import opened Resume
  import Recent

  // ---------- where the snapshots are ----------

  /** A snapshot in a trace: its position, its iteration and the loop state it was taken of. */
  datatype Mark = Mark(at: nat, iteration: int, top: Loop)

  type Camera = (int, Loop) -> TraceStep

  function CameraOf(w: World, runtime: Runtime): Camera {
    (iteration, st) => Snapshot(w, runtime, iteration, st)
  }

  predicate MarkedAt(marks: seq<Mark>, at: nat) {
    exists j | 0 <= j < |marks| :: marks[j].at == at
  }

  /** The marks list the snapshots of the trace, in order; iterations rise and risks only grow. */
  predicate Marked(camera: Camera, trace: seq<TraceStep>, marks: seq<Mark>) {
    && (forall j | 0 <= j < |marks| :: marks[j].at < |trace| && trace[marks[j].at] == camera(marks[j].iteration, marks[j].top))
    && (forall j, k | 0 <= j < k < |marks| ::
          marks[j].at < marks[k].at && marks[j].iteration < marks[k].iteration && marks[j].top.risks <= marks[k].top.risks)
    && (forall k | 0 <= k < |trace| :: trace[k].snapshot.Some? ==> MarkedAt(marks, k))
  }

  /** An iteration adds its snapshot first and no other. */
  predicate Photographed(camera: Camera, iteration: int, st: Loop, st': Loop) {
    && |st.trace| < |st'.trace| && st.trace <= st'.trace
    && st'.trace[|st.trace|] == camera(iteration, st)
    && (forall k | |st.trace| < k < |st'.trace| :: st'.trace[k].snapshot == None)
    && st.risks <= st'.risks
  }

  ghost predicate Photographer(camera: Camera, body: Body) {
    forall iteration: int, st: Loop :: Photographed(camera, iteration, st, body(iteration, st).st)
  }

  lemma BodyPhotographs(w: World, runtime: Runtime)
    ensures Photographer(CameraOf(w, runtime), BodyOf(w, runtime))
  {
    forall iteration: int, st: Loop
      ensures Photographed(CameraOf(w, runtime), iteration, st, BodyOf(w, runtime)(iteration, st).st)
    {
      var top := Open(w, runtime, iteration, st);
      AnswerGrows(w, runtime, iteration, top);
      OnlyTools(w, iteration, top, Answer(w, runtime, iteration, top));
      assert top.trace == st.trace + [CameraOf(w, runtime)(iteration, st)];
    }
  }

  lemma OnlyTools(w: World, iteration: int, top: Loop, turn: Turn)
    requires AnswerGood(w, iteration, top, turn)
    ensures top.trace <= turn.st.trace && top.risks <= turn.st.risks
    ensures forall k | |top.trace| <= k < |turn.st.trace| :: turn.st.trace[k].snapshot == None
  {
    var t, n := turn.st.trace, |top.trace|;
    var end := if turn.Stop? then |t| - 1 else |t|;
    assert ToolSteps(t[n..end], iteration) by {
      assert t[n..|t|] == t[n..];
    }
    forall k | n <= k < end
      ensures t[k].snapshot == None
    {
      assert t[n..end][k - n] in t[n..end];
    }
  }

  lemma OneMoreMark(camera: Camera, iteration: int, st: Loop, st': Loop, marks: seq<Mark>)
    requires Marked(camera, st.trace, marks) && Photographed(camera, iteration, st, st')
    requires Before(marks, iteration, st.risks)
    ensures Marked(camera, st'.trace, marks + [Mark(|st.trace|, iteration, st)])
    ensures Before(marks + [Mark(|st.trace|, iteration, st)], iteration + 1, st'.risks)
  {
    var marks' := marks + [Mark(|st.trace|, iteration, st)];
    forall k | 0 <= k < |st'.trace| && st'.trace[k].snapshot.Some?
      ensures MarkedAt(marks', k)
    {
      if k < |st.trace| {
        var j :| 0 <= j < |marks| && marks[j].at == k;
        assert marks'[j].at == k;
      } else {
        assert marks'[|marks|].at == k;
      }
    }
  }

  /** All marks are of earlier iterations and have no risk the loop has lost. */
  predicate Before(marks: seq<Mark>, iteration: int, risks: seq<string>) {
    forall j | 0 <= j < |marks| :: marks[j].iteration < iteration && marks[j].top.risks <= risks
  }

  /** A run marks every iteration it begins; the last mark is the top of the last one. */
  lemma {:induction false} RunMarks(camera: Camera, body: Body, iteration: int, st: Loop, marks: seq<Mark>) returns (marks': seq<Mark>)
    requires iteration <= CAP && Photographer(camera, body)
    requires Marked(camera, st.trace, marks) && Before(marks, iteration, st.risks)
    ensures Marked(camera, RunFrom(body, iteration, st).st.trace, marks')
    ensures marks + [Mark(|st.trace|, iteration, st)] <= marks'
    ensures (marks'[|marks'| - 1].iteration, marks'[|marks'| - 1].top) == LastTop(body, iteration, st)
    decreases CAP - iteration
  {
    hide Marked;
    var turn := body(iteration, st);
    assert Photographed(camera, iteration, st, turn.st);
    OneMoreMark(camera, iteration, st, turn.st, marks);
    marks' := marks + [Mark(|st.trace|, iteration, st)];
    if turn.Next? {
      if iteration < CAP {
        marks' := RunMarks(camera, body, iteration + 1, turn.st, marks');
      } else {
        assert RunFrom(body, iteration + 1, turn.st).st.trace == turn.st.trace;
      }
    }
  }

  /** Cutting a trace cuts its marks. */
  lemma {:induction false} CutMarks(camera: Camera, trace: seq<TraceStep>, marks: seq<Mark>, n: nat) returns (m: nat)
    requires Marked(camera, trace, marks) && n <= |trace|
    ensures m <= |marks| && Marked(camera, trace[..n], marks[..m])
    ensures forall j | 0 <= j < |marks| :: j < m <==> marks[j].at < n
    decreases |marks|
  {
    m := 0;
    while m < |marks| && marks[m].at < n
      invariant m <= |marks| && forall j | 0 <= j < m :: marks[j].at < n
    {
      m := m + 1;
    }
    forall k | 0 <= k < n && trace[..n][k].snapshot.Some?
      ensures MarkedAt(marks[..m], k)
    {
      assert trace[k].snapshot.Some?;
      var j :| 0 <= j < |marks| && marks[j].at == k;
      assert marks[..m][j].at == k;
    }
  }

  // ---------- deriving the basis ----------

  lemma BasisStepView(b: Basis, row: Row)
    ensures BasisStep(b, row).view ==
            if row.snapshot.Some? && row.snapshot.value.Obj? then Overlay(b.view, row.snapshot.value) else b.view
  {
  }

  /** Every camera shot is a snapshot. */
  predicate Shoots(camera: Camera, marks: seq<Mark>) {
    forall j | 0 <= j < |marks| :: camera(marks[j].iteration, marks[j].top).snapshot.Some?
  }

  /** The last step of a marked trace is either the last mark or no snapshot at all. */
  lemma SplitLast(camera: Camera, trace: seq<TraceStep>, marks: seq<Mark>) returns (front: seq<Mark>)
    requires trace != [] && Marked(camera, trace, marks) && Shoots(camera, marks)
    ensures front <= marks && Marked(camera, trace[..|trace| - 1], front)
    ensures trace[|trace| - 1].snapshot.None? ==> front == marks
    ensures trace[|trace| - 1].snapshot.Some? ==>
      && |marks| == |front| + 1 && marks[|front|].at == |trace| - 1
      && trace[|trace| - 1] == camera(marks[|front|].iteration, marks[|front|].top)
      && (front != [] ==> front[|front| - 1].top.risks <= marks[|front|].top.risks)
  {
    var n := |trace| - 1;
    var m := CutMarks(camera, trace, marks, n);
    front := marks[..m];
    if m < |marks| {
      assert marks[m].at == n && trace[n] == camera(marks[m].iteration, marks[m].top);
      assert marks[|marks| - 1].at <= n;
    } else {
      assert !MarkedAt(marks, n);
    }
  }

  lemma CameraShoots(w: World, runtime: Runtime, marks: seq<Mark>)
    ensures Shoots(CameraOf(w, runtime), marks)
  {
  }

  function MarkView(runtime: Runtime, marks: seq<Mark>): View {
    if marks == [] then NO_VIEW else ViewOf(runtime, marks[|marks| - 1].iteration, marks[|marks| - 1].top)
  }

  /** Overlaying the next snapshot hides everything older, its risks included, because risks only grow. */
  lemma OverlayMark(w: World, runtime: Runtime, front: seq<Mark>, last: Mark)
    requires front != [] ==> front[|front| - 1].top.risks <= last.top.risks
    ensures Overlay(MarkView(runtime, front), SnapshotJson(w, runtime, last.iteration, last.top))
            == ViewOf(runtime, last.iteration, last.top)
  {
    SnapshotRoundTrip(w, runtime, last.iteration, last.top, MarkView(runtime, front));
  }

  lemma NoMarks(camera: Camera, marks: seq<Mark>)
    requires Marked(camera, [], marks)
    ensures marks == []
  {
    if marks != [] {
      MarkInTrace(camera, [], marks, 0);
    }
  }

  lemma MarkInTrace(camera: Camera, trace: seq<TraceStep>, marks: seq<Mark>, j: nat)
    requires Marked(camera, trace, marks) && j < |marks|
    ensures marks[j].at < |trace|
  {
  }

  lemma MarkSeen(w: World, runtime: Runtime, child: int, b: Basis, front: seq<Mark>, last: Mark)
    requires b.view == MarkView(runtime, front) && (front != [] ==> front[|front| - 1].top.risks <= last.top.risks)
    ensures var row := RowOf(w, child, CameraOf(w, runtime)(last.iteration, last.top));
            BasisStep(b, row).view == MarkView(runtime, front + [last])
  {
    hide Overlay;
    hide ViewOf;
    var row := RowOf(w, child, CameraOf(w, runtime)(last.iteration, last.top));
    BasisStepView(b, row);
    OverlayMark(w, runtime, front, last);
  }

  lemma LastRow(w: World, child: int, trace: seq<TraceStep>)
    requires trace != []
    ensures var n := |trace| - 1;
            BasisOf(RowsOf(w, child, trace)) == BasisStep(BasisOf(RowsOf(w, child, trace[..n])), RowOf(w, child, trace[n]))
  {
    hide BasisStep;
    hide RowOf;
    var rows := RowsOf(w, child, trace);
    assert rows[..|trace| - 1] == RowsOf(w, child, trace[..|trace| - 1]);
  }

  /** The derived view is that of the last snapshot: nothing older shows through. */
  lemma {:induction false} BasisSeesLastMark(w: World, runtime: Runtime, child: int, trace: seq<TraceStep>, marks: seq<Mark>)
    requires Marked(CameraOf(w, runtime), trace, marks)
    ensures BasisOf(RowsOf(w, child, trace)).view == MarkView(runtime, marks)
    decreases |trace|
  {
    hide Marked;
    hide Shoots;
    hide CameraOf;
    hide BasisStep;
    hide BasisOf;
    hide RowOf;
    hide MarkView;
    if trace != [] {
      var n := |trace| - 1;
      LastRow(w, child, trace);
      hide RowsOf;
      CameraShoots(w, runtime, marks);
      var front := SplitLast(CameraOf(w, runtime), trace, marks);
      BasisSeesLastMark(w, runtime, child, trace[..n], front);
      var b := BasisOf(RowsOf(w, child, trace[..n]));
      if trace[n].snapshot.Some? {
        assert marks == front + [marks[|front|]];
        MarkSeen(w, runtime, child, b, front, marks[|front|]);
      } else {
        NothingSeen(w, child, b, trace[n]);
      }
    } else {
      NoMarks(CameraOf(w, runtime), marks);
      NoRows(w, runtime, child);
    }
  }

  lemma NothingSeen(w: World, child: int, b: Basis, step: TraceStep)
    requires step.snapshot.None?
    ensures BasisStep(b, RowOf(w, child, step)).view == b.view
  {
    BasisStepView(b, RowOf(w, child, step));
  }

  lemma NoRows(w: World, runtime: Runtime, child: int)
    ensures BasisOf(RowsOf(w, child, [])).view == MarkView(runtime, [])
  {
    assert RowsOf(w, child, []) == [];
  }

  lemma FreshRows(table: seq<Row>, w: World, child: int, trace: seq<TraceStep>)
    requires child > 0 && forall k | 0 <= k < |table| :: table[k].child != child
    ensures var all := RowsOf(w, child, trace);
            ListTraces(table + all, w.username, child, ROW_LIMIT) == if |trace| <= ROW_LIMIT then all else all[..ROW_LIMIT]
  {
    var keep, all := Wanted(w.username, child), RowsOf(w, child, trace);
    Recent.FilterConcat(table, all, keep);
    Recent.FilterNone(table, keep);
    Recent.FilterAll(all, keep);
    assert [] + all == all;
  }

  /** Everything a resume reads after a run whose trace was stored for a fresh child. */
  function BasisAfter(table: seq<Row>, w: World, child: int, trace: seq<TraceStep>): Basis {
    BasisOf(ListTraces(table + RowsOf(w, child, trace), w.username, child, ROW_LIMIT))
  }

  /** Position of the last snapshot of a trace. */
  function LastSnapshot(trace: seq<TraceStep>): (k: int) {
    if trace == [] then -1
    else if trace[|trace| - 1].snapshot.Some? then |trace| - 1
    else LastSnapshot(trace[..|trace| - 1])
  }

  lemma {:induction false} LastMarkIsLastSnapshot(camera: Camera, trace: seq<TraceStep>, marks: seq<Mark>)
    requires Marked(camera, trace, marks) && Shoots(camera, marks) && marks != []
    ensures LastSnapshot(trace) == marks[|marks| - 1].at
    decreases |trace|
  {
    assert marks[0].at < |trace|;
    var front := SplitLast(camera, trace, marks);
    if trace[|trace| - 1].snapshot.None? {
      LastMarkIsLastSnapshot(camera, trace[..|trace| - 1], marks);
    }
  }

  /** The marks of a whole run: from its first iteration to the last it began, the last one at the last snapshot. */
  lemma MarksOfRun(w: World, runtime: Runtime, iteration: int, st: Loop) returns (marks: seq<Mark>)
    requires iteration <= CAP && st.trace == []
    ensures marks != [] && Marked(CameraOf(w, runtime), RunFrom(BodyOf(w, runtime), iteration, st).st.trace, marks)
    ensures marks[0].iteration == iteration && forall j, k | 0 <= j < k < |marks| :: marks[j].iteration < marks[k].iteration
    ensures (marks[|marks| - 1].iteration, marks[|marks| - 1].top) == LastTop(BodyOf(w, runtime), iteration, st)
    ensures marks[0].at == 0 && LastSnapshot(RunFrom(BodyOf(w, runtime), iteration, st).st.trace) == marks[|marks| - 1].at
  {
    hide BodyOf;
    hide CameraOf;
    hide Photographer;
    BodyPhotographs(w, runtime);
    marks := RunMarks(CameraOf(w, runtime), BodyOf(w, runtime), iteration, st, []);
    assert marks[0] == Mark(0, iteration, st);
    CameraShoots(w, runtime, marks);
    LastMarkIsLastSnapshot(CameraOf(w, runtime), RunFrom(BodyOf(w, runtime), iteration, st).st.trace, marks);
  }

  /** The view derived after a run is that of the last mark among the stored rows; the first mark is always stored. */
  lemma ViewAfterRun(w: World, runtime: Runtime, iteration: int, st: Loop, table: seq<Row>, child: int, trace: seq<TraceStep>)
    returns (marks: seq<Mark>, m: nat)
    requires iteration <= CAP && st.trace == [] && trace == RunFrom(BodyOf(w, runtime), iteration, st).st.trace
    requires child > 0 && forall k | 0 <= k < |table| :: table[k].child != child
    ensures 0 < m <= |marks| && BasisAfter(table, w, child, trace).view == MarkView(runtime, marks[..m])
    ensures marks[0].iteration == iteration && forall j, k | 0 <= j < k < |marks| :: marks[j].iteration < marks[k].iteration
    ensures (marks[|marks| - 1].iteration, marks[|marks| - 1].top) == LastTop(BodyOf(w, runtime), iteration, st)
    ensures m == |marks| <==> LastSnapshot(trace) < ROW_LIMIT
  {
    hide BodyOf;
    hide CameraOf;
    hide RunFrom;
    hide LastTop;
    hide ListTraces;
    hide BasisOf;
    hide MarkView;
    marks := MarksOfRun(w, runtime, iteration, st);
    FreshRows(table, w, child, trace);
    var n := if |trace| <= ROW_LIMIT then |trace| else ROW_LIMIT;
    MarkInTrace(CameraOf(w, runtime), trace, marks, |marks| - 1);
    m := CutMarks(CameraOf(w, runtime), trace, marks, n);
    hide Marked;
    assert ListTraces(table + RowsOf(w, child, trace), w.username, child, ROW_LIMIT) == RowsOf(w, child, trace[..n]);
    BasisSeesLastMark(w, runtime, child, trace[..n], marks[..m]);
  }

  lemma SeedOfView(basis: Basis, runtime: Runtime, iteration: int, st: Loop)
    requires iteration >= 1 && basis.view == ViewOf(runtime, iteration, st)
    ensures LoopSeed(basis) == Seed(TrimSpace(st.prompt), iteration + 1, RuntimeName(runtime), TrimStrings(st.risks))
  {
    RuntimeTrimmed(runtime);
    TrimTwice(st.prompt);
  }

  /** From the stored trace of a run the last loop state is recovered, up to trimming, exactly when its snapshot is among the
      first 200 steps; otherwise an earlier iteration is resumed. */
  lemma TraceRecovers(w: World, runtime: Runtime, iteration: int, st: Loop, table: seq<Row>, child: int)
    requires 1 <= iteration <= CAP && st.trace == []
    requires child > 0 && forall k | 0 <= k < |table| :: table[k].child != child
    ensures var (i, top) := LastTop(BodyOf(w, runtime), iteration, st);
            var trace := RunFrom(BodyOf(w, runtime), iteration, st).st.trace;
            var basis := BasisAfter(table, w, child, trace);
            && (LastSnapshot(trace) < ROW_LIMIT ==>
                  basis.view == ViewOf(runtime, i, top)
                  && LoopSeed(basis) == Seed(TrimSpace(top.prompt), i + 1, RuntimeName(runtime), TrimStrings(top.risks)))
            && (LoopSeed(basis).nextIteration == i + 1 <==> LastSnapshot(trace) < ROW_LIMIT)
            && iteration < LoopSeed(basis).nextIteration <= i + 1
  {
    var trace := RunFrom(BodyOf(w, runtime), iteration, st).st.trace;
    var marks, m := ViewAfterRun(w, runtime, iteration, st, table, child, trace);
    SeedOfView(BasisAfter(table, w, child, trace), runtime, marks[m - 1].iteration, marks[m - 1].top);
    assert marks[..m][m - 1] == marks[m - 1];
    assert marks[0].iteration <= marks[m - 1].iteration <= marks[|marks| - 1].iteration;
  }

  /** A stored trace holds a snapshot, and is resumed later than it began. */
  lemma TraceResumesLater(w: World, runtime: Runtime, iteration: int, st: Loop, table: seq<Row>, child: int)
    requires 1 <= iteration <= CAP && st.trace == []
    requires child > 0 && forall k | 0 <= k < |table| :: table[k].child != child
    ensures var trace, last := RunFrom(BodyOf(w, runtime), iteration, st).st.trace, LastTop(BodyOf(w, runtime), iteration, st).0;
            var next := Start(LoopSeed(BasisAfter(table, w, child, trace)));
            && LastSnapshot(trace) >= 0 && iteration < next <= last + 1 <= CAP + 1
            && (next == last + 1 <==> LastSnapshot(trace) < ROW_LIMIT)
  {
    hide BodyOf;
    hide RunFrom;
    hide LastTop;
    hide BasisAfter;
    hide LoopSeed;
    hide LastSnapshot;
    hide Marked;
    TraceRecovers(w, runtime, iteration, st, table, child);
    LastTopBounds(BodyOf(w, runtime), iteration, st);
    var _ := MarksOfRun(w, runtime, iteration, st);
  }

  lemma {:induction false} LastTopBounds(body: Body, iteration: int, st: Loop)
    requires iteration <= CAP
    ensures iteration <= LastTop(body, iteration, st).0 <= CAP
    decreases CAP - iteration
  {
    if body(iteration, st).Next? && iteration < CAP {
      LastTopBounds(body, iteration + 1, body(iteration, st).st);
    }
  }

  // ---------- a trace that is too long ----------

  const CROWD: seq<ToolCall> := seq(200, _ => ToolCall("", "", "t", ""))

  /** A model that asks for 200 calls of an allowed tool at once and then answers. */
  const CROWDED: World := World("u", 1, "task", ["t"],
    (runtime, iteration, history, prompt) => Value(Completion("", if iteration == 1 then CROWD else [])),
    (runtime, iteration) => None, content => None, arguments => Value(map[]), (n, call) => Value(map[]), output => "{}")

  lemma {:induction false} CrowdedCalls(iteration: int, st: Loop, cs: seq<ToolCall>)
    requires forall c | c in cs :: c == ToolCall("", "", "t", "")
    ensures |RunCalls(CROWDED, iteration, st, cs).trace| == |st.trace| + |cs|
    decreases |cs|
  {
    if cs != [] {
      assert cs[0] in cs && forall c | c in cs[1..] :: c in cs;
      var done := ExecuteCall(CROWDED, iteration, cs[0], st.calls);
      var st1 := Record(st, done);
      assert "t" in CROWDED.allowed && done.error.None?;
      CrowdedCalls(iteration, st1.(history := st1.history + [done.message]), cs[1..]);
    }
  }

  lemma CrowdedFirst(st: Loop) returns (st2: Loop)
    requires st.trace == []
    ensures BodyOf(CROWDED, ToolCalling)(1, st) == Next(st2) && |st2.trace| == 201
  {
    var top := Open(CROWDED, ToolCalling, 1, st);
    var st1 := top.(history := top.history + [Message("assistant", "", "", "", CROWD)]);
    CrowdedCalls(1, st1, CROWD);
    st2 := RunCalls(CROWDED, 1, st1, CROWD);
    hide RunCalls;
    hide Snapshot;
  }

  lemma CrowdedSecond(st: Loop)
    ensures var turn := BodyOf(CROWDED, ToolCalling)(2, st);
            turn.Stop? && |turn.st.trace| > |st.trace| && turn.st.trace[|st.trace|].snapshot.Some?
  {
    hide SnapshotJson;
  }

  lemma CrowdedTrace() returns (trace: seq<TraceStep>)
    ensures var st := Begin("p", [], FRESH, []);
            && RunFrom(BodyOf(CROWDED, ToolCalling), 1, st).Completed?
            && trace == RunFrom(BodyOf(CROWDED, ToolCalling), 1, st).st.trace
            && LastTop(BodyOf(CROWDED, ToolCalling), 1, st).0 == 2
            && |trace| > 201 && trace[201].snapshot.Some?
  {
    hide BodyOf;
    var body, st := BodyOf(CROWDED, ToolCalling), Begin("p", [], FRESH, []);
    var st2 := CrowdedFirst(st);
    CrowdedSecond(st2);
    trace := body(2, st2).st.trace;
    assert RunFrom(body, 1, st) == RunFrom(body, 2, st2);
    assert LastTop(body, 1, st) == LastTop(body, 2, st2);
  }

  /** After 200 tool steps in the first iteration, the snapshot of the second is lost to a resume. */
  lemma SnapshotCanBeLost()
    ensures var st := Begin("p", [], FRESH, []);
            RunFrom(BodyOf(CROWDED, ToolCalling), 1, st).Completed? && LastTop(BodyOf(CROWDED, ToolCalling), 1, st).0 == 2
            && LoopSeed(BasisAfter([], CROWDED, 1, RunFrom(BodyOf(CROWDED, ToolCalling), 1, st).st.trace)).nextIteration != 3
  {
    var trace := CrowdedTrace();
    SnapshotAfter(trace, 201);
    TraceRecovers(CROWDED, ToolCalling, 1, Begin("p", [], FRESH, []), [], 1);
  }

  lemma {:induction false} SnapshotAfter(trace: seq<TraceStep>, k: nat)
    requires k < |trace| && trace[k].snapshot.Some?
    ensures LastSnapshot(trace) >= k
    decreases |trace|
  {
    if trace[|trace| - 1].snapshot.None? {
      SnapshotAfter(trace[..|trace| - 1], k);
    }
  }
}
