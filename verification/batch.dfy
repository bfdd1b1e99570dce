/** The batch runner: one chat per dataset item, a checkpoint after each, and resuming from it. */
module Batch {

  datatype Option<T> = None | Some(value: T)

  datatype Result = Result(index: nat, prompt: string, success: bool, response: string, session: int,
                           trajectory: string, error: string)

  /** A saved trajectory has a name. */
  type TrajectoryID = s: string | s != "" witness "t"

  /** What came of chatting one prompt: an error, or a response with the trajectory id if one was saved. */
  datatype Outcome = Failed(error: string) | Answered(response: string, session: int, trajectory: Option<TrajectoryID>)

  /** A chat changes the world (its store) and yields an outcome. */
  type Chat<!W> = (W, string) -> (W, Outcome)

  type Completed = map<nat, Result>

  function ResultOf(index: nat, prompt: string, outcome: Outcome): Result {
    match outcome
    case Failed(e) => Result(index, prompt, false, "", 0, "", e)
    case Answered(response, session, trajectory) =>
      Result(index, prompt, true, response, session, if trajectory.Some? then trajectory.value else "", "")
  }

  /** Results saved so far and the world, after some chats. */
  datatype Progress<W> = Progress(completed: Completed, world: W)

  // ---------- what a run does ----------

  /** Works through the items from `index` on, skipping completed ones, and stops after `budget` chats. */
  function Advance<W>(items: seq<string>, chat: Chat<W>, index: nat, p: Progress<W>, budget: nat): Progress<W>
    decreases |items| - index
  {
    if index >= |items| || budget == 0 then p
    else if index in p.completed then Advance(items, chat, index + 1, p, budget)
    else
      var (world, outcome) := chat(p.world, items[index]);
      Advance(items, chat, index + 1, Progress(p.completed[index := ResultOf(index, items[index], outcome)], world), budget - 1)
  }

  /** An uninterrupted run has room for every item. */
  function Finish<W>(items: seq<string>, chat: Chat<W>, p: Progress<W>): Progress<W> {
    Advance(items, chat, 0, p, |items|)
  }

  /** Runs one after another, each resuming from the checkpoint and cut after the given number of chats. */
  function Chain<W>(items: seq<string>, chat: Chat<W>, p: Progress<W>, cuts: seq<nat>): Progress<W>
    decreases |cuts|
  {
    if cuts == [] then p else Chain(items, chat, Advance(items, chat, 0, p, cuts[0]), cuts[1..])
  }

  lemma {:induction false} MoreBudget<W>(items: seq<string>, chat: Chat<W>, index: nat, p: Progress<W>, a: nat, b: nat)
    requires |items| <= index + a && |items| <= index + b
    ensures Advance(items, chat, index, p, a) == Advance(items, chat, index, p, b)
    decreases |items| - index
  {
    if index < |items| {
      if index in p.completed {
        MoreBudget(items, chat, index + 1, p, a, b);
      } else {
        var (world, outcome) := chat(p.world, items[index]);
        MoreBudget(items, chat, index + 1, Progress(p.completed[index := ResultOf(index, items[index], outcome)], world), a - 1, b - 1);
      }
    }
  }

  /** A cut run leaves only indices at or after its start changed, and keeps what was there. */
  lemma {:induction false} AdvanceKeeps<W>(items: seq<string>, chat: Chat<W>, index: nat, p: Progress<W>, budget: nat)
    ensures var q := Advance(items, chat, index, p, budget);
            && (forall k | k in p.completed :: k in q.completed && q.completed[k] == p.completed[k])
            && (forall k | k in q.completed && k !in p.completed :: index <= k < |items| && q.completed[k].index == k)
    decreases |items| - index
  {
    if index < |items| && budget > 0 {
      if index in p.completed {
        AdvanceKeeps(items, chat, index + 1, p, budget);
      } else {
        var (world, outcome) := chat(p.world, items[index]);
        AdvanceKeeps(items, chat, index + 1, Progress(p.completed[index := ResultOf(index, items[index], outcome)], world), budget - 1);
      }
    }
  }

  /** Finishing after a cut run is finishing without the cut: the same chats in the same order, none repeated. */
  lemma {:induction false} FinishAfterCut<W>(items: seq<string>, chat: Chat<W>, index: nat, p: Progress<W>, budget: nat, room: nat)
    requires |items| <= index + room
    ensures Advance(items, chat, index, Advance(items, chat, index, p, budget), room) == Advance(items, chat, index, p, room)
    decreases |items| - index
  {
    if index < |items| && budget > 0 {
      var q := Advance(items, chat, index, p, budget);
      AdvanceKeeps(items, chat, index, p, budget);
      if index in p.completed {
        MoreBudget(items, chat, index + 1, p, room, room + 1);
        FinishAfterCut(items, chat, index + 1, p, budget, room);
      } else {
        var (world, outcome) := chat(p.world, items[index]);
        var p1 := Progress(p.completed[index := ResultOf(index, items[index], outcome)], world);
        AdvanceKeeps(items, chat, index + 1, p1, budget - 1);
        FinishAfterCut(items, chat, index + 1, p1, budget - 1, room);
        assert q == Advance(items, chat, index + 1, p1, budget - 1) && index in q.completed;
        assert Advance(items, chat, index, q, room) == Advance(items, chat, index + 1, q, room);
        MoreBudget(items, chat, index + 1, p1, room, room - 1);
      }
    }
  }

  /** Any chain of cut and resumed runs, finished, ends where one uninterrupted run would: checkpoint and world alike. */
  lemma {:induction false} ChainAgrees<W>(items: seq<string>, chat: Chat<W>, p: Progress<W>, cuts: seq<nat>)
    ensures Finish(items, chat, Chain(items, chat, p, cuts)) == Finish(items, chat, p)
    decreases |cuts|
  {
    if cuts != [] {
      ChainAgrees(items, chat, Advance(items, chat, 0, p, cuts[0]), cuts[1..]);
      FinishAfterCut(items, chat, 0, p, cuts[0], |items|);
    }
  }

  // ---------- which chats a run makes, and what it keeps of them ----------

  /** In dataset order, items without a result, at most `budget`; whoever is passed over comes after them, for lack of time. */
  predicate Schedule(n: nat, index: nat, done: set<nat>, budget: nat, made: seq<nat>) {
    && (forall i, j | 0 <= i < j < |made| :: made[i] < made[j])
    && (forall i | 0 <= i < |made| :: index <= made[i] < n && made[i] !in done)
    && |made| <= budget
    && (forall k | index <= k < n && k !in done && k !in made :: |made| == budget && forall i | 0 <= i < |made| :: made[i] < k)
  }

  /** A result tells the prompt, and what came of chatting it: an error, or the response, its session and its trajectory. */
  predicate Tells(r: Result, k: nat, prompt: string, outcome: Outcome) {
    && r.index == k && r.prompt == prompt && (r.success <==> outcome.Answered?)
    && r.error == (if outcome.Failed? then outcome.error else "")
    && r.response == (if outcome.Answered? then outcome.response else "")
    && r.session == (if outcome.Answered? then outcome.session else 0)
    && (r.trajectory != "" <==> outcome.Answered? && outcome.trajectory.Some?)
    && (r.trajectory != "" ==> r.trajectory == outcome.trajectory.value)
  }

  /** Each of these items was chatted in the world the ones before it left, `end` is the world the last one left, and the
      result of each tells what came of it. */
  predicate Chatted<W(==)>(items: seq<string>, chat: Chat<W>, world: W, ks: seq<nat>, completed: Completed, end: W)
    decreases |ks|
  {
    if ks == [] then world == end
    else
      && ks[0] < |items| && ks[0] in completed
      && Tells(completed[ks[0]], ks[0], items[ks[0]], chat(world, items[ks[0]]).1)
      && Chatted(items, chat, chat(world, items[ks[0]]).0, ks[1..], completed, end)
  }

  /** Results are added for these items and for no other. */
  predicate Grown(before: Completed, after: Completed, made: seq<nat>) {
    && (forall k | k in made :: k in after)
    && (forall k | k in before :: k in after)
    && (forall k | k in after :: k in before || k in made)
  }

  lemma GrownOne(before: Completed, after: Completed, k: nat, r: Result, rest: seq<nat>)
    requires Grown(before[k := r], after, rest)
    ensures Grown(before, after, [k] + rest)
  {
    assert ([k] + rest)[1..] == rest && ([k] + rest)[0] == k;
    assert k in before[k := r];
    assert forall x | x in before :: x in before[k := r];
    assert forall x | x in before[k := r] :: x == k || x in before;
  }

  lemma ScheduleOne(n: nat, index: nat, done: set<nat>, budget: nat, rest: seq<nat>)
    requires index < n && index !in done && budget > 0 && Schedule(n, index + 1, done + {index}, budget - 1, rest)
    ensures Schedule(n, index, done, budget, [index] + rest)
  {
    var made := [index] + rest;
    forall k | index <= k < n && k !in done && k !in made
      ensures |made| == budget && forall i | 0 <= i < |made| :: made[i] < k
    {
      assert made[0] == index;
      assert made[1..] == rest && k !in rest;
    }
  }

  lemma ResultTells(k: nat, prompt: string, outcome: Outcome)
    ensures Tells(ResultOf(k, prompt, outcome), k, prompt, outcome)
  {
  }

  lemma ChatFirst<W>(items: seq<string>, chat: Chat<W>, world: W, k: nat, rest: seq<nat>, completed: Completed, end: W)
    requires k < |items| && k in completed && Tells(completed[k], k, items[k], chat(world, items[k]).1)
    requires Chatted(items, chat, chat(world, items[k]).0, rest, completed, end)
    ensures Chatted(items, chat, world, [k] + rest, completed, end)
  {
    assert ([k] + rest)[1..] == rest;
  }

  /** From `p` to `q` a run chatted these items, in dataset order, as many as it had time for, each in the world the one before
      left, and kept a result of each. */
  predicate Ran<W(==)>(items: seq<string>, chat: Chat<W>, index: nat, p: Progress<W>, budget: nat, q: Progress<W>, made: seq<nat>) {
    && Schedule(|items|, index, p.completed.Keys, budget, made)
    && Chatted(items, chat, p.world, made, q.completed, q.world)
    && Grown(p.completed, q.completed, made)
  }

  lemma RanNothing<W>(items: seq<string>, chat: Chat<W>, index: nat, p: Progress<W>, budget: nat)
    requires |items| <= index || budget == 0
    ensures Ran(items, chat, index, p, budget, p, [])
  {
  }

  lemma RanFirst<W>(items: seq<string>, chat: Chat<W>, index: nat, p: Progress<W>, budget: nat, q: Progress<W>, rest: seq<nat>)
    requires index < |items| && budget > 0 && index !in p.completed
    requires var (world, outcome) := chat(p.world, items[index]);
             var r := ResultOf(index, items[index], outcome);
             && index in q.completed && q.completed[index] == r
             && Ran(items, chat, index + 1, Progress(p.completed[index := r], world), budget - 1, q, rest)
    ensures Ran(items, chat, index, p, budget, q, [index] + rest)
  {
    hide Schedule;
    hide Chatted;
    hide Grown;
    hide Tells;
    hide ResultOf;
    var (world, outcome) := chat(p.world, items[index]);
    var r := ResultOf(index, items[index], outcome);
    assert p.completed[index := r].Keys == p.completed.Keys + {index};
    ScheduleOne(|items|, index, p.completed.Keys, budget, rest);
    ResultTells(index, items[index], outcome);
    ChatFirst(items, chat, p.world, index, rest, q.completed, q.world);
    GrownOne(p.completed, q.completed, index, r, rest);
  }

  lemma RanSkip<W>(items: seq<string>, chat: Chat<W>, index: nat, p: Progress<W>, budget: nat, q: Progress<W>, made: seq<nat>)
    requires index in p.completed && Ran(items, chat, index + 1, p, budget, q, made)
    ensures Ran(items, chat, index, p, budget, q, made)
  {
    hide Chatted;
    hide Grown;
  }

  lemma {:induction false} AdvanceRuns<W>(items: seq<string>, chat: Chat<W>, index: nat, p: Progress<W>, budget: nat)
    returns (made: seq<nat>)
    ensures Ran(items, chat, index, p, budget, Advance(items, chat, index, p, budget), made)
    decreases |items| - index
  {
    hide Ran;
    hide ResultOf;
    if index < |items| && budget > 0 {
      if index in p.completed {
        made := AdvanceRuns(items, chat, index + 1, p, budget);
        RanSkip(items, chat, index, p, budget, Advance(items, chat, index + 1, p, budget), made);
      } else {
        var (world, outcome) := chat(p.world, items[index]);
        var p1 := Progress(p.completed[index := ResultOf(index, items[index], outcome)], world);
        var rest := AdvanceRuns(items, chat, index + 1, p1, budget - 1);
        AdvanceKeeps(items, chat, index + 1, p1, budget - 1);
        RanFirst(items, chat, index, p, budget, Advance(items, chat, index + 1, p1, budget - 1), rest);
        made := [index] + rest;
      }
    } else {
      made := [];
      RanNothing(items, chat, index, p, budget);
    }
  }

  function Range(a: nat, b: nat): (r: set<nat>)
    ensures forall k :: k in r <==> a <= k < b
    decreases b - a
  {
    if a >= b then {} else {a} + Range(a + 1, b)
  }

  lemma {:induction false} RangeSize(a: nat, b: nat)
    requires a <= b
    ensures |Range(a, b)| == b - a
    decreases b - a
  {
    if a < b {
      RangeSize(a + 1, b);
    }
  }

  /** A finished run has exactly one result per item, besides what the checkpoint already held. */
  lemma {:induction false} FinishCovers<W>(items: seq<string>, chat: Chat<W>, index: nat, p: Progress<W>, room: nat)
    requires |items| <= index + room
    ensures Advance(items, chat, index, p, room).completed.Keys == p.completed.Keys + Range(index, |items|)
    decreases |items| - index
  {
    if index < |items| {
      if index in p.completed {
        MoreBudget(items, chat, index + 1, p, room, room + 1);
        FinishCovers(items, chat, index + 1, p, room);
      } else {
        var (world, outcome) := chat(p.world, items[index]);
        FinishCovers(items, chat, index + 1, Progress(p.completed[index := ResultOf(index, items[index], outcome)], world), room - 1);
      }
    }
  }

  // ---------- what a run reports ----------

  datatype Summary = Summary(total: nat, succeeded: nat, failed: nat, trajectories: nat)

  datatype Kind = OfSuccess | OfFailure | OfTrajectory

  predicate Is(r: Result, kind: Kind) {
    match kind case OfSuccess => r.success case OfFailure => !r.success case OfTrajectory => r.success && r.trajectory != ""
  }

  function Count(rs: seq<Result>, kind: Kind): (n: nat) {
    if rs == [] then 0 else Count(rs[..|rs| - 1], kind) + if Is(rs[|rs| - 1], kind) then 1 else 0
  }

  function SummaryOf(total: nat, rs: seq<Result>): Summary {
    Summary(total, Count(rs, OfSuccess), Count(rs, OfFailure), Count(rs, OfTrajectory))
  }

  /** Every result is stored under its own index. */
  predicate Keyed(c: Completed) {
    forall k | k in c :: c[k].index == k
  }

  /** Ascending by index, so without repetition. */
  predicate Ascending(rs: seq<Result>) {
    forall i, j | 0 <= i < j < |rs| :: rs[i].index < rs[j].index
  }

  /** Exactly the results of the checkpoint. */
  predicate Lists(rs: seq<Result>, c: Completed) {
    && (forall r | r in rs :: r.index in c && c[r.index] == r)
    && (forall k | k in c :: c[k] in rs)
  }

  /** A checkpoint has one ascending list of results, so runs that end with the same checkpoint report the same. */
  lemma ListingUnique(rs: seq<Result>, rs': seq<Result>, c: Completed)
    requires Ascending(rs) && Lists(rs, c) && Ascending(rs') && Lists(rs', c)
    ensures rs == rs'
  {
    assert forall r | r in rs :: c[r.index] in rs';
    assert forall r | r in rs' :: c[r.index] in rs;
    AscendingUnique(rs, rs');
  }

  lemma {:induction false} AscendingUnique(rs: seq<Result>, rs': seq<Result>)
    requires Ascending(rs) && Ascending(rs') && (forall r | r in rs :: r in rs') && forall r | r in rs' :: r in rs
    ensures rs == rs'
    decreases |rs|
  {
    hide Ascending;
    if rs != [] && rs' != [] {
      LastsAgree(rs, rs');
      var front, front' := rs[..|rs| - 1], rs'[..|rs'| - 1];
      FrontMembers(rs);
      FrontMembers(rs');
      forall r | r in front
        ensures r in front'
      {
        assert r in rs && r in rs';
      }
      forall r | r in front'
        ensures r in front
      {
        assert r in rs' && r in rs;
      }
      AscendingUnique(front, front');
      assert rs == front + [rs[|rs| - 1]] && rs' == front' + [rs'[|rs'| - 1]];
    } else if rs == [] {
      NoMembers(rs');
    } else {
      NoMembers(rs);
    }
  }

  lemma NoMembers(rs: seq<Result>)
    requires forall r :: r !in rs
    ensures rs == []
  {
    if rs != [] {
      SomeMember(rs);
    }
  }

  lemma SomeMember(rs: seq<Result>)
    requires rs != []
    ensures exists r :: r in rs
  {
    assert rs[0] in rs;
  }

  lemma LastIsGreatest(rs: seq<Result>, r: Result)
    requires Ascending(rs) && r in rs
    ensures r.index < rs[|rs| - 1].index || r == rs[|rs| - 1]
  {
  }

  lemma LastsAgree(rs: seq<Result>, rs': seq<Result>)
    requires Ascending(rs) && Ascending(rs') && (forall r | r in rs :: r in rs') && forall r | r in rs' :: r in rs
    requires rs != [] && rs' != []
    ensures rs[|rs| - 1] == rs'[|rs'| - 1]
  {
    var last, last' := rs[|rs| - 1], rs'[|rs'| - 1];
    assert last in rs && last' in rs';
    LastIsGreatest(rs, last');
    LastIsGreatest(rs', last);
  }

  lemma FrontMembers(rs: seq<Result>)
    requires Ascending(rs) && rs != []
    ensures Ascending(rs[..|rs| - 1]) && forall r :: r in rs[..|rs| - 1] <==> r in rs && r != rs[|rs| - 1]
  {
    assert rs == rs[..|rs| - 1] + [rs[|rs| - 1]];
    assert rs[|rs| - 1] !in rs[..|rs| - 1];
  }

  predicate HasIndex(rs: seq<Result>, k: nat) {
    exists i | 0 <= i < |rs| :: rs[i].index == k
  }

  /** Over the dataset's own indices, there is one result per item, at its own position. */
  lemma OneResultPerItem(rs: seq<Result>, c: Completed, n: nat)
    requires Keyed(c) && Ascending(rs) && Lists(rs, c) && forall k: nat :: k in c <==> k < n
    ensures |rs| == n && forall i | 0 <= i < n :: rs[i].index == i
  {
    forall k: nat | k < n
      ensures HasIndex(rs, k)
    {
      assert c[k] in rs && c[k].index == k;
    }
    assert forall i | 0 <= i < |rs| :: rs[i] in rs;
    Positions(rs, n);
  }

  lemma {:induction false} Positions(rs: seq<Result>, n: nat)
    requires Ascending(rs) && (forall i | 0 <= i < |rs| :: rs[i].index < n) && forall k: nat | k < n :: HasIndex(rs, k)
    ensures |rs| == n && forall i | 0 <= i < n :: rs[i].index == i
  {
    assert rs == [] || rs[0].index < n;
    if n > 0 {
      assert HasIndex(rs, n - 1);
      var m := |rs| - 1;
      assert rs[m].index == n - 1;
      forall k: nat | k < n - 1
        ensures HasIndex(rs[..m], k)
      {
        assert HasIndex(rs, k);
        var i :| 0 <= i < |rs| && rs[i].index == k;
        assert rs[..m][i].index == k;
      }
      Positions(rs[..m], n - 1);
    }
  }

  function Indices(rs: seq<Result>): set<nat> {
    if rs == [] then {} else Indices(rs[..|rs| - 1]) + {rs[|rs| - 1].index}
  }

  lemma {:induction false} IndicesSize(rs: seq<Result>)
    requires Ascending(rs)
    ensures |Indices(rs)| == |rs|
    ensures forall k: nat :: k in Indices(rs) <==> HasIndex(rs, k)
  {
    if rs != [] {
      hide HasIndex;
      var front, last := rs[..|rs| - 1], rs[|rs| - 1];
      IndicesSize(front);
      LastIsNew(rs);
      forall k: nat {
        FrontIndex(rs, k);
      }
    }
  }

  lemma LastIsNew(rs: seq<Result>)
    requires Ascending(rs) && rs != []
    ensures !HasIndex(rs[..|rs| - 1], rs[|rs| - 1].index)
  {
  }

  lemma FrontIndex(rs: seq<Result>, k: nat)
    requires rs != []
    ensures HasIndex(rs, k) <==> HasIndex(rs[..|rs| - 1], k) || k == rs[|rs| - 1].index
  {
    var front := rs[..|rs| - 1];
    if HasIndex(front, k) {
      var i :| 0 <= i < |front| && front[i].index == k;
      assert rs[i].index == k;
    }
    if HasIndex(rs, k) && k != rs[|rs| - 1].index {
      var i :| 0 <= i < |rs| && rs[i].index == k;
      assert front[i].index == k;
    }
  }

  lemma ListingIndices(rs: seq<Result>, c: Completed)
    requires Keyed(c) && Ascending(rs) && Lists(rs, c)
    ensures Indices(rs) == c.Keys
  {
    IndicesSize(rs);
    forall k: nat
      ensures HasIndex(rs, k) <==> k in c
    {
      if k in c {
        assert c[k] in rs;
      }
      if HasIndex(rs, k) {
        var i :| 0 <= i < |rs| && rs[i].index == k;
        assert rs[i] in rs;
      }
    }
  }

  /** The counts are the numbers of successes, of failures, and of successes with a saved trajectory. */
  lemma CountsMean(rs: seq<Result>)
    ensures Count(rs, OfSuccess) == |set i | 0 <= i < |rs| && rs[i].success|
    ensures Count(rs, OfFailure) == |set i | 0 <= i < |rs| && !rs[i].success|
    ensures Count(rs, OfTrajectory) == |set i | 0 <= i < |rs| && rs[i].success && rs[i].trajectory != ""|
  {
    CountIsSize(rs, OfSuccess);
    CountIsSize(rs, OfFailure);
    CountIsSize(rs, OfTrajectory);
    hide Count;
    assert Of(rs, OfSuccess) == set i | 0 <= i < |rs| && rs[i].success;
    assert Of(rs, OfFailure) == set i | 0 <= i < |rs| && !rs[i].success;
    assert Of(rs, OfTrajectory) == set i | 0 <= i < |rs| && rs[i].success && rs[i].trajectory != "";
  }

  ghost function Of(rs: seq<Result>, kind: Kind): set<int> {
    set i | 0 <= i < |rs| && Is(rs[i], kind)
  }

  lemma {:induction false} CountIsSize(rs: seq<Result>, kind: Kind)
    ensures Count(rs, kind) == |Of(rs, kind)|
  {
    hide Is;
    if rs != [] {
      var n := |rs| - 1;
      CountIsSize(rs[..n], kind);
      assert Of(rs, kind) == Of(rs[..n], kind) + if Is(rs[n], kind) then {n} else {};
    }
  }

  /** Every result is a success or a failure. */
  lemma {:induction false} CountsSplit(rs: seq<Result>)
    ensures Count(rs, OfSuccess) + Count(rs, OfFailure) == |rs|
  {
    if rs != [] {
      CountsSplit(rs[..|rs| - 1]);
    }
  }

  /** Succeeded and failed add up to the total exactly when the checkpoint held no index beyond the dataset. */
  lemma CountsAddUp<W>(items: seq<string>, chat: Chat<W>, p: Progress<W>, rs: seq<Result>)
    requires Keyed(Finish(items, chat, p).completed) && Ascending(rs) && Lists(rs, Finish(items, chat, p).completed)
    ensures Count(rs, OfSuccess) + Count(rs, OfFailure) == |items| <==> forall k | k in p.completed :: k < |items|
  {
    CountsSplit(rs);
    IndicesSize(rs);
    ListingIndices(rs, Finish(items, chat, p).completed);
    FinishCovers(items, chat, 0, p, |items|);
    RangeSize(0, |items|);
    BeyondRange(Indices(rs), p.completed.Keys, |items|);
  }

  /** Resuming an empty dataset from a checkpoint of an older, longer one counts one success out of none. */
  lemma StaleCheckpointMiscounts<W>(chat: Chat<W>, world: W) returns (p: Progress<W>, rs: seq<Result>)
    ensures var end := Finish([], chat, p);
            && Keyed(p.completed) && Ascending(rs) && Lists(rs, end.completed)
            && Count(rs, OfSuccess) + Count(rs, OfFailure) == 1
  {
    var r := Result(0, "p", true, "r", 1, "", "");
    p, rs := Progress(map[0 := r], world), [r];
    assert Finish([], chat, p) == p;
    CountsSplit(rs);
  }

  lemma BeyondRange(all: set<nat>, kept: set<nat>, n: nat)
    requires all == kept + Range(0, n)
    ensures |all| == |Range(0, n)| <==> forall k | k in kept :: k < n
  {
    hide Range;
    Extra(all, Range(0, n), kept - Range(0, n));
    assert kept - Range(0, n) == {} <==> forall k | k in kept :: k < n;
  }

  lemma Extra(all: set<nat>, base: set<nat>, more: set<nat>)
    requires all == base + more && base !! more
    ensures |all| == |base| + |more|
    ensures |all| == |base| <==> more == {}
  {
  }

  // ---------- sorting ----------

  function Insert(sorted: seq<Result>, r: Result): (out: seq<Result>)
    requires Ascending(sorted)
    ensures (forall q | q in sorted :: q.index != r.index) ==> Ascending(out)
    ensures forall q :: q in out <==> q in sorted || q == r
  {
    if sorted == [] || sorted[|sorted| - 1].index < r.index then sorted + [r]
    else
      var front, last := sorted[..|sorted| - 1], sorted[|sorted| - 1];
      assert sorted == front + [last];
      assert forall i | 0 <= i < |Insert(front, r)| :: Insert(front, r)[i] in Insert(front, r);
      Insert(front, r) + [last]
  }

  lemma {:induction false} InsertCounts(sorted: seq<Result>, r: Result, kind: Kind)
    requires Ascending(sorted)
    ensures Count(Insert(sorted, r), kind) == Count(sorted, kind) + if Is(r, kind) then 1 else 0
  {
    if sorted == [] || sorted[|sorted| - 1].index < r.index {
      assert (sorted + [r])[..|sorted|] == sorted;
    } else {
      var front, last := sorted[..|sorted| - 1], sorted[|sorted| - 1];
      InsertCounts(front, r, kind);
      assert Insert(sorted, r)[..|Insert(sorted, r)| - 1] == Insert(front, r);
    }
  }

  predicate Distinct(rs: seq<Result>) {
    forall i, j | 0 <= i < j < |rs| :: rs[i].index != rs[j].index
  }

  /** `sort.Slice` by index, for results with distinct indices. */
  method SortByIndex(rs: seq<Result>) returns (out: seq<Result>)
    requires Distinct(rs)
    ensures Ascending(out) && (forall r :: r in out <==> r in rs) && SameCounts(out, rs)
  {
    hide Count;
    out := [];
    for i := 0 to |rs|
      invariant Ascending(out) && (forall r :: r in out <==> r in rs[..i]) && SameCounts(out, rs[..i])
    {
      assert rs[..i + 1] == rs[..i] + [rs[i]];
      InsertSameCounts(out, rs[..i], rs[i]);
      out := Insert(out, rs[i]);
    }
    assert rs[..|rs|] == rs;
  }

  predicate SameCounts(a: seq<Result>, b: seq<Result>) {
    forall kind :: Count(a, kind) == Count(b, kind)
  }

  lemma InsertSameCounts(out: seq<Result>, rs: seq<Result>, r: Result)
    requires Ascending(out) && SameCounts(out, rs)
    ensures SameCounts(Insert(out, r), rs + [r])
  {
    assert (rs + [r])[..|rs|] == rs;
    forall kind { InsertCounts(out, r, kind); }
  }

  // ---------- the runner ----------

  /** How far a run from `start` has come: what is saved after each chat is what a run cut there leaves. */
  ghost predicate Going<W(!new)>(items: seq<string>, chat: Chat<W>, start: Progress<W>, index: nat, p: Progress<W>,
                                 saves: seq<Progress<W>>)
  {
    && |saves| <= index
    && (forall n: nat | |saves| <= n :: Advance(items, chat, 0, start, n) == Advance(items, chat, index, p, n - |saves|))
    && (forall k | 0 <= k < |saves| :: saves[k] == Advance(items, chat, 0, start, k + 1))
    && (saves == [] ==> p == start)
    && (saves != [] ==> saves[|saves| - 1] == p)
  }

  lemma GoStart<W(!new)>(items: seq<string>, chat: Chat<W>, start: Progress<W>)
    ensures Going(items, chat, start, 0, start, [])
  {
  }

  lemma GoSkip<W(!new)>(items: seq<string>, chat: Chat<W>, start: Progress<W>, index: nat, p: Progress<W>, saves: seq<Progress<W>>)
    requires Going(items, chat, start, index, p, saves) && index < |items| && index in p.completed
    ensures Going(items, chat, start, index + 1, p, saves)
  {
    forall n: nat | |saves| <= n
      ensures Advance(items, chat, 0, start, n) == Advance(items, chat, index + 1, p, n - |saves|)
    {
      assert Advance(items, chat, 0, start, n) == Advance(items, chat, index, p, n - |saves|);
    }
  }

  lemma GoChat<W(!new)>(items: seq<string>, chat: Chat<W>, start: Progress<W>, index: nat, p: Progress<W>,
                        saves: seq<Progress<W>>, p': Progress<W>)
    requires Going(items, chat, start, index, p, saves) && index < |items| && index !in p.completed
    requires var (world, outcome) := chat(p.world, items[index]);
             p' == Progress(p.completed[index := ResultOf(index, items[index], outcome)], world)
    ensures Going(items, chat, start, index + 1, p', saves + [p'])
  {
    forall n: nat | |saves| + 1 <= n
      ensures Advance(items, chat, 0, start, n) == Advance(items, chat, index + 1, p', n - |saves| - 1)
    {
      assert Advance(items, chat, 0, start, n) == Advance(items, chat, index, p, n - |saves|);
    }
  }

  lemma GoEnd<W(!new)>(items: seq<string>, chat: Chat<W>, start: Progress<W>, p: Progress<W>, saves: seq<Progress<W>>)
    requires Going(items, chat, start, |items|, p, saves)
    ensures Finish(items, chat, start) == p
    ensures forall k | 0 <= k < |saves| :: saves[k] == Advance(items, chat, 0, start, k + 1)
    ensures saves == [] ==> p == start
  {
    assert Advance(items, chat, 0, start, |items|) == Advance(items, chat, |items|, p, |items| - |saves|);
  }

  lemma ResultKinds(index: nat, prompt: string, outcome: Outcome)
    ensures var r := ResultOf(index, prompt, outcome);
            && r.index == index && (Is(r, OfSuccess) <==> outcome.Answered?) && (Is(r, OfFailure) <==> outcome.Failed?)
            && (Is(r, OfTrajectory) <==> outcome.Answered? && outcome.trajectory.Some?)
  {
  }

  /** Results and checkpoint in agreement. */
  predicate Tracked(rs: seq<Result>, c: Completed) {
    Distinct(rs) && Lists(rs, c) && Keyed(c)
  }

  lemma EmptySummary(total: nat)
    ensures Tracked([], map[]) && SummaryOf(total, []) == Summary(total, 0, 0, 0)
  {
  }

  lemma TrackOne(rs: seq<Result>, c: Completed, r: Result)
    requires Tracked(rs, c) && r.index !in c
    ensures Tracked(rs + [r], c[r.index := r])
    ensures forall kind :: Count(rs + [r], kind) == Count(rs, kind) + if Is(r, kind) then 1 else 0
  {
    forall i | 0 <= i < |rs|
      ensures rs[i].index != r.index
    {
      assert rs[i] in rs;
    }
    var c' := c[r.index := r];
    forall k | k in c'
      ensures c'[k] in rs + [r]
    {
      if k != r.index {
        assert c[k] in rs;
      }
    }
    assert (rs + [r])[..|rs|] == rs;
  }

  class BatchRunner<W(!new)> {
    var checkpoint: Option<Completed>
    var world: W

    constructor (world: W)
      ensures checkpoint == None && this.world == world
    {
      checkpoint, this.world := None, world;
    }

    /** Runs the batch. Its results are those of a finished run from the checkpoint, ascending by index, and the
        counts are theirs; `saves` is what the checkpoint file and the world were after each chat, in order. */
    method RunWithOptions(items: seq<string>, chat: Chat<W>, resume: bool)
      returns (results: seq<Result>, summary: Summary, ghost saves: seq<Progress<W>>)
      requires checkpoint.Some? ==> Keyed(checkpoint.value)
      modifies this
      ensures var start := Progress(if resume && old(checkpoint).Some? then old(checkpoint).value else map[], old(world));
              var end := Finish(items, chat, start);
              && world == end.world && Keyed(end.completed)
              && Ascending(results) && Lists(results, end.completed)
              && summary == SummaryOf(|items|, results)
              && checkpoint == (if saves == [] then old(checkpoint) else Some(end.completed))
              && (saves == [] ==> end == start)
              && (forall k | 0 <= k < |saves| :: saves[k] == Advance(items, chat, 0, start, k + 1))
    {
      hide Advance;
      hide Going;
      hide Count;
      hide Is;
      hide ResultOf;
      var completed: Completed := map[];
      results, saves := [], [];
      summary := Summary(|items|, 0, 0, 0);
      if resume && checkpoint.Some? {
        completed := checkpoint.value;
        results, summary := Restore(completed, |items|);
        results := SortByIndex(results);
      }
      ghost var start := Progress(completed, world);
      EmptySummary(|items|);
      GoStart(items, chat, start);
      for index := 0 to |items|
        invariant Tracked(results, completed) && summary == SummaryOf(|items|, results)
        invariant Going(items, chat, start, index, Progress(completed, world), saves)
        invariant checkpoint == if saves == [] then old(checkpoint) else Some(completed)
      {
        ghost var before := Progress(completed, world);
        if index in completed {
          GoSkip(items, chat, start, index, before, saves);
          continue;
        }
        var (world', outcome) := chat(world, items[index]);
        world := world';
        var result := ResultOf(index, items[index], outcome);
        ResultKinds(index, items[index], outcome);
        TrackOne(results, completed, result);
        if outcome.Failed? {
          summary := summary.(failed := summary.failed + 1);
        } else {
          if outcome.trajectory.Some? {
            summary := summary.(trajectories := summary.trajectories + 1);
          }
          summary := summary.(succeeded := summary.succeeded + 1);
        }
        results := results + [result];
        completed := completed[index := result];
        GoChat(items, chat, start, index, before, saves, Progress(completed, world));
        checkpoint := Some(completed);
        saves := saves + [Progress(completed, world)];
      }
      GoEnd(items, chat, start, Progress(completed, world), saves);
      results := SortByIndex(results);
    }

    /** Results and counts of a loaded checkpoint, in whatever order the map yields its entries. */
    method Restore(c: Completed, total: nat) returns (results: seq<Result>, summary: Summary)
      requires Keyed(c)
      ensures Tracked(results, c) && summary == SummaryOf(total, results)
    {
      hide Count;
      hide Tracked;
      EmptySummary(total);
      results := [];
      summary := Summary(total, 0, 0, 0);
      var left := c.Keys;
      ghost var seen: Completed := map[];
      while left != {}
        invariant left <= c.Keys && seen == c - left
        invariant Tracked(results, seen) && summary == SummaryOf(total, results)
        decreases |left|
      {
        var k :| k in left;
        left := left - {k};
        var result := c[k];
        TrackOne(results, seen, result);
        results := results + [result];
        if result.success {
          summary := summary.(succeeded := summary.succeeded + 1);
          if result.trajectory != "" {
            summary := summary.(trajectories := summary.trajectories + 1);
          }
        } else {
          summary := summary.(failed := summary.failed + 1);
        }
        seen := seen[k := result];
      }
      assert seen == c;
    }
  }
}
