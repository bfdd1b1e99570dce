/** The results of a plan's tasks and their aggregate. */
module Aggregator {
  import Recent

  datatype Status = Completed | Failed | Skipped | OtherStatus(name: string)

  datatype Result = Result(taskID: string, status: Status, summary: string,
                           risks: seq<string>, nextActions: seq<string>, filesChanged: seq<string>)

  datatype Aggregate = Aggregate(completed: nat, failed: nat, skipped: nat, summaries: seq<string>,
                                 risks: seq<string>, nextActions: seq<string>, filesChanged: seq<string>)

  function CountStatus(rs: seq<Result>, status: Status): (n: nat)
    ensures n <= |rs|
  {
    if rs == [] then 0
    else CountStatus(rs[..|rs| - 1], status) + if rs[|rs| - 1].status == status then 1 else 0
  }

  datatype Field = Summaries | Risks | NextActions | FilesChanged

  function Values(r: Result, field: Field): seq<string> {
    match field
    case Summaries => if r.summary != "" then [r.summary] else []
    case Risks => r.risks
    case NextActions => r.nextActions
    case FilesChanged => r.filesChanged
  }

  /** All values of one field, in result order. */
  function Flat(field: Field, rs: seq<Result>): seq<string> {
    if rs == [] then [] else Flat(field, rs[..|rs| - 1]) + Values(rs[|rs| - 1], field)
  }

  /** The elements of `s` in the order of their first occurrence. */
  function Distinct(s: seq<string>): (r: seq<string>)
    ensures forall x :: x in r <==> x in s
    ensures forall i, j | 0 <= i < j < |r| :: r[i] != r[j]
  {
    if s == [] then []
    else
      var r := Distinct(s[..|s| - 1]);
      var last := s[|s| - 1];
      assert forall x :: x in s <==> x in s[..|s| - 1] || x == last;
      if last in r then r else r + [last]
  }

  function FirstIndex(s: seq<string>, x: string): (k: nat)
    requires x in s
    ensures k < |s| && s[k] == x && x !in s[..k]
  {
    if s[0] == x then 0 else FirstIndex(s[1..], x) + 1
  }

  /** De-duplication keeps the order in which values were first seen. */
  lemma {:induction false} DistinctKeepsOrder(s: seq<string>, i: nat, j: nat)
    requires i < j < |Distinct(s)|
    ensures FirstIndex(s, Distinct(s)[i]) < FirstIndex(s, Distinct(s)[j])
  {
    var front := s[..|s| - 1];
    var x := Distinct(s)[i];
    assert x in front by {
      if j < |Distinct(front)| { assert Distinct(s)[i] == Distinct(front)[i]; }
    }
    FirstIndexPrefix(front, s, x);
    if j < |Distinct(front)| {
      DistinctKeepsOrder(front, i, j);
      FirstIndexPrefix(front, s, Distinct(s)[j]);
    } else {
      assert Distinct(s)[j] !in front;
      assert FirstIndex(s, Distinct(s)[j]) == |s| - 1;
    }
  }

  lemma FirstIndexPrefix(front: seq<string>, s: seq<string>, x: string)
    requires front <= s && x in front
    ensures FirstIndex(s, x) == FirstIndex(front, x)
  {
    if s[0] != x {
      FirstIndexPrefix(front[1..], s[1..], x);
    }
  }

  function AggregateOf(rs: seq<Result>): Aggregate {
    Aggregate(CountStatus(rs, Completed), CountStatus(rs, Failed), CountStatus(rs, Skipped),
              Flat(Summaries, rs), Distinct(Flat(Risks, rs)), Distinct(Flat(NextActions, rs)), Distinct(Flat(FilesChanged, rs)))
  }

  lemma DistinctOneMore(s: seq<string>, x: string)
    ensures Distinct(s + [x]) == if x in Distinct(s) then Distinct(s) else Distinct(s) + [x]
  {
    assert (s + [x])[..|s|] == s;
  }

  method AppendMissing(seen: seq<string>, more: seq<string>, ghost before: seq<string>) returns (out: seq<string>)
    requires seen == Distinct(before)
    ensures out == Distinct(before + more)
  {
    out := seen;
    assert before + more[..0] == before;
    assert before + more[..|more|] == before + more;
    for i := 0 to |more|
      invariant out == Distinct(before + more[..i])
    {
      assert before + more[..i + 1] == (before + more[..i]) + [more[i]];
      DistinctOneMore(before + more[..i], more[i]);
      if more[i] !in out {
        out := out + [more[i]];
      }
    }
  }

  lemma EmptyAggregate()
    ensures AggregateOf([]) == Aggregate(0, 0, 0, [], [], [], [])
  {
  }

  lemma AggregateOneMore(rs: seq<Result>, r: Result)
    ensures forall status :: CountStatus(rs + [r], status) == CountStatus(rs, status) + if r.status == status then 1 else 0
    ensures forall field :: Flat(field, rs + [r]) == Flat(field, rs) + Values(r, field)
  {
    assert (rs + [r])[..|rs|] == rs;
  }

  /** Positions of the results with a status. */
  function Having(rs: seq<Result>, status: Status): set<int> {
    set i | 0 <= i < |rs| && rs[i].status == status
  }

  predicate Lists(rs: seq<Result>, field: Field, x: string) {
    exists i | 0 <= i < |rs| :: Mentions(rs[i], field, x)
  }

  predicate Mentions(r: Result, field: Field, x: string) {
    match field
    case Summaries => x == r.summary != ""
    case Risks => x in r.risks
    case NextActions => x in r.nextActions
    case FilesChanged => x in r.filesChanged
  }

  /** What an aggregate says of its results, without reference to how it was gathered. */
  ghost predicate Summarises(rs: seq<Result>, out: Aggregate) {
    && out.completed == |Having(rs, Completed)| && out.failed == |Having(rs, Failed)| && out.skipped == |Having(rs, Skipped)|
    && out.summaries == Recent.Filter(seq(|rs|, i requires 0 <= i < |rs| => rs[i].summary), s => s != "")
    && (forall x :: x in out.risks <==> Lists(rs, Risks, x))
    && (forall x :: x in out.nextActions <==> Lists(rs, NextActions, x))
    && (forall x :: x in out.filesChanged <==> Lists(rs, FilesChanged, x))
    && NoRepeats(out.risks) && NoRepeats(out.nextActions) && NoRepeats(out.filesChanged)
  }

  predicate NoRepeats(s: seq<string>) {
    forall i, j | 0 <= i < j < |s| :: s[i] != s[j]
  }

  lemma {:induction false} CountIsSize(rs: seq<Result>, status: Status)
    ensures CountStatus(rs, status) == |Having(rs, status)|
  {
    if rs != [] {
      var n := |rs| - 1;
      CountIsSize(rs[..n], status);
      assert Having(rs, status) == Having(rs[..n], status) + if rs[n].status == status then {n} else {};
    }
  }

  lemma {:induction false} FlatLists(rs: seq<Result>, field: Field, x: string)
    ensures x in Flat(field, rs) <==> Lists(rs, field, x)
  {
    if rs != [] {
      var n := |rs| - 1;
      FlatLists(rs[..n], field, x);
      assert x in Values(rs[n], field) <==> Mentions(rs[n], field, x);
      if Lists(rs[..n], field, x) {
        var i :| 0 <= i < n && Mentions(rs[..n][i], field, x);
        assert Mentions(rs[i], field, x);
      }
      if Lists(rs, field, x) && !Mentions(rs[n], field, x) {
        var i :| 0 <= i < |rs| && Mentions(rs[i], field, x);
        assert Mentions(rs[..n][i], field, x);
      }
    }
  }

  lemma {:induction false} FlatSummaries(rs: seq<Result>)
    ensures Flat(Summaries, rs) == Recent.Filter(seq(|rs|, i requires 0 <= i < |rs| => rs[i].summary), s => s != "")
  {
    if rs != [] {
      var n := |rs| - 1;
      FlatSummaries(rs[..n]);
      var all := seq(|rs|, i requires 0 <= i < |rs| => rs[i].summary);
      assert all[..n] == seq(n, i requires 0 <= i < n => rs[..n][i].summary);
    }
  }

  lemma DistinctLists(rs: seq<Result>, field: Field)
    ensures forall x :: x in Distinct(Flat(field, rs)) <==> Lists(rs, field, x)
    ensures NoRepeats(Distinct(Flat(field, rs)))
  {
    hide Flat;
    hide Lists;
    forall x ensures x in Flat(field, rs) <==> Lists(rs, field, x) {
      FlatLists(rs, field, x);
    }
    hide Distinct;
  }

  /** An aggregate counts every result under its status and lists exactly what the results list. */
  lemma AggregateMeans(rs: seq<Result>)
    ensures Summarises(rs, AggregateOf(rs))
  {
    hide Flat;
    hide Lists;
    hide CountStatus;
    hide Distinct;
    hide Having;
    hide NoRepeats;
    hide Recent.Filter;
    CountIsSize(rs, Completed);
    CountIsSize(rs, Failed);
    CountIsSize(rs, Skipped);
    FlatSummaries(rs);
    DistinctLists(rs, Risks);
    DistinctLists(rs, NextActions);
    DistinctLists(rs, FilesChanged);
  }

  method Collect(results: seq<Result>) returns (out: Aggregate)
    ensures out == AggregateOf(results) && Summarises(results, out)
  {
    hide Summarises;
    hide AggregateOf;
    out := Gather(results);
    AggregateMeans(results);
  }

  method Gather(results: seq<Result>) returns (out: Aggregate)
    ensures out == AggregateOf(results)
  {
    EmptyAggregate();
    hide Flat;
    hide CountStatus;
    hide Distinct;
    out := Aggregate(0, 0, 0, [], [], [], []);
    for i := 0 to |results|
      invariant out == AggregateOf(results[..i])
    {
      var result := results[i];
      var rs := results[..i + 1];
      assert rs == results[..i] + [result];
      AggregateOneMore(results[..i], result);
      match result.status {
        case Completed => out := out.(completed := out.completed + 1);
        case Failed => out := out.(failed := out.failed + 1);
        case Skipped => out := out.(skipped := out.skipped + 1);
        case OtherStatus(_) =>
      }
      if result.summary != "" {
        out := out.(summaries := out.summaries + [result.summary]);
      }
      var risks := AppendMissing(out.risks, result.risks, Flat(Risks, results[..i]));
      var actions := AppendMissing(out.nextActions, result.nextActions, Flat(NextActions, results[..i]));
      var files := AppendMissing(out.filesChanged, result.filesChanged, Flat(FilesChanged, results[..i]));
      out := out.(risks := risks, nextActions := actions, filesChanged := files);
    }
    assert results[..|results|] == results;
  }

  /** Every result of a known status is counted exactly once. */
  lemma {:induction false} CountsAddUp(rs: seq<Result>)
    requires forall r | r in rs :: !r.status.OtherStatus?
    ensures var a := AggregateOf(rs); a.completed + a.failed + a.skipped == |rs|
  {
    if rs != [] {
      CountsAddUp(rs[..|rs| - 1]);
    }
  }
}
