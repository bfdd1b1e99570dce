/** The session and message tables: auto-increment ids, one statement or transaction per method. */
module Store {
  import Recent

  datatype Option<T> = None | Some(value: T) {
    function GetOr(default: T): T {
      if Some? then value else default
    }
  }

  datatype Session = Session(id: nat, username: string, model: string, prompt: string, response: string, kind: string)

  datatype Row = Row(id: nat, session: nat, role: string, content: string)

  datatype Tables = Tables(sessions: seq<Session>, messages: seq<Row>, nextSession: nat, nextMessage: nat)

  const EMPTY := Tables([], [], 1, 1)

  /** Ids rise through each table and stay below the next one; messages belong to issued sessions. */
  predicate Valid(t: Tables) {
    && t.nextSession > 0
    && (forall i | 0 <= i < |t.sessions| :: 0 < t.sessions[i].id < t.nextSession)
    && (forall i, j | 0 <= i < j < |t.sessions| :: t.sessions[i].id < t.sessions[j].id)
    && (forall i | 0 <= i < |t.messages| :: t.messages[i].id < t.nextMessage && t.messages[i].session < t.nextSession)
    && (forall i, j | 0 <= i < j < |t.messages| :: t.messages[i].id < t.messages[j].id)
  }

  // ---------- sessions ----------

  function Find(sessions: seq<Session>, id: nat): (k: int)
    ensures -1 <= k < |sessions|
    ensures k >= 0 ==> sessions[k].id == id
    ensures k < 0 ==> forall i | 0 <= i < |sessions| :: sessions[i].id != id
  {
    if sessions == [] then -1
    else if sessions[|sessions| - 1].id == id then |sessions| - 1
    else Find(sessions[..|sessions| - 1], id)
  }

  function GetSession(t: Tables, id: nat): Option<Session> {
    var k := Find(t.sessions, id);
    if k < 0 then None else Some(t.sessions[k])
  }

  function OwnedBy(username: string): Session -> bool {
    (s: Session) => s.username == username
  }

  /** `ORDER BY id DESC LIMIT 1` over a user's sessions. */
  function Latest(t: Tables, username: string): Option<Session> {
    var mine := Recent.Filter(t.sessions, OwnedBy(username));
    if mine == [] then None else Some(mine[|mine| - 1])
  }

  /** It is the user's session of the greatest id; without one the user has no session. */
  lemma LatestIsNewest(t: Tables, username: string)
    requires Valid(t)
    ensures var found := Latest(t, username);
            && (found.None? ==> forall r | r in t.sessions :: r.username != username)
            && (found.Some? ==> found.value in t.sessions && found.value.username == username)
            && (found.Some? ==> forall r | r in t.sessions && r.username == username :: r.id <= found.value.id)
  {
    NewestKept(t.sessions, OwnedBy(username));
    Recent.FilterKeeps(t.sessions, OwnedBy(username));
    var mine := Recent.Filter(t.sessions, OwnedBy(username));
    if mine != [] {
      assert mine[|mine| - 1] in mine;
    }
    forall r | r in t.sessions && r.username == username
      ensures mine != []
    {
      assert r in mine;
    }
  }

  lemma {:induction false} NewestKept(sessions: seq<Session>, keep: Session -> bool)
    requires forall i, j | 0 <= i < j < |sessions| :: sessions[i].id < sessions[j].id
    ensures var kept := Recent.Filter(sessions, keep);
            forall r | r in sessions && keep(r) :: kept != [] && r.id <= kept[|kept| - 1].id
  {
    if sessions != [] {
      var front := sessions[..|sessions| - 1];
      NewestKept(front, keep);
      var kept := Recent.Filter(sessions, keep);
      forall r | r in sessions && keep(r)
        ensures kept != [] && r.id <= kept[|kept| - 1].id
      {
        if keep(sessions[|sessions| - 1]) {
          assert kept[|kept| - 1] == sessions[|sessions| - 1];
        } else {
          assert r in front && kept == Recent.Filter(front, keep);
        }
      }
    }
  }

  function CreateSession(t: Tables, username: string, model: string, prompt: string, response: string, kind: string): Tables {
    t.(sessions := t.sessions + [Session(t.nextSession, username, model, prompt, response, if kind == "" then "chat" else kind)],
       nextSession := t.nextSession + 1)
  }

  function SetSession(t: Tables, id: nat, prompt: Option<string>, response: string): Tables {
    var k := Find(t.sessions, id);
    if k < 0 then t
    else
      var s := t.sessions[k];
      t.(sessions := t.sessions[k := s.(response := response, prompt := if prompt.Some? then prompt.value else s.prompt)])
  }

  function UpdateResponse(t: Tables, id: nat, response: string): Tables {
    SetSession(t, id, None, response)
  }

  // ---------- messages ----------

  function InSession(id: nat): Row -> bool {
    (r: Row) => r.session == id
  }

  /** The transcript of one session, oldest first. */
  function Of(t: Tables, id: nat): (rows: seq<Row>) {
    Recent.Filter(t.messages, InSession(id))
  }

  function AddMessage(t: Tables, id: nat, role: string, content: string): Tables {
    t.(messages := t.messages + [Row(t.nextMessage, id, role, content)], nextMessage := t.nextMessage + 1)
  }

  lemma AddAppends(t: Tables, id: nat, role: string, content: string)
    ensures var t' := AddMessage(t, id, role, content);
            Of(t', id) == Of(t, id) + [Row(t.nextMessage, id, role, content)]
            && forall other :: other != id ==> Of(t', other) == Of(t, other)
  {
    var row := Row(t.nextMessage, id, role, content);
    forall other: nat
      ensures Of(AddMessage(t, id, role, content), other) == Of(t, other) + if other == id then [row] else []
    {
      AppendOne(t.messages, row, other);
    }
  }

  lemma AppendOne(rows: seq<Row>, row: Row, id: nat)
    ensures Recent.Filter(rows + [row], InSession(id)) ==
            Recent.Filter(rows, InSession(id)) + if row.session == id then [row] else []
  {
    assert (rows + [row])[..|rows|] == rows;
  }

  function Without(ids: set<nat>): Row -> bool {
    (r: Row) => r.id !in ids
  }

  function LastOf(rows: seq<Row>, role: string): string {
    if rows == [] then ""
    else if rows[|rows| - 1].role == role then rows[|rows| - 1].content
    else LastOf(rows[..|rows| - 1], role)
  }

  datatype Deleted = NoFullTurn | NotAPair | Done(tables: Tables)

  /** Deletes the newest user/assistant pair of a session and refreshes the session row from what is left. */
  function DeleteLastTurn(t: Tables, id: nat): Deleted {
    var mine := Of(t, id);
    var n := |mine|;
    if n < 2 then NoFullTurn
    else if mine[n - 1].role != "assistant" || mine[n - 2].role != "user" then NotAPair
    else
      var t := t.(messages := Recent.Filter(t.messages, Without({mine[n - 1].id, mine[n - 2].id})));
      Done(SetSession(t, id, Some(LastOf(Of(t, id), "user")), LastOf(Of(t, id), "assistant")))
  }

  function LastTwo(t: Tables, id: nat): set<nat>
    requires |Of(t, id)| >= 2
  {
    {Of(t, id)[|Of(t, id)| - 1].id, Of(t, id)[|Of(t, id)| - 2].id}
  }

  function CutLastTwo(t: Tables, id: nat): Tables
    requires |Of(t, id)| >= 2
  {
    t.(messages := Recent.Filter(t.messages, Without(LastTwo(t, id))))
  }

  lemma CutOwn(t: Tables, id: nat)
    requires Valid(t) && |Of(t, id)| >= 2
    ensures Of(CutLastTwo(t, id), id) == Of(t, id)[..|Of(t, id)| - 2]
  {
    var mine, keep := Of(t, id), Without(LastTwo(t, id));
    var n := |mine|;
    RowsRise(t, id);
    Recent.FilterSwap(t.messages, keep, InSession(id));
    assert mine == mine[..n - 2] + [mine[n - 2], mine[n - 1]];
    Recent.FilterConcat(mine[..n - 2], [mine[n - 2], mine[n - 1]], keep);
    Recent.FilterAll(mine[..n - 2], keep);
    Recent.FilterNone([mine[n - 2], mine[n - 1]], keep);
  }

  lemma CutOther(t: Tables, id: nat, other: nat)
    requires Valid(t) && |Of(t, id)| >= 2 && other != id
    ensures Of(CutLastTwo(t, id), other) == Of(t, other)
  {
    var keep := Without(LastTwo(t, id));
    Recent.FilterSwap(t.messages, keep, InSession(other));
    var mine := Of(t, id);
    assert mine[|mine| - 1] in mine && mine[|mine| - 2] in mine;
    OthersKept(t, id, other, LastTwo(t, id));
    Recent.FilterAll(Of(t, other), keep);
  }

  /** Deleting the last turn cuts two rows off that transcript and leaves every other transcript alone. */
  lemma DeleteCuts(t: Tables, id: nat)
    requires Valid(t) && DeleteLastTurn(t, id).Done?
    ensures var t' := DeleteLastTurn(t, id).tables;
            && Of(t', id) == Of(t, id)[..|Of(t, id)| - 2]
            && (forall other :: other != id ==> Of(t', other) == Of(t, other))
            && t'.nextSession == t.nextSession && t'.nextMessage == t.nextMessage
  {
    hide Recent.Filter;
    CutOwn(t, id);
    forall other: nat | other != id
      ensures Of(DeleteLastTurn(t, id).tables, other) == Of(t, other)
    {
      CutOther(t, id, other);
    }
  }

  /** A transcript is in id order, and its rows are rows of the table. */
  lemma RowsRise(t: Tables, id: nat)
    requires Valid(t)
    ensures forall i, j | 0 <= i < j < |Of(t, id)| :: Of(t, id)[i].id < Of(t, id)[j].id
    ensures forall i | 0 <= i < |Of(t, id)| :: Of(t, id)[i] in t.messages && Of(t, id)[i].session == id
  {
    FilterRises(t.messages, InSession(id));
    Recent.FilterKeeps(t.messages, InSession(id));
    forall i | 0 <= i < |Of(t, id)|
      ensures Of(t, id)[i] in t.messages && Of(t, id)[i].session == id
    {
      assert Of(t, id)[i] in Of(t, id);
    }
  }

  lemma {:induction false} FilterRises(rows: seq<Row>, keep: Row -> bool)
    requires forall i, j | 0 <= i < j < |rows| :: rows[i].id < rows[j].id
    ensures forall i, j | 0 <= i < j < |Recent.Filter(rows, keep)| :: Recent.Filter(rows, keep)[i].id < Recent.Filter(rows, keep)[j].id
    ensures forall i | 0 <= i < |Recent.Filter(rows, keep)| :: rows != [] && Recent.Filter(rows, keep)[i].id <= rows[|rows| - 1].id
  {
    if rows != [] {
      var front, last := rows[..|rows| - 1], rows[|rows| - 1];
      FilterRises(front, keep);
      var f := Recent.Filter(front, keep);
      forall i | 0 <= i < |f|
        ensures f[i].id < last.id
      {
        assert front != [] && f[i].id <= front[|front| - 1].id;
      }
      assert Recent.Filter(rows, keep) == f + if keep(last) then [last] else [];
    } else {
      assert Recent.Filter(rows, keep) == [];
    }
  }

  lemma OthersKept(t: Tables, id: nat, other: nat, ids: set<nat>)
    requires Valid(t) && other != id && forall x | x in ids :: exists r | r in Of(t, id) :: r.id == x
    ensures forall i | 0 <= i < |Of(t, other)| :: Without(ids)(Of(t, other)[i])
  {
    RowsRise(t, id);
    RowsRise(t, other);
    forall i | 0 <= i < |Of(t, other)|
      ensures Of(t, other)[i].id !in ids
    {
      var mine := Of(t, other)[i];
      if mine.id in ids {
        var r :| r in Of(t, id) && r.id == mine.id;
        var j :| 0 <= j < |Of(t, id)| && Of(t, id)[j] == r;
        SameRow(t, mine, r);
      }
    }
  }

  lemma SameRow(t: Tables, a: Row, b: Row)
    requires Valid(t) && a in t.messages && b in t.messages && a.id == b.id
    ensures a == b
  {
    var i :| 0 <= i < |t.messages| && t.messages[i] == a;
    var j :| 0 <= j < |t.messages| && t.messages[j] == b;
  }

  // ---------- validity ----------

  lemma CreateValid(t: Tables, username: string, model: string, prompt: string, response: string, kind: string)
    requires Valid(t)
    ensures Valid(CreateSession(t, username, model, prompt, response, kind))
  {
  }

  lemma AddValid(t: Tables, id: nat, role: string, content: string)
    requires Valid(t) && id < t.nextSession
    ensures Valid(AddMessage(t, id, role, content))
  {
  }

  lemma SetValid(t: Tables, id: nat, prompt: Option<string>, response: string)
    requires Valid(t)
    ensures Valid(SetSession(t, id, prompt, response))
  {
  }

  lemma CutValid(t: Tables, id: nat)
    requires Valid(t) && |Of(t, id)| >= 2
    ensures Valid(CutLastTwo(t, id))
  {
    var keep, t1 := Without(LastTwo(t, id)), CutLastTwo(t, id);
    FilterRises(t.messages, keep);
    Recent.FilterKeeps(t.messages, keep);
    forall i | 0 <= i < |t1.messages|
      ensures t1.messages[i].id < t.nextMessage && t1.messages[i].session < t.nextSession
    {
      assert t1.messages[i] in t1.messages;
    }
  }

  lemma DeleteValid(t: Tables, id: nat)
    requires Valid(t) && DeleteLastTurn(t, id).Done?
    ensures Valid(DeleteLastTurn(t, id).tables)
  {
    CutValid(t, id);
    var t1 := CutLastTwo(t, id);
    SetValid(t1, id, Some(LastOf(Of(t1, id), "user")), LastOf(Of(t1, id), "assistant"));
  }

  /** With rising ids there is one row per session id. */
  lemma FindUnique(t: Tables, k: nat)
    requires Valid(t) && k < |t.sessions|
    ensures Find(t.sessions, t.sessions[k].id) == k
  {
    var j := Find(t.sessions, t.sessions[k].id);
  }

  // ---------- the store ----------

  class SessionStore {
    var sessions: seq<Session>
    var messages: seq<Row>
    var nextSession: nat
    var nextMessage: nat

    constructor ()
      ensures View() == EMPTY
    {
      sessions, messages, nextSession, nextMessage := [], [], 1, 1;
    }

    function View(): Tables
      reads this
    {
      Tables(sessions, messages, nextSession, nextMessage)
    }

    method Create(username: string, model: string, prompt: string, response: string, kind: string) returns (id: nat)
      modifies this
      ensures View() == CreateSession(old(View()), username, model, prompt, response, kind) && id == old(nextSession)
    {
      id := nextSession;
      var stored := kind;
      if stored == "" {
        stored := "chat";
      }
      sessions := sessions + [Session(id, username, model, prompt, response, stored)];
      nextSession := nextSession + 1;
    }

    method Add(id: nat, role: string, content: string)
      modifies this
      ensures View() == AddMessage(old(View()), id, role, content)
    {
      messages := messages + [Row(nextMessage, id, role, content)];
      nextMessage := nextMessage + 1;
    }

    method Update(id: nat, prompt: Option<string>, response: string)
      modifies this
      ensures View() == SetSession(old(View()), id, prompt, response)
    {
      var k := Find(sessions, id);
      if k >= 0 {
        var s := sessions[k].(response := response);
        if prompt.Some? {
          s := s.(prompt := prompt.value);
        }
        sessions := sessions[k := s];
      }
    }

    method Get(id: nat) returns (found: Option<Session>)
      ensures found == GetSession(View(), id)
    {
      var k := |sessions| - 1;
      assert sessions[..|sessions|] == sessions;
      while k >= 0
        invariant -1 <= k < |sessions|
        invariant Find(sessions, id) == Find(sessions[..k + 1], id)
      {
        assert sessions[..k + 1][..k] == sessions[..k];
        if sessions[k].id == id {
          return Some(sessions[k]);
        }
        k := k - 1;
      }
      return None;
    }

    /** The two newest rows of a session, the rows they leave, and the refreshed session row, in one transaction. */
    method DeleteTurn(id: nat) returns (result: Deleted)
      modifies this
      ensures result == DeleteLastTurn(old(View()), id)
      ensures View() == if result.Done? then result.tables else old(View())
    {
      var newest := Recent.ScanBack(messages, InSession(id), 2);
      if |newest| < 2 {
        return NoFullTurn;
      }
      if newest[1].role != "assistant" || newest[0].role != "user" {
        return NotAPair;
      }
      messages := Recent.Filter(messages, Without({newest[1].id, newest[0].id}));
      var prompt := LastOf(Of(View(), id), "user");
      var response := LastOf(Of(View(), id), "assistant");
      Update(id, Some(prompt), response);
      return Done(View());
    }

    /** The newest `limit` messages of one session, oldest of them first. */
    method ListRecent(id: nat, limit: int) returns (rows: seq<Row>)
      ensures rows == if limit <= 0 then [] else Recent.LastN(Of(View(), id), limit)
    {
      if limit <= 0 {
        return [];
      }
      rows := Recent.ScanBack(messages, InSession(id), limit);
    }
  }
}
