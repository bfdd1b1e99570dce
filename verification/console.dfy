/** The interactive console: a stack of turns kept in step with the transcript of the active session. */
module Console {
  import opened Store
  import Recent

  datatype Chat = Chat(session: nat, model: string, prompt: string, response: string)

  const NO_CHAT := Chat(0, "", "", "")

  datatype Turn = Turn(session: nat, prompt: string, response: string, model: string, managed: bool)

  datatype Desk = Desk(user: string, turnCount: int, turns: seq<Turn>, lastChat: Chat, active: nat, managed: bool)

  datatype State = State(desk: Desk, tables: Tables)

  datatype ResumeTarget = Newest | Numbered(id: nat) | Malformed

  /** One line at the prompt, with what the model answers (if it does) or whether the password was right. */
  datatype Command =
    | Say(text: string, reply: Option<string>, model: string)
    | Undo
    | Retry(reply: Option<string>, model: string)
    | Resume(target: ResumeTarget)
    | New
    | Login(user: string, ok: bool)
    | CronTick(chats: seq<JobChat>)
    | Other

  /** A chat a due job makes, in a new session of the job's own user. */
  datatype JobChat = JobChat(user: string, prompt: string, reply: Option<string>, model: string)

  // ---------- one chat turn ----------

  function Exchange(t: Tables, id: nat, prompt: string, response: string): Tables {
    AddMessage(AddMessage(t, id, "user", prompt), id, "assistant", response)
  }

  /** A chat turn: nothing is written unless the model answers and, when reusing a session, the session is the user's. */
  function ChatTurn(t: Tables, user: string, id: nat, reuse: bool, prompt: string, reply: Option<string>, model: string)
    : (Tables, Option<Chat>)
  {
    if reply.None? then (t, None)
    else if reuse then
      var found := GetSession(t, id);
      if found.None? || found.value.username != user then (t, None)
      else (Exchange(UpdateResponse(t, id, reply.value), id, prompt, reply.value), Some(Chat(id, model, prompt, reply.value)))
    else
      var t1 := CreateSession(t, user, model, prompt, reply.value, "");
      (Exchange(t1, t.nextSession, prompt, reply.value), Some(Chat(t.nextSession, model, prompt, reply.value)))
  }

  function Recorded(d: Desk, chat: Chat, managed: bool): Desk {
    d.(lastChat := chat, turnCount := d.turnCount + 1,
       turns := d.turns + [Turn(chat.session, chat.prompt, chat.response, chat.model, managed)])
  }

  function Cleared(d: Desk): Desk {
    Desk(d.user, 0, [], NO_CHAT, 0, false)
  }

  function Popped(d: Desk): Desk
    requires d.turns != []
  {
    d.(turns := d.turns[..|d.turns| - 1], turnCount := if d.turnCount > 0 then d.turnCount - 1 else d.turnCount)
  }

  function Snapshot(s: Session): Chat {
    Chat(s.id, s.model, s.prompt, s.response)
  }

  // ---------- the commands ----------

  function SayStep(s: State, text: string, reply: Option<string>, model: string): State {
    var d := s.desk;
    var (t, chat) := ChatTurn(s.tables, d.user, d.active, d.active > 0, text, reply, model);
    match chat
    case None => s.(tables := t)
    case Some(c) =>
      var d1 := Recorded(d, c, if d.active > 0 then d.managed else true);
      State(if d.active == 0 && c.session > 0 then d1.(active := c.session, managed := true) else d1, t)
  }

  function UndoStep(s: State): State {
    var d := s.desk;
    if d.turns == [] then s
    else
      var last := d.turns[|d.turns| - 1];
      if !last.managed then s
      else
        match DeleteLastTurn(s.tables, last.session)
        case NoFullTurn => s
        case NotAPair => s
        case Done(t) =>
          var d1 := Popped(d);
          var d2 := d1.(lastChat := if d1.turns == [] then NO_CHAT
                                    else var p := d1.turns[|d1.turns| - 1]; Chat(p.session, p.model, p.prompt, p.response));
          var found := GetSession(t, last.session);
          var d3 := if (d2.turns == [] || d2.active == last.session) && found.Some?
                    then d2.(lastChat := Snapshot(found.value), active := found.value.id, managed := true) else d2;
          State(if d3.turns == [] && d3.lastChat.session == 0 then d3.(active := 0, managed := false) else d3, t)
  }

  function RetryStep(s: State, reply: Option<string>, model: string): State {
    var d := s.desk;
    if d.turns == [] then s
    else
      var last := d.turns[|d.turns| - 1];
      if !last.managed then s
      else
        match DeleteLastTurn(s.tables, last.session)
        case NoFullTurn => s
        case NotAPair => s
        case Done(t) =>
          var (t', chat) := ChatTurn(t, d.user, last.session, true, last.prompt, reply, model);
          match chat
          case None => State(Popped(d), t')
          case Some(c) => State(Recorded(Popped(d), c, true), t')
  }

  function ResumeStep(s: State, target: ResumeTarget): State {
    var found := match target
      case Newest => Latest(s.tables, s.desk.user)
      case Numbered(id) => if id == 0 then None else GetSession(s.tables, id)
      case Malformed => None;
    if found.None? || found.value.username != s.desk.user then s
    else s.(desk := Desk(s.desk.user, 0, [], Snapshot(found.value), found.value.id, false))
  }

  function TickChats(t: Tables, chats: seq<JobChat>): Tables {
    if chats == [] then t
    else
      var last := chats[|chats| - 1];
      ChatTurn(TickChats(t, chats[..|chats| - 1]), last.user, 0, false, last.prompt, last.reply, last.model).0
  }

  function Step(s: State, c: Command): State {
    match c
    case Say(text, reply, model) => SayStep(s, text, reply, model)
    case Undo => UndoStep(s)
    case Retry(reply, model) => RetryStep(s, reply, model)
    case Resume(target) => ResumeStep(s, target)
    case New => s.(desk := Cleared(s.desk))
    case Login(user, ok) => if ok then s.(desk := Cleared(s.desk.(user := user))) else s
    case CronTick(chats) => s.(tables := TickChats(s.tables, chats))
    case Other => s
  }

  function Run(s: State, cs: seq<Command>): State
    decreases |cs|
  {
    if cs == [] then s else Run(Step(s, cs[0]), cs[1..])
  }

  // ---------- the invariant ----------

  /** The transcript two rows a turn. */
  predicate Spells(rows: seq<Row>, turns: seq<Turn>) {
    && |rows| == 2 * |turns|
    && forall k | 0 <= k < |turns| ::
         rows[2 * k].role == "user" && rows[2 * k].content == turns[k].prompt
         && rows[2 * k + 1].role == "assistant" && rows[2 * k + 1].content == turns[k].response
  }

  /** What stood in the active session before the turns of this console. */
  function Base(s: State): seq<Row>
    requires |Of(s.tables, s.desk.active)| >= 2 * |s.desk.turns|
  {
    Of(s.tables, s.desk.active)[..|Of(s.tables, s.desk.active)| - 2 * |s.desk.turns|]
  }

  predicate DeskOk(s: State) {
    var d := s.desk;
    && d.turnCount == |d.turns|
    && (forall k | 0 <= k < |d.turns| :: d.turns[k].session == d.active && d.turns[k].managed == d.managed)
    && (d.active == 0 ==> d.turns == [] && !d.managed)
    && (d.active > 0 ==> GetSession(s.tables, d.active).Some? && GetSession(s.tables, d.active).value.username == d.user)
  }

  /** The active transcript is its base followed by the turns, and a managed session has no base. */
  predicate InStep(s: State) {
    var rows, d := Of(s.tables, s.desk.active), s.desk;
    d.active == 0 || (
      && |rows| >= 2 * |d.turns|
      && Spells(rows[|rows| - 2 * |d.turns|..], d.turns)
      && (d.managed ==> Base(s) == []))
  }

  predicate Inv(s: State) {
    Valid(s.tables) && DeskOk(s) && InStep(s)
  }

  // ---------- effect of the store's operations ----------

  lemma FindSet(t: Tables, id: nat, prompt: Option<string>, response: string, other: nat)
    requires Valid(t)
    ensures var t' := SetSession(t, id, prompt, response);
            && (GetSession(t', other).Some? <==> GetSession(t, other).Some?)
            && (GetSession(t, other).Some? ==>
                  var was := GetSession(t, other).value;
                  GetSession(t', other).value ==
                  if other == id then was.(response := response, prompt := if prompt.Some? then prompt.value else was.prompt)
                  else was)
  {
    var t' := SetSession(t, id, prompt, response);
    SetValid(t, id, prompt, response);
    var k := Find(t.sessions, other);
    if k >= 0 {
      FindUnique(t', k);
    } else {
      assert forall i | 0 <= i < |t.sessions| :: t'.sessions[i].id == t.sessions[i].id;
    }
  }

  lemma FindCreated(t: Tables, user: string, model: string, prompt: string, response: string)
    requires Valid(t)
    ensures var t' := CreateSession(t, user, model, prompt, response, "");
            GetSession(t', t.nextSession) == Some(Session(t.nextSession, user, model, prompt, response, "chat"))
    ensures Of(t, t.nextSession) == []
  {
    var t' := CreateSession(t, user, model, prompt, response, "");
    assert t'.sessions[|t.sessions|].id == t.nextSession;
    Recent.FilterNone(t.messages, InSession(t.nextSession));
  }

  /** A successful exchange appends one user and one assistant row to that transcript only. */
  lemma ExchangeAppends(t: Tables, id: nat, prompt: string, response: string)
    requires Valid(t) && id < t.nextSession
    ensures var t' := Exchange(t, id, prompt, response);
            && Valid(t')
            && Of(t', id) == Of(t, id) + [Row(t.nextMessage, id, "user", prompt), Row(t.nextMessage + 1, id, "assistant", response)]
            && (forall other :: other != id ==> Of(t', other) == Of(t, other))
  {
    var t1 := AddMessage(t, id, "user", prompt);
    AddValid(t, id, "user", prompt);
    AddValid(t1, id, "assistant", response);
    AddAppends(t, id, "user", prompt);
    AddAppends(t1, id, "assistant", response);
  }

  lemma SpellsPush(rows: seq<Row>, turns: seq<Turn>, u: Row, a: Row, turn: Turn)
    requires Spells(rows, turns)
    requires u.role == "user" && u.content == turn.prompt && a.role == "assistant" && a.content == turn.response
    ensures Spells(rows + [u, a], turns + [turn])
  {
  }

  lemma SpellsPop(rows: seq<Row>, turns: seq<Turn>)
    requires Spells(rows, turns) && turns != []
    ensures Spells(rows[..|rows| - 2], turns[..|turns| - 1])
    ensures rows[|rows| - 1].role == "assistant" && rows[|rows| - 2].role == "user"
  {
    var k := |turns| - 1;
    assert rows[2 * k].role == "user" && rows[2 * k + 1].role == "assistant";
  }

  /** Whether a chat turn goes through. */
  predicate Answers(t: Tables, user: string, id: nat, reuse: bool, reply: Option<string>) {
    reply.Some? && (reuse ==> GetSession(t, id).Some? && GetSession(t, id).value.username == user)
  }

  /** The session a turn went to belongs to the user and has the two new rows at its end. */
  predicate WentTo(t: Tables, t': Tables, target: nat, user: string, prompt: string, response: string) {
    && Valid(t') && target > 0
    && GetSession(t', target).Some? && GetSession(t', target).value.username == user
    && GetSession(t', target).value.response == response
    && Of(t', target) == Of(t, target) +
         [Row(t.nextMessage, target, "user", prompt), Row(t.nextMessage + 1, target, "assistant", response)]
  }

  lemma ReuseEffect(t: Tables, user: string, id: nat, prompt: string, response: string)
    requires Valid(t) && GetSession(t, id).Some? && GetSession(t, id).value.username == user
    ensures var t' := Exchange(UpdateResponse(t, id, response), id, prompt, response);
            && WentTo(t, t', id, user, prompt, response)
            && GetSession(t', id).value == GetSession(t, id).value.(response := response)
            && (forall other :: other != id ==> Of(t', other) == Of(t, other))
  {
    KnownSession(t, id);
    SetValid(t, id, None, response);
    FindSet(t, id, None, response, id);
    ExchangeAppends(UpdateResponse(t, id, response), id, prompt, response);
  }

  lemma FreshEffect(t: Tables, user: string, model: string, prompt: string, response: string)
    requires Valid(t)
    ensures var t' := Exchange(CreateSession(t, user, model, prompt, response, ""), t.nextSession, prompt, response);
            && WentTo(t, t', t.nextSession, user, prompt, response) && Of(t, t.nextSession) == []
            && (forall other :: other != t.nextSession ==> Of(t', other) == Of(t, other))
  {
    CreateValid(t, user, model, prompt, response, "");
    FindCreated(t, user, model, prompt, response);
    ExchangeAppends(CreateSession(t, user, model, prompt, response, ""), t.nextSession, prompt, response);
  }

  lemma ChatTurnEffect(t: Tables, user: string, id: nat, reuse: bool, prompt: string, reply: Option<string>, model: string)
    requires Valid(t)
    ensures var (t', chat) := ChatTurn(t, user, id, reuse, prompt, reply, model);
            if !Answers(t, user, id, reuse, reply) then t' == t && chat == None
            else
              var target := if reuse then id else t.nextSession;
              && chat == Some(Chat(target, model, prompt, reply.value)) && WentTo(t, t', target, user, prompt, reply.value)
              && (!reuse ==> Of(t, target) == [])
              && (forall other :: other != target ==> Of(t', other) == Of(t, other))
  {
    hide WentTo;
    hide Exchange;
    if Answers(t, user, id, reuse, reply) {
      if reuse {
        ReuseEffect(t, user, id, prompt, reply.value);
      } else {
        FreshEffect(t, user, model, prompt, reply.value);
      }
    }
  }

  /** A chat in a new session leaves the sessions and transcripts issued before as they were. */
  lemma FreshKeeps(t: Tables, user: string, prompt: string, reply: Option<string>, model: string)
    requires Valid(t)
    ensures var t' := ChatTurn(t, user, 0, false, prompt, reply, model).0;
            && Valid(t') && t.nextSession <= t'.nextSession
            && forall id: nat | id < t.nextSession :: Of(t', id) == Of(t, id) && GetSession(t', id) == GetSession(t, id)
  {
    ChatTurnEffect(t, user, 0, false, prompt, reply, model);
    if reply.Some? {
      FreshRow(t, user, model, prompt, reply.value);
    }
  }

  lemma FreshRow(t: Tables, user: string, model: string, prompt: string, response: string)
    ensures Exchange(CreateSession(t, user, model, prompt, response, ""), t.nextSession, prompt, response).sessions
            == t.sessions + [Session(t.nextSession, user, model, prompt, response, "chat")]
    ensures forall id: nat | id < t.nextSession ::
              GetSession(Exchange(CreateSession(t, user, model, prompt, response, ""), t.nextSession, prompt, response), id)
              == GetSession(t, id)
    ensures GetSession(Exchange(CreateSession(t, user, model, prompt, response, ""), t.nextSession, prompt, response), t.nextSession)
            == Some(Session(t.nextSession, user, model, prompt, response, "chat"))
  {
    var sessions := t.sessions + [Session(t.nextSession, user, model, prompt, response, "chat")];
    assert sessions[..|sessions| - 1] == t.sessions;
  }

  lemma {:induction false} TickKeeps(t: Tables, chats: seq<JobChat>)
    requires Valid(t)
    ensures var t' := TickChats(t, chats);
            && Valid(t') && t.nextSession <= t'.nextSession
            && forall id: nat | id < t.nextSession :: Of(t', id) == Of(t, id) && GetSession(t', id) == GetSession(t, id)
  {
    hide Of;
    hide GetSession;
    hide ChatTurn;
    if chats != [] {
      var last := chats[|chats| - 1];
      TickKeeps(t, chats[..|chats| - 1]);
      FreshKeeps(TickChats(t, chats[..|chats| - 1]), last.user, last.prompt, last.reply, last.model);
    }
  }

  lemma KnownSession(t: Tables, id: nat)
    requires Valid(t) && GetSession(t, id).Some?
    ensures 0 < id < t.nextSession && GetSession(t, id).value.id == id
  {
  }

  // ---------- every command keeps the invariant ----------

  /** Recording an answered turn in the session it went to keeps desk and transcript in step. */
  lemma PushInv(s: State, t': Tables, d': Desk, turn: Turn, u: Row, a: Row)
    requires d'.turns == s.desk.turns + [turn] && d'.turnCount == |d'.turns| && DeskOk(s)
    requires d'.active > 0 && turn.session == d'.active && turn.managed == d'.managed && d'.user == s.desk.user
    requires (s.desk.active == d'.active && s.desk.managed == d'.managed && InStep(s))
             || (s.desk.active == 0 && d'.managed && Of(s.tables, d'.active) == [])
    requires Valid(t') && GetSession(t', d'.active).Some? && GetSession(t', d'.active).value.username == d'.user
    requires Of(t', d'.active) == Of(s.tables, d'.active) + [u, a]
    requires u.role == "user" && u.content == turn.prompt && a.role == "assistant" && a.content == turn.response
    ensures Inv(State(d', t'))
  {
    hide Of;
    hide GetSession;
    hide Valid;
    var rows, rows' := Of(s.tables, d'.active), Of(t', d'.active);
    var n := |rows| - 2 * |s.desk.turns|;
    if s.desk.active == 0 {
      assert rows[n..] == [];
    }
    SpellsPush(rows[n..], s.desk.turns, u, a, turn);
    assert rows'[n..] == rows[n..] + [u, a];
    assert Base(State(d', t')) == rows[..n];
  }

  /** A chat line spelled out for an answered turn, given where it went. */
  lemma SaySteps(s: State, text: string, reply: Option<string>, model: string, target: nat, t': Tables)
    requires ChatTurn(s.tables, s.desk.user, s.desk.active, s.desk.active > 0, text, reply, model)
             == (t', Some(Chat(target, model, text, reply.GetOr(""))))
    requires target > 0 && (s.desk.active > 0 ==> target == s.desk.active)
    ensures var managed := if s.desk.active > 0 then s.desk.managed else true;
            SayStep(s, text, reply, model) ==
            State(Recorded(s.desk, Chat(target, model, text, reply.GetOr("")), managed).(active := target, managed := managed), t')
  {
  }

  lemma SayInv(s: State, text: string, reply: Option<string>, model: string)
    requires Inv(s)
    ensures Inv(SayStep(s, text, reply, model))
  {
    var d := s.desk;
    ChatTurnEffect(s.tables, d.user, d.active, d.active > 0, text, reply, model);
    if Answers(s.tables, d.user, d.active, d.active > 0, reply) {
      var (t', chat) := ChatTurn(s.tables, d.user, d.active, d.active > 0, text, reply, model);
      SaySteps(s, text, reply, model, chat.value.session, t');
      SayPush(s, SayStep(s, text, reply, model), text, reply.value, model, chat.value.session, t');
    }
  }

  lemma SayPush(s: State, s': State, text: string, reply: string, model: string, target: nat, t': Tables)
    requires Inv(s) && (s.desk.active > 0 ==> target == s.desk.active)
    requires WentTo(s.tables, t', target, s.desk.user, text, reply) && (s.desk.active == 0 ==> Of(s.tables, target) == [])
    requires var managed := if s.desk.active > 0 then s.desk.managed else true;
             s' == State(Recorded(s.desk, Chat(target, model, text, reply), managed).(active := target, managed := managed), t')
    ensures Inv(s')
  {
    var rows := Of(t', target);
    PushInv(s, t', s'.desk, s'.desk.turns[|s.desk.turns|], rows[|rows| - 2], rows[|rows| - 1]);
  }

  /** On a managed stack the last turn can always be deleted, and that removes exactly it. */
  lemma PopInv(s: State)
    requires Inv(s) && s.desk.turns != [] && s.desk.managed
    ensures DeleteLastTurn(s.tables, s.desk.active).Done?
    ensures var t := DeleteLastTurn(s.tables, s.desk.active).tables;
            && Inv(State(Popped(s.desk), t))
            && GetSession(t, s.desk.active).Some? && GetSession(t, s.desk.active).value.id == s.desk.active
            && GetSession(t, s.desk.active).value.username == s.desk.user
  {
    var d, id := s.desk, s.desk.active;
    var rows := Of(s.tables, id);
    assert rows[|rows| - 2 * |d.turns|..] == rows;
    SpellsPop(rows, d.turns);
    DeleteCuts(s.tables, id);
    DeleteValid(s.tables, id);
    var mid := CutLastTwo(s.tables, id);
    var t := DeleteLastTurn(s.tables, id).tables;
    SessionKept(s.tables, id);
    KnownSession(t, id);
    var rows' := Of(t, id);
    assert rows'[|rows'| - 2 * (|d.turns| - 1)..] == rows';
  }

  lemma SessionKept(t: Tables, id: nat)
    requires Valid(t) && DeleteLastTurn(t, id).Done? && GetSession(t, id).Some?
    ensures var s := GetSession(DeleteLastTurn(t, id).tables, id);
            && s.Some? && s.value.username == GetSession(t, id).value.username && s.value.model == GetSession(t, id).value.model
            && s.value.prompt == LastOf(Of(DeleteLastTurn(t, id).tables, id), "user")
            && s.value.response == LastOf(Of(DeleteLastTurn(t, id).tables, id), "assistant")
  {
    var mid := CutLastTwo(t, id);
    var k := Find(t.sessions, id);
    var t' := DeleteLastTurn(t, id).tables;
    assert mid.sessions == t.sessions && Of(t', id) == Of(mid, id);
    assert forall i | 0 <= i < |t.sessions| :: t'.sessions[i].id == t.sessions[i].id;
    DeleteValid(t, id);
    FindUnique(t', k);
  }

  /** An undo spelled out once the deletion is known to succeed and to leave the session. */
  lemma UndoSteps(s: State, t: Tables)
    requires s.desk.turns != [] && s.desk.active > 0 && DeleteLastTurn(s.tables, s.desk.active) == Done(t)
    requires var last := s.desk.turns[|s.desk.turns| - 1]; last.session == s.desk.active && last.managed
    requires GetSession(t, s.desk.active).Some? && GetSession(t, s.desk.active).value.id == s.desk.active
    ensures UndoStep(s) ==
            State(Popped(s.desk).(lastChat := Snapshot(GetSession(t, s.desk.active).value), managed := true), t)
  {
    hide DeleteLastTurn;
    hide GetSession;
  }

  lemma UndoInv(s: State)
    requires Inv(s)
    ensures Inv(UndoStep(s))
    ensures s.desk.managed && s.desk.turns != [] ==>
      UndoStep(s).desk.turns == s.desk.turns[..|s.desk.turns| - 1]
      && UndoStep(s).desk.active == s.desk.active && UndoStep(s).desk.managed
      && UndoStep(s).tables == DeleteLastTurn(s.tables, s.desk.active).tables
  {
    hide DeleteLastTurn;
    hide Of;
    hide GetSession;
    hide Valid;
    if s.desk.turns != [] && s.desk.managed {
      assert s.desk.turns[|s.desk.turns| - 1].session == s.desk.active;
      PopInv(s);
      UndoSteps(s, DeleteLastTurn(s.tables, s.desk.active).tables);
      hide UndoStep;
    }
  }

  lemma RetryInv(s: State, reply: Option<string>, model: string)
    requires Inv(s)
    ensures Inv(RetryStep(s, reply, model))
  {
    hide DeleteLastTurn;
    hide Of;
    hide GetSession;
    hide Valid;
    var d := s.desk;
    if d.turns != [] && d.managed {
      var last := d.turns[|d.turns| - 1];
      assert last.session == d.active && last.managed;
      PopInv(s);
      var mid := State(Popped(d), DeleteLastTurn(s.tables, d.active).tables);
      KnownSession(mid.tables, d.active);
      ChatTurnEffect(mid.tables, d.user, d.active, true, last.prompt, reply, model);
      if Answers(mid.tables, d.user, d.active, true, reply) {
        var s' := RetryStep(s, reply, model);
        var rows := Of(s'.tables, d.active);
        PushInv(mid, s'.tables, s'.desk, s'.desk.turns[|d.turns| - 1], rows[|rows| - 2], rows[|rows| - 1]);
      }
    }
  }

  lemma ResumeInv(s: State, target: ResumeTarget)
    requires Inv(s)
    ensures Inv(ResumeStep(s, target))
  {
    var s' := ResumeStep(s, target);
    if s'.desk != s.desk {
      if target == Newest {
        var mine := Recent.Filter(s.tables.sessions, OwnedBy(s.desk.user));
        Recent.FilterKeeps(s.tables.sessions, OwnedBy(s.desk.user));
        assert mine[|mine| - 1] in mine;
        var k :| 0 <= k < |s.tables.sessions| && s.tables.sessions[k] == mine[|mine| - 1];
        FindUnique(s.tables, k);
      }
      var rows := Of(s.tables, s'.desk.active);
      assert rows[|rows| - 0..] == [];
    }
  }

  /** The desk of a console is not touched by jobs, which only open sessions of their own. */
  lemma TickInv(s: State, chats: seq<JobChat>)
    requires Inv(s)
    ensures Inv(s.(tables := TickChats(s.tables, chats)))
  {
    hide TickChats;
    hide Valid;
    hide Of;
    TickKeeps(s.tables, chats);
    if s.desk.active > 0 {
      KnownSession(s.tables, s.desk.active);
    }
    hide GetSession;
  }

  lemma StepInv(s: State, c: Command)
    requires Inv(s)
    ensures Inv(Step(s, c))
  {
    match c {
      case Say(text, reply, model) => SayInv(s, text, reply, model);
      case Undo => UndoInv(s);
      case Retry(reply, model) => RetryInv(s, reply, model);
      case Resume(target) => ResumeInv(s, target);
      case New =>
      case Login(_, _) =>
      case CronTick(chats) => TickInv(s, chats);
      case Other =>
    }
  }

  lemma {:induction false} RunInv(s: State, cs: seq<Command>)
    requires Inv(s)
    ensures Inv(Run(s, cs))
    decreases |cs|
  {
    if cs != [] {
      StepInv(s, cs[0]);
      RunInv(Step(s, cs[0]), cs[1..]);
    }
  }

  // ---------- undo, retry, and what is never deleted ----------

  function LastPrompt(turns: seq<Turn>): string {
    if turns == [] then "" else turns[|turns| - 1].prompt
  }

  function LastResponse(turns: seq<Turn>): string {
    if turns == [] then "" else turns[|turns| - 1].response
  }

  /** In a managed session the last rows of each role are those of the last turn. */
  lemma LastOfSpelled(rows: seq<Row>, turns: seq<Turn>)
    requires Spells(rows, turns)
    ensures LastOf(rows, "user") == LastPrompt(turns) && LastOf(rows, "assistant") == LastResponse(turns)
  {
    if turns != [] {
      var k := |turns| - 1;
      assert rows[2 * k].role == "user" && rows[2 * k + 1].role == "assistant";
      var n := |rows|;
      assert "user" != "assistant" by { assert |"user"| == 4; }
      assert rows[..n - 1][n - 2] == rows[n - 2];
    }
  }

  /** An answered chat turn in a managed session. */
  lemma SayManaged(s: State, text: string, reply: string, model: string)
    requires Inv(s) && s.desk.active > 0 && s.desk.managed
    ensures var s' := SayStep(s, text, Some(reply), model);
            var id := s.desk.active;
            && Inv(s')
            && s'.desk == Recorded(s.desk, Chat(id, model, text, reply), true)
            && |Of(s'.tables, id)| == |Of(s.tables, id)| + 2 && Of(s.tables, id) <= Of(s'.tables, id)
            && (forall other :: other != id ==> Of(s'.tables, other) == Of(s.tables, other))
            && GetSession(s'.tables, id) == Some(GetSession(s.tables, id).value.(response := reply))
  {
    SayInv(s, text, Some(reply), model);
    ReuseEffect(s.tables, s.desk.user, s.desk.active, text, reply);
  }

  /** Undo in a managed session. */
  lemma UndoManaged(s: State)
    requires Inv(s) && s.desk.managed && s.desk.turns != []
    ensures var s' := UndoStep(s);
            var id := s.desk.active;
            && Inv(s')
            && (s'.desk.turns, s'.desk.active, s'.desk.managed, s'.desk.user)
               == (s.desk.turns[..|s.desk.turns| - 1], id, true, s.desk.user)
            && |Of(s.tables, id)| >= 2 && Of(s'.tables, id) == Of(s.tables, id)[..|Of(s.tables, id)| - 2]
            && (forall other :: other != id ==> Of(s'.tables, other) == Of(s.tables, other))
            && GetSession(s'.tables, id) == Some(GetSession(s.tables, id).value.(
                 prompt := LastPrompt(s'.desk.turns), response := LastResponse(s'.desk.turns)))
  {
    var d, id := s.desk, s.desk.active;
    assert d.turns[|d.turns| - 1].session == id;
    PopInv(s);
    UndoInv(s);
    UndoUser(s);
    DeleteCuts(s.tables, id);
    RowRefreshed(s.tables, id);
    var rows := Of(UndoStep(s).tables, id);
    assert rows[|rows| - 2 * |UndoStep(s).desk.turns|..] == rows;
    LastOfSpelled(rows, UndoStep(s).desk.turns);
  }

  lemma UndoUser(s: State)
    ensures UndoStep(s).desk.user == s.desk.user
  {
  }

  /** Deleting a turn changes only prompt and response of the session row, to those of what is left. */
  lemma RowRefreshed(t: Tables, id: nat)
    requires Valid(t) && GetSession(t, id).Some? && DeleteLastTurn(t, id).Done?
    ensures var t' := DeleteLastTurn(t, id).tables;
            GetSession(t', id) == Some(GetSession(t, id).value.(
              prompt := LastOf(Of(t', id), "user"), response := LastOf(Of(t', id), "assistant")))
  {
    var mid := CutLastTwo(t, id);
    CutValid(t, id);
    FindSet(mid, id, Some(LastOf(Of(mid, id), "user")), LastOf(Of(mid, id), "assistant"), id);
  }

  /** Undoing an answered chat turn in a managed session restores every transcript, the turn stack and the active
      session. The session row is restored too exactly when its prompt and response were those of the last turn;
      a chat updates only the response, so after the second turn the prompt may have been older. */
  lemma UndoInvertsChat(s: State, text: string, reply: string, model: string)
    requires Inv(s) && s.desk.active > 0 && s.desk.managed
    ensures var s1 := SayStep(s, text, Some(reply), model);
            var s2 := UndoStep(s1);
            && s1.desk.turns == s.desk.turns + [Turn(s.desk.active, text, reply, model, true)]
            && (s2.desk.turns, s2.desk.turnCount, s2.desk.active, s2.desk.managed, s2.desk.user)
               == (s.desk.turns, s.desk.turnCount, s.desk.active, s.desk.managed, s.desk.user)
            && (forall id: nat :: Of(s2.tables, id) == Of(s.tables, id))
            && (GetSession(s2.tables, s.desk.active) == GetSession(s.tables, s.desk.active) <==>
                  GetSession(s.tables, s.desk.active).value.prompt == LastPrompt(s.desk.turns)
                  && GetSession(s.tables, s.desk.active).value.response == LastResponse(s.desk.turns))
  {
    hide SayStep;
    hide UndoStep;
    hide Of;
    hide GetSession;
    SayManaged(s, text, reply, model);
    UndoManaged(SayStep(s, text, Some(reply), model));
  }

  // ---------- many chats, many undos ----------

  datatype Said = Said(text: string, reply: string, model: string)

  /** Answered chats, one after the other. */
  function SayAll(s: State, chats: seq<Said>): State {
    if chats == [] then s
    else
      var last := chats[|chats| - 1];
      SayStep(SayAll(s, chats[..|chats| - 1]), last.text, Some(last.reply), last.model)
  }

  function UndoAll(s: State, n: nat): State {
    if n == 0 then s else UndoStep(UndoAll(s, n - 1))
  }

  predicate Managed(s: State) {
    Inv(s) && s.desk.active > 0 && s.desk.managed
  }

  lemma {:induction false} SayMany(s: State, chats: seq<Said>)
    requires Managed(s)
    ensures var s' := SayAll(s, chats);
            var id := s.desk.active;
            && Managed(s') && s'.desk.active == id && s'.desk.user == s.desk.user
            && |s'.desk.turns| == |s.desk.turns| + |chats| && s.desk.turns <= s'.desk.turns
            && Of(s.tables, id) <= Of(s'.tables, id) && |Of(s'.tables, id)| == |Of(s.tables, id)| + 2 * |chats|
            && (forall other :: other != id ==> Of(s'.tables, other) == Of(s.tables, other))
            && GetSession(s'.tables, id).value == GetSession(s.tables, id).value.(response := GetSession(s'.tables, id).value.response)
            && (chats == [] ==> s' == s)
  {
    hide SayStep;
    hide Of;
    hide GetSession;
    hide Valid;
    hide InStep;
    if chats != [] {
      var last := chats[|chats| - 1];
      SayMany(s, chats[..|chats| - 1]);
      SayManaged(SayAll(s, chats[..|chats| - 1]), last.text, last.reply, last.model);
    }
  }

  lemma {:induction false} UndoMany(s: State, n: nat)
    requires Managed(s) && n <= |s.desk.turns|
    ensures var s' := UndoAll(s, n);
            var id := s.desk.active;
            && Managed(s') && s'.desk.active == id && s'.desk.user == s.desk.user
            && s'.desk.turns == s.desk.turns[..|s.desk.turns| - n]
            && |Of(s.tables, id)| >= 2 * n && Of(s'.tables, id) == Of(s.tables, id)[..|Of(s.tables, id)| - 2 * n]
            && (forall other :: other != id ==> Of(s'.tables, other) == Of(s.tables, other))
            && GetSession(s'.tables, id) == Some(if n == 0 then GetSession(s.tables, id).value else
                 GetSession(s.tables, id).value.(prompt := LastPrompt(s'.desk.turns), response := LastResponse(s'.desk.turns)))
  {
    hide UndoStep;
    hide Of;
    hide Valid;
    hide InStep;
    if n > 0 {
      UndoMany(s, n - 1);
      var mid := UndoAll(s, n - 1);
      UndoManaged(mid);
      CutTwice(Of(s.tables, s.desk.active), 2 * (n - 1));
      assert mid.desk.turns[..|mid.desk.turns| - 1] == s.desk.turns[..|s.desk.turns| - n];
    } else {
      assert s.desk.turns[..|s.desk.turns|] == s.desk.turns;
      assert Of(s.tables, s.desk.active)[..|Of(s.tables, s.desk.active)|] == Of(s.tables, s.desk.active);
    }
    hide GetSession;
  }

  lemma CutTwice(rows: seq<Row>, n: nat)
    requires n + 2 <= |rows|
    ensures rows[..|rows| - n][..|rows| - n - 2] == rows[..|rows| - (n + 2)]
  {
  }

  /** In a managed session, as many undos as answered chats restore every transcript, the stack and the active session;
      the session row, if there was a chat, exactly when it showed the last turn before. */
  lemma UndosInvertChats(s: State, chats: seq<Said>)
    requires Managed(s)
    ensures var s' := UndoAll(SayAll(s, chats), |chats|);
            var id := s.desk.active;
            && Inv(s') && s'.desk.(lastChat := s.desk.lastChat) == s.desk
            && (forall other: nat :: Of(s'.tables, other) == Of(s.tables, other))
            && (GetSession(s'.tables, id) == GetSession(s.tables, id) <==>
                  chats == [] || (GetSession(s.tables, id).value.prompt == LastPrompt(s.desk.turns)
                                  && GetSession(s.tables, id).value.response == LastResponse(s.desk.turns)))
  {
    hide SayAll;
    hide UndoAll;
    hide Of;
    hide GetSession;
    hide Valid;
    hide InStep;
    var id, mid := s.desk.active, SayAll(s, chats);
    SayMany(s, chats);
    UndoMany(mid, |chats|);
    assert mid.desk.turns[..|mid.desk.turns| - |chats|] == s.desk.turns;
    assert Of(mid.tables, id)[..|Of(mid.tables, id)| - 2 * |chats|] == Of(s.tables, id);
    assert GetSession(s.tables, id).Some?;
  }

  /** Undoing every chat of a fresh console restores every transcript, but leaves the session its first chat created:
      active, managed, without a turn, its prompt and response blank. */
  lemma UndosLeaveSession(s: State, first: Said, chats: seq<Said>)
    requires Inv(s) && s.desk.active == 0
    ensures var s' := UndoAll(SayAll(SayStep(s, first.text, Some(first.reply), first.model), chats), |chats| + 1);
            var id := s.tables.nextSession;
            && Managed(s') && s'.desk.active == id && s'.desk.turns == []
            && (forall other: nat :: Of(s'.tables, other) == Of(s.tables, other))
            && GetSession(s.tables, id).None?
            && GetSession(s'.tables, id) == Some(Session(id, s.desk.user, first.model, "", "", "chat"))
  {
    hide SayAll;
    hide UndoAll;
    hide Of;
    hide GetSession;
    hide InStep;
    var id, one := s.tables.nextSession, SayStep(s, first.text, Some(first.reply), first.model);
    FirstChat(s, first);
    hide SayStep;
    hide Valid;
    var mid := SayAll(one, chats);
    SayMany(one, chats);
    UndoMany(mid, |chats| + 1);
    assert mid.desk.turns[..0] == [];
    assert Of(mid.tables, id)[..0] == [];
  }

  /** The first chat of a console creates its session. */
  lemma FirstChat(s: State, first: Said)
    requires Inv(s) && s.desk.active == 0
    ensures var s' := SayStep(s, first.text, Some(first.reply), first.model);
            var id := s.tables.nextSession;
            && Managed(s') && s'.desk.active == id && |s'.desk.turns| == 1 && s'.desk.user == s.desk.user
            && Of(s.tables, id) == [] && |Of(s'.tables, id)| == 2
            && (forall other :: other != id ==> Of(s'.tables, other) == Of(s.tables, other))
            && GetSession(s.tables, id).None?
            && GetSession(s'.tables, id) == Some(Session(id, s.desk.user, first.model, first.text, first.reply, "chat"))
  {
    var t, user := s.tables, s.desk.user;
    SayInv(s, first.text, Some(first.reply), first.model);
    ChatTurnEffect(t, user, 0, false, first.text, Some(first.reply), first.model);
    SaySteps(s, first.text, Some(first.reply), first.model, t.nextSession,
             ChatTurn(t, user, 0, false, first.text, Some(first.reply), first.model).0);
    FreshRow(t, user, first.model, first.text, first.reply);
    NotIssued(t);
  }

  lemma NotIssued(t: Tables)
    requires Valid(t)
    ensures GetSession(t, t.nextSession).None?
  {
  }

  const FRESH := State(Desk("u", 0, [], NO_CHAT, 0, false), EMPTY)

  /** A second turn does not touch the session's prompt, but undoing a third refreshes it from the second. */
  lemma UndoCanChangeTheRow()
    ensures var s := SayStep(SayStep(FRESH, "a", Some("r"), "m"), "b", Some("r"), "m");
            Inv(s) && s.desk.active == 1 && GetSession(s.tables, 1) != GetSession(UndoStep(SayStep(s, "c", Some("r"), "m")).tables, 1)
  {
    var s1 := SayStep(FRESH, "a", Some("r"), "m");
    FirstTurn();
    SecondTurn(s1);
    UndoInvertsChat(SayStep(s1, "b", Some("r"), "m"), "c", "r", "m");
  }

  lemma FirstTurn()
    ensures var s := SayStep(FRESH, "a", Some("r"), "m");
            Inv(s) && s.desk.active == 1 && s.desk.managed && GetSession(s.tables, 1).value.prompt == "a"
  {
    SayInv(FRESH, "a", Some("r"), "m");
    FindCreated(EMPTY, "u", "m", "a", "r");
    SameSessions(EMPTY, "u", "m", "a", "r");
  }

  lemma SecondTurn(s: State)
    requires Inv(s) && s.desk.active == 1 && s.desk.managed && GetSession(s.tables, 1).value.prompt == "a"
    ensures var s' := SayStep(s, "b", Some("r"), "m");
            Inv(s') && s'.desk.active == 1 && s'.desk.managed
            && GetSession(s'.tables, 1).value.prompt == "a" && LastPrompt(s'.desk.turns) == "b"
  {
    SayManaged(s, "b", "r", "m");
  }

  lemma SameSessions(t: Tables, user: string, model: string, prompt: string, response: string)
    ensures Exchange(CreateSession(t, user, model, prompt, response, ""), t.nextSession, prompt, response).sessions
            == CreateSession(t, user, model, prompt, response, "").sessions
  {
  }

  /** A retry that is answered replaces the last turn; one that is not leaves transcripts and stack as undo does. */
  lemma RetryReplaces(s: State, reply: Option<string>, model: string)
    requires Inv(s) && s.desk.turns != [] && s.desk.managed
    ensures var s' := RetryStep(s, reply, model);
            var last := s.desk.turns[|s.desk.turns| - 1];
            var front := s.desk.turns[..|s.desk.turns| - 1];
            && s'.desk.turns == (if reply.Some? then front + [Turn(s.desk.active, last.prompt, reply.value, model, true)] else front)
            && s'.desk.active == s.desk.active && s'.desk.managed
            && (reply.None? ==> s'.tables == UndoStep(s).tables)
            && (forall id: nat :: id != s.desk.active ==> Of(s'.tables, id) == Of(s.tables, id))
            && s'.tables.nextSession == s.tables.nextSession
  {
    var d := s.desk;
    var last := d.turns[|d.turns| - 1];
    assert last.session == d.active && last.managed;
    PopInv(s);
    UndoInv(s);
    DeleteCuts(s.tables, d.active);
    var t := DeleteLastTurn(s.tables, d.active).tables;
    RetrySteps(s, reply, model, t);
    if reply.Some? {
      ReuseEffect(t, d.user, d.active, last.prompt, reply.value);
    }
  }

  /** Retry spelled out once the deletion is known to succeed. */
  lemma RetrySteps(s: State, reply: Option<string>, model: string, t: Tables)
    requires s.desk.turns != [] && DeleteLastTurn(s.tables, s.desk.active) == Done(t)
    requires var last := s.desk.turns[|s.desk.turns| - 1]; last.session == s.desk.active && last.managed
    requires GetSession(t, s.desk.active).Some? && GetSession(t, s.desk.active).value.username == s.desk.user
    ensures var last := s.desk.turns[|s.desk.turns| - 1];
            RetryStep(s, reply, model) ==
            if reply.None? then State(Popped(s.desk), t)
            else State(Recorded(Popped(s.desk), Chat(s.desk.active, model, last.prompt, reply.value), true),
                       Exchange(UpdateResponse(t, s.desk.active, reply.value), s.desk.active, last.prompt, reply.value))
    ensures RetryStep(s, reply, model).tables.nextSession == t.nextSession
  {
  }

  /** Rows leave the table only from the active session while it is managed. */
  lemma StepKeepsRows(s: State, c: Command)
    requires Inv(s)
    ensures forall id: nat | !(s.desk.managed && id == s.desk.active) :: Of(s.tables, id) <= Of(Step(s, c).tables, id)
  {
    forall id: nat | !(s.desk.managed && id == s.desk.active)
      ensures Of(s.tables, id) <= Of(Step(s, c).tables, id)
    {
      match c {
        case Say(text, reply, model) => ChatKeeps(s.tables, s.desk.user, s.desk.active, s.desk.active > 0, text, reply, model, id);
        case Undo =>
          if s.desk.managed && s.desk.turns != [] {
            PopInv(s);
            UndoInv(s);
            DeleteCuts(s.tables, s.desk.active);
          }
        case Retry(reply, model) =>
          if s.desk.managed && s.desk.turns != [] {
            RetryReplaces(s, reply, model);
          }
        case Resume(target) =>
        case New =>
        case Login(_, _) =>
        case CronTick(chats) => TickPrefix(s.tables, chats, id);
        case Other =>
      }
    }
  }

  lemma {:induction false} TickPrefix(t: Tables, chats: seq<JobChat>, id: nat)
    requires Valid(t)
    ensures Of(t, id) <= Of(TickChats(t, chats), id)
  {
    hide Of;
    hide ChatTurn;
    if chats != [] {
      var last := chats[|chats| - 1];
      TickKeeps(t, chats[..|chats| - 1]);
      TickPrefix(t, chats[..|chats| - 1], id);
      ChatKeeps(TickChats(t, chats[..|chats| - 1]), last.user, 0, false, last.prompt, last.reply, last.model, id);
    }
  }

  lemma ChatKeeps(t: Tables, user: string, id: nat, reuse: bool, prompt: string, reply: Option<string>, model: string, other: nat)
    requires Valid(t)
    ensures Of(t, other) <= Of(ChatTurn(t, user, id, reuse, prompt, reply, model).0, other)
  {
    if Answers(t, user, id, reuse, reply) {
      var t1 := if reuse then UpdateResponse(t, id, reply.value) else CreateSession(t, user, model, prompt, reply.value, "");
      var target := if reuse then id else t.nextSession;
      if reuse {
        KnownSession(t, id);
        SetValid(t, id, None, reply.value);
      } else {
        CreateValid(t, user, model, prompt, reply.value, "");
      }
      ExchangeAppends(t1, target, prompt, reply.value);
      assert Of(t1, other) == Of(t, other);
    }
  }

  /** The managed session, if any, was created after `first`. */
  predicate ManagedIsNew(s: State, first: nat) {
    s.desk.managed ==> s.desk.active >= first
  }

  lemma UndoIsNew(s: State, first: nat)
    requires Inv(s) && ManagedIsNew(s, first)
    ensures ManagedIsNew(UndoStep(s), first) && UndoStep(s).tables.nextSession == s.tables.nextSession
  {
    if s.desk.managed && s.desk.turns != [] {
      PopInv(s);
      UndoInv(s);
      DeleteCuts(s.tables, s.desk.active);
    }
  }

  lemma RetryNothing(s: State, reply: Option<string>, model: string)
    requires Inv(s) && !(s.desk.managed && s.desk.turns != [])
    ensures RetryStep(s, reply, model) == s
  {
  }

  lemma StepManagedIsNew(s: State, c: Command, first: nat)
    requires Inv(s) && ManagedIsNew(s, first) && first <= s.tables.nextSession
    ensures ManagedIsNew(Step(s, c), first) && s.tables.nextSession <= Step(s, c).tables.nextSession
  {
    match c {
      case Say(text, reply, model) => ChatTurnEffect(s.tables, s.desk.user, s.desk.active, s.desk.active > 0, text, reply, model);
      case Undo => UndoIsNew(s, first);
      case Retry(reply, model) =>
        if s.desk.managed && s.desk.turns != [] {
          RetryReplaces(s, reply, model);
        } else {
          RetryNothing(s, reply, model);
        }
      case Resume(target) =>
      case New =>
      case Login(_, _) =>
      case CronTick(chats) => TickKeeps(s.tables, chats);
      case Other =>
    }
  }

  /** Over any run of a console whose managed session (if any) is its own, no transcript that existed before loses a row. */
  lemma {:induction false} RunKeepsOldSessions(s: State, cs: seq<Command>, first: nat, id: nat)
    requires Inv(s) && ManagedIsNew(s, first) && id < first <= s.tables.nextSession
    ensures Of(s.tables, id) <= Of(Run(s, cs).tables, id)
    decreases |cs|
  {
    if cs != [] {
      StepInv(s, cs[0]);
      StepKeepsRows(s, cs[0]);
      StepManagedIsNew(s, cs[0], first);
      RunKeepsOldSessions(Step(s, cs[0]), cs[1..], first, id);
    }
  }

  // ---------- whose console it is, and what it resumes ----------

  predicate LogsIn(c: Command) {
    c.Login? && c.ok
  }

  lemma StepKeepsUser(s: State, c: Command)
    ensures !LogsIn(c) ==> Step(s, c).desk.user == s.desk.user
    ensures c.Login? && !c.ok ==> Step(s, c) == s
    ensures LogsIn(c) ==> Step(s, c) == State(Desk(c.user, 0, [], NO_CHAT, 0, false), s.tables)
  {
    match c {
      case Say(text, reply, model) =>
      case Undo =>
      case Retry(reply, model) =>
        hide ChatTurn;
        hide DeleteLastTurn;
      case Resume(target) =>
      case New =>
      case Login(_, _) =>
      case CronTick(chats) =>
      case Other =>
    }
  }

  /** Without a right password the user stays. */
  lemma {:induction false} NoLoginKeepsUser(s: State, cs: seq<Command>)
    requires forall c | c in cs :: !LogsIn(c)
    ensures Run(s, cs).desk.user == s.desk.user
    decreases |cs|
  {
    hide Step;
    if cs != [] {
      StepKeepsUser(s, cs[0]);
      NoLoginKeepsUser(Step(s, cs[0]), cs[1..]);
    }
  }

  /** Over any run the user is the one of the last login whose password was right. */
  lemma {:induction false} UserIsLastLogin(s: State, cs: seq<Command>, k: nat)
    requires k < |cs| && LogsIn(cs[k]) && forall c | c in cs[k + 1..] :: !LogsIn(c)
    ensures Run(s, cs).desk.user == cs[k].user
    decreases |cs|
  {
    hide Step;
    if k == 0 {
      StepKeepsUser(s, cs[0]);
      NoLoginKeepsUser(Step(s, cs[0]), cs[1..]);
    } else {
      assert cs[1..][k..] == cs[k + 1..];
      UserIsLastLogin(Step(s, cs[0]), cs[1..], k - 1);
    }
  }

  /** The session asked for: the one of that number, or the newest, if it is the user's. */
  predicate Asks(s: State, target: ResumeTarget, r: Session) {
    && r in s.tables.sessions && r.username == s.desk.user
    && match target
       case Newest => forall other | other in s.tables.sessions && other.username == s.desk.user :: other.id <= r.id
       case Numbered(id) => r.id == id
       case Malformed => false
  }

  /** Resuming opens the session asked for, unmanaged, with an empty stack; if there is none, nothing changes. */
  lemma ResumeOpensAsked(s: State, target: ResumeTarget, r: Session)
    requires Valid(s.tables) && Asks(s, target, r)
    ensures Step(s, Resume(target)) ==
            State(Desk(s.desk.user, 0, [], Chat(r.id, r.model, r.prompt, r.response), r.id, false), s.tables)
  {
    var t := s.tables;
    LatestIsNewest(t, s.desk.user);
    var k :| 0 <= k < |t.sessions| && t.sessions[k] == r;
    FindUnique(t, k);
    hide Latest;
    if target == Newest {
      var j :| 0 <= j < |t.sessions| && t.sessions[j] == Latest(t, s.desk.user).value;
      assert t.sessions[j].id == t.sessions[k].id;
    }
  }

  lemma ResumeOpensNothingElse(s: State, target: ResumeTarget)
    requires Valid(s.tables) && forall r | r in s.tables.sessions :: !Asks(s, target, r)
    ensures Step(s, Resume(target)) == s
  {
    LatestIsNewest(s.tables, s.desk.user);
    hide Latest;
    match target {
      case Newest => assert Latest(s.tables, s.desk.user).None?;
      case Numbered(id) =>
        if GetSession(s.tables, id).Some? {
          assert GetSession(s.tables, id).value in s.tables.sessions;
        }
      case Malformed =>
    }
  }

  // ---------- the console ----------

  class InteractiveConsole {
    const store: SessionStore
    var user: string
    var turnCount: int
    var turns: seq<Turn>
    var lastChat: Chat
    var active: nat
    var managed: bool

    constructor (store: SessionStore, user: string)
      ensures this.store == store && TheDesk() == Desk(user, 0, [], NO_CHAT, 0, false)
    {
      this.store, this.user := store, user;
      turnCount, turns, lastChat, active, managed := 0, [], NO_CHAT, 0, false;
    }

    function TheDesk(): Desk
      reads this
    {
      Desk(user, turnCount, turns, lastChat, active, managed)
    }

    function TheState(): State
      reads this, store
    {
      State(TheDesk(), store.View())
    }

    method ChatIn(username: string, id: nat, reuse: bool, prompt: string, reply: Option<string>, model: string) returns (chat: Option<Chat>)
      modifies store
      ensures (store.View(), chat) == ChatTurn(old(store.View()), username, id, reuse, prompt, reply, model)
    {
      if reply.None? {
        return None;
      }
      var target := id;
      if reuse {
        var session := store.Get(id);
        if session.None? || session.value.username != username {
          return None;
        }
        store.Update(id, None, reply.value);
      } else {
        target := store.Create(username, model, prompt, reply.value, "");
      }
      store.Add(target, "user", prompt);
      store.Add(target, "assistant", reply.value);
      return Some(Chat(target, model, prompt, reply.value));
    }

    method RecordTurn(chat: Chat, isManaged: bool)
      modifies this
      ensures TheDesk() == Recorded(old(TheDesk()), chat, isManaged)
    {
      lastChat := chat;
      turnCount := turnCount + 1;
      turns := turns + [Turn(chat.session, chat.prompt, chat.response, chat.model, isManaged)];
    }

    method ResetTurns()
      modifies this
      ensures TheDesk() == Cleared(old(TheDesk()))
    {
      turnCount, turns, lastChat, active, managed := 0, [], NO_CHAT, 0, false;
    }

    method HandleChat(text: string, reply: Option<string>, model: string)
      modifies this, store
      ensures TheState() == SayStep(old(TheState()), text, reply, model)
    {
      var chat: Option<Chat>;
      var isManaged := true;
      if active > 0 {
        chat := ChatIn(user, active, true, text, reply, model);
        isManaged := managed;
      } else {
        chat := ChatIn(user, 0, false, text, reply, model);
      }
      if chat.None? {
        return;
      }
      RecordTurn(chat.value, isManaged);
      if active == 0 && chat.value.session > 0 {
        active, managed := chat.value.session, true;
      }
    }

    method HandleUndo()
      modifies this, store
      ensures TheState() == UndoStep(old(TheState()))
    {
      hide DeleteLastTurn;
      hide GetSession;
      if |turns| == 0 {
        return;
      }
      var last := turns[|turns| - 1];
      if !last.managed {
        return;
      }
      var deleted := store.DeleteTurn(last.session);
      if !deleted.Done? {
        return;
      }
      turns := turns[..|turns| - 1];
      if turnCount > 0 {
        turnCount := turnCount - 1;
      }
      if |turns| > 0 {
        var prev := turns[|turns| - 1];
        lastChat := Chat(prev.session, prev.model, prev.prompt, prev.response);
      } else {
        lastChat := NO_CHAT;
      }
      if |turns| == 0 || active == last.session {
        var session := store.Get(last.session);
        if session.Some? {
          lastChat := Snapshot(session.value);
          active, managed := session.value.id, true;
        }
      }
      if |turns| == 0 && lastChat.session == 0 {
        active, managed := 0, false;
      }
    }

    method HandleRetry(reply: Option<string>, model: string)
      modifies this, store
      ensures TheState() == RetryStep(old(TheState()), reply, model)
    {
      hide DeleteLastTurn;
      hide GetSession;
      if |turns| == 0 {
        return;
      }
      var last := turns[|turns| - 1];
      if !last.managed {
        return;
      }
      var deleted := store.DeleteTurn(last.session);
      if !deleted.Done? {
        return;
      }
      turns := turns[..|turns| - 1];
      if turnCount > 0 {
        turnCount := turnCount - 1;
      }
      var chat := ChatIn(user, last.session, true, last.prompt, reply, model);
      if chat.None? {
        return;
      }
      RecordTurn(chat.value, true);
    }

    method HandleResume(target: ResumeTarget)
      modifies this
      ensures TheState() == ResumeStep(old(TheState()), target)
    {
      var session: Option<Session>;
      match target {
        case Newest => session := Latest(store.View(), user);
        case Numbered(id) =>
          if id == 0 {
            return;
          }
          session := store.Get(id);
        case Malformed => return;
      }
      if session.None? || session.value.username != user {
        return;
      }
      turnCount, turns := 0, [];
      active, managed := session.value.id, false;
      lastChat := Snapshot(session.value);
    }

    method HandleLogin(name: string, ok: bool)
      modifies this
      ensures TheState() == Step(old(TheState()), Login(name, ok))
      ensures TheDesk() == if ok then Desk(name, 0, [], NO_CHAT, 0, false) else old(TheDesk())
    {
      if !ok {
        return;
      }
      user := name;
      ResetTurns();
    }

    /** The chats of the due jobs, one after the other. */
    method HandleCronTick(chats: seq<JobChat>)
      modifies store
      ensures TheState() == old(TheState()).(tables := TickChats(old(store.View()), chats))
    {
      hide ChatTurn;
      for k := 0 to |chats|
        invariant store.View() == TickChats(old(store.View()), chats[..k]) && TheDesk() == old(TheDesk())
      {
        assert chats[..k + 1][..k] == chats[..k];
        var job := chats[k];
        var _ := ChatIn(job.user, 0, false, job.prompt, job.reply, job.model);
      }
      assert chats[..|chats|] == chats;
    }

    /** One line: whatever it is, the state moves as the commands say and stays in step. */
    method HandleLine(c: Command)
      requires Inv(TheState())
      modifies this, store
      ensures TheState() == Step(old(TheState()), c) && Inv(TheState())
    {
      StepInv(TheState(), c);
      match c {
        case Say(text, reply, model) => HandleChat(text, reply, model);
        case Undo => HandleUndo();
        case Retry(reply, model) => HandleRetry(reply, model);
        case Resume(target) => HandleResume(target);
        case New => ResetTurns();
        case Login(name, ok) => HandleLogin(name, ok);
        case CronTick(chats) => HandleCronTick(chats);
        case Other =>
      }
    }
  }
}
