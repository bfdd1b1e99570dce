/** The two bounded loops that drive a child agent, and the trace they leave. */
module ChildLoop {
  import opened Text

  datatype Option<T> = None | Some(value: T)

  /** The outcome of a call into the outside world. */
  datatype Reply<T> = Err(error: string) | Value(value: T)

  datatype Json = Null | Bool(b: bool) | Num(n: int) | Str(s: string) | Arr(items: seq<Json>) | Obj(fields: map<string, Json>)

  type Object = map<string, Json>

  datatype ToolCall = ToolCall(id: string, kind: string, name: string, arguments: string)

  datatype Message = Message(role: string, content: string, name: string, toolCallID: string, toolCalls: seq<ToolCall>)

  function Say(role: string, content: string): Message {
    Message(role, content, "", "", [])
  }

  /** The fixed notes of trace steps. */
  datatype Note = NoNote | LoopSnapshot | LoopCompleted | NativeFinal | NonJsonFinal | StubFallback

  datatype StepKind = SnapshotStep | ToolStep | FinalStep

  datatype TraceStep = TraceStep(iteration: int, kind: StepKind, tool: string, input: Option<Object>, output: Option<Object>,
                                 snapshot: Option<Json>, verified: bool, verifier: string, verificationClass: string,
                                 error: string, note: Note)

  datatype Action = Action(kind: string, tool: string, input: Object, summary: string, risks: seq<string>)

  datatype Completion = Completion(content: string, toolCalls: seq<ToolCall>)

  datatype Runtime = ToolCalling | JsonOnly

  function RuntimeName(runtime: Runtime): string {
    match runtime case ToolCalling => "llm-toolcalls" case JsonOnly => "llm"
  }

  datatype Call = Call(tool: string, input: Object)

  /** Everything the loops take from outside: the model, the tool registry, the store, JSON text. */
  datatype World = World(
    username: string,
    parentID: int,
    taskID: string,
    allowed: seq<string>,
    complete: (Runtime, int, seq<Message>, string) -> Reply<Completion>,
    post: (Runtime, int) -> Option<string>,
    parseAction: string -> Option<Action>,
    parseArguments: string -> Reply<Object>,
    execute: (nat, Call) -> Reply<Object>,
    render: Object -> string)

  /** The local variables of a loop, with the tool executions made so far. */
  datatype Loop = Loop(prompt: string, history: seq<Message>, trace: seq<TraceStep>, risks: seq<string>, calls: seq<Call>)

  const CAP: int := 4

  // ---------- snapshots ----------

  function CallJson(c: ToolCall): Json {
    Obj(map["id" := Str(c.id), "type" := Str(c.kind),
            "function" := Obj(map["name" := Str(c.name), "arguments" := Str(c.arguments)])])
  }

  function CallJsons(cs: seq<ToolCall>): seq<Json> {
    if cs == [] then [] else [CallJson(cs[0])] + CallJsons(cs[1..])
  }

  function MessageJson(m: Message): Json {
    var entry := map["role" := Str(m.role), "content" := Str(TrimSpace(m.content))];
    var entry := if Blank(m.name) then entry else entry["name" := Str(TrimSpace(m.name))];
    var entry := if Blank(m.toolCallID) then entry else entry["tool_call_id" := Str(TrimSpace(m.toolCallID))];
    Obj(if m.toolCalls == [] then entry
        else entry["tool_calls" := Arr(CallJsons(m.toolCalls))])
  }

  function MessageJsons(ms: seq<Message>): seq<Json> {
    if ms == [] then [] else [MessageJson(ms[0])] + MessageJsons(ms[1..])
  }

  function Strings(ss: seq<string>): seq<Json> {
    if ss == [] then [] else [Str(ss[0])] + Strings(ss[1..])
  }

  /** A nil slice is encoded as null, an allocated one as an array. */
  function RisksJson(risks: seq<string>): Json {
    if risks == [] then Null else Arr(Strings(risks))
  }

  function SnapshotJson(w: World, runtime: Runtime, iteration: int, st: Loop): Json {
    Obj(map[
      "task_id" := Str(w.taskID),
      "current_prompt" := Str(TrimSpace(st.prompt)),
      "history_len" := Num(|st.history|),
      "history" := Arr(MessageJsons(st.history)),
      "allowed_tools" := Arr(Strings(w.allowed)),
      "next_iteration" := Num(iteration + 1),
      "runtime" := Str(TrimSpace(RuntimeName(runtime))),
      "tool_risks" := RisksJson(st.risks)])
  }

  function Snapshot(w: World, runtime: Runtime, iteration: int, st: Loop): TraceStep {
    TraceStep(iteration, SnapshotStep, "", None, None, Some(SnapshotJson(w, runtime, iteration, st)),
              false, "", "", "", LoopSnapshot)
  }

  function Final(iteration: int, note: Note): TraceStep {
    TraceStep(iteration, FinalStep, "", None, None, None, false, "", "", "", note)
  }

  function ToolResult(iteration: int, tool: string, input: Option<Object>, error: string): TraceStep {
    TraceStep(iteration, ToolStep, tool, input, None, None, false, "", "", error, NoNote)
  }

  // ---------- tools ----------

  function Verdict(output: Object, field: string, check: string, missing: string): (bool, string, string) {
    if field in output then (true, check, "ok") else (false, check, missing)
  }

  function Verify(tool: string, output: Object): (bool, string, string) {
    if tool == "session.search" then Verdict(output, "results", "results field check", "missing_results_field")
    else if tool == "session.history" then Verdict(output, "sessions", "sessions field check", "missing_sessions_field")
    else if tool == "memory.read" then Verdict(output, "memory", "memory field check", "missing_memory_field")
    else if tool == "system.exec_profile" then
      Verdict(output, "results", "execution profile results check", "missing_results_field")
    else if |output| > 0 then (true, "non-empty output check", "ok")
    else (false, "non-empty output check", "empty_output")
  }

  datatype Executed = Executed(step: TraceStep, risk: string, message: Message, error: Option<string>, calls: seq<Call>)

  const NO_MESSAGE := Say("", "")

  /** Runs one requested tool, if it is on the allowlist, under the caller's own name. */
  function ExecuteAction(w: World, iteration: int, tool: string, input: Object, calls: seq<Call>): Executed {
    if tool !in w.allowed then
      Executed(ToolResult(iteration, tool, Some(input), "tool not allowed"),
               "Child attempted a tool outside its allowlist: " + tool, NO_MESSAGE, Some("tool not allowed"), calls)
    else
      var call := Call(tool, input["username" := Str(w.username)]);
      match w.execute(|calls|, call)
      case Err(e) =>
        Executed(ToolResult(iteration, tool, Some(input), e), "Child tool execution failed: " + tool, NO_MESSAGE, Some(e), calls + [call])
      case Value(output) =>
        var (verified, verifier, class_) := Verify(tool, output);
        Executed(TraceStep(iteration, ToolStep, tool, Some(input), Some(output), None, verified, verifier, class_, "", NoNote),
                 "", Message("tool", w.render(output), tool, "", []), None, calls + [call])
  }

  function ParseArguments(w: World, arguments: string): Reply<Object> {
    if Blank(arguments) then Value(map[]) else w.parseArguments(arguments)
  }

  function ExecuteCall(w: World, iteration: int, c: ToolCall, calls: seq<Call>): Executed {
    match ParseArguments(w, c.arguments)
    case Err(e) =>
      Executed(ToolResult(iteration, c.name, None, "invalid tool arguments: " + e),
               "Child produced invalid tool arguments for " + c.name, NO_MESSAGE, Some(e), calls)
    case Value(input) =>
      var done := ExecuteAction(w, iteration, c.name, input, calls);
      done.(message := done.message.(toolCallID := c.id, name := c.name))
  }

  // ---------- one iteration ----------

  datatype Turn = Next(st: Loop) | Stop(summary: string, st: Loop) | Broken(error: string, st: Loop)

  function Record(st: Loop, done: Executed): Loop {
    st.(trace := st.trace + [done.step], risks := if done.risk != "" then st.risks + [done.risk] else st.risks,
        calls := done.calls)
  }

  function FailurePrompt(runtime: Runtime, tool: string, error: string): string {
    match runtime
    case ToolCalling =>
      "Tool " + tool + " failed with error: " + error + ". Finish the task with a concise final response."
    case JsonOnly => "Tool " + tool + " failed with error: " + error + ". Return final JSON now."
  }

  function ReturnedPrompt(tool: string, content: string): string {
    "Tool " + tool + " returned: " + content + "\nReturn either another tool JSON or a final JSON summary."
  }

  /** The calls of one completion in order, up to the first that fails. */
  function RunCalls(w: World, iteration: int, st: Loop, cs: seq<ToolCall>): Loop
    decreases |cs|
  {
    if cs == [] then st.(prompt := "")
    else
      var done := ExecuteCall(w, iteration, cs[0], st.calls);
      var st := Record(st, done);
      match done.error
      case Some(e) => st.(prompt := FailurePrompt(ToolCalling, cs[0].name, e))
      case None => RunCalls(w, iteration, st.(history := st.history + [done.message]), cs[1..])
  }

  /** The loop's variables after one requested tool: on failure only the prompt changes. */
  function Resume(runtime: Runtime, tool: string, st: Loop, done: Executed, said: seq<Message>, prompt: string): Loop {
    match done.error
    case Some(e) => st.(prompt := FailurePrompt(runtime, tool, e))
    case None => st.(history := st.history + said + [done.message], prompt := prompt)
  }

  function Open(w: World, runtime: Runtime, iteration: int, st: Loop): Loop {
    st.(trace := st.trace + [Snapshot(w, runtime, iteration, st)])
  }

  function Close(st: Loop, iteration: int, note: Note, risks: seq<string>): Loop {
    st.(trace := st.trace + [Final(iteration, note)], risks := st.risks + risks)
  }

  /** A completion without native tool calls: perhaps a tool or a final action in its text. */
  function NativeText(w: World, iteration: int, st: Loop, content: string): Turn {
    match w.parseAction(content)
    case Some(a) =>
      if a.kind == "tool" then
        var done := ExecuteAction(w, iteration, a.tool, a.input, st.calls);
        Next(Resume(ToolCalling, a.tool, Record(st, done), done, [Say("assistant", content)], ""))
      else if a.kind == "final" then
        Stop(TrimSpace(a.summary), Close(st, iteration, LoopCompleted, a.risks))
      else
        Stop(TrimSpace(content), Close(st, iteration, NativeFinal, []))
    case None => Stop(TrimSpace(content), Close(st, iteration, NativeFinal, []))
  }

  /** The rest of a tool-calling iteration, after its snapshot. */
  function ToolCallingTurn(w: World, iteration: int, st: Loop): Turn {
    match w.complete(ToolCalling, iteration, st.history, st.prompt)
    case Err(e) => Broken(e, st)
    case Value(c) =>
      match w.post(ToolCalling, iteration)
      case Some(e) => Broken(e, st)
      case None =>
        if c.toolCalls != [] then
          Next(RunCalls(w, iteration, st.(history := st.history + [Message("assistant", c.content, "", "", c.toolCalls)]), c.toolCalls))
        else NativeText(w, iteration, st, c.content)
  }

  /** The action a JSON-only answer asks for. */
  function JsonAction(w: World, iteration: int, st: Loop, a: Action): Turn {
    if a.kind == "final" then Stop(TrimSpace(a.summary), Close(st, iteration, LoopCompleted, a.risks))
    else if a.kind != "tool" then Broken("unknown child action type " + a.kind, st)
    else Next(JsonTool(w, iteration, st, a))
  }

  function JsonTool(w: World, iteration: int, st: Loop, a: Action): Loop {
    var done := ExecuteAction(w, iteration, a.tool, a.input, st.calls);
    Resume(JsonOnly, a.tool, Record(st, done), done, [], ReturnedPrompt(a.tool, done.message.content))
  }

  /** The rest of a JSON-only iteration, after its snapshot. */
  function JsonTurn(w: World, iteration: int, st: Loop): Turn {
    match w.complete(JsonOnly, iteration, st.history, st.prompt)
    case Err(e) => Broken(e, st)
    case Value(c) =>
      match w.post(JsonOnly, iteration)
      case Some(e) => Broken(e, st)
      case None =>
        var st := st.(history := st.history + [Say("user", st.prompt), Say("assistant", c.content)]);
        match w.parseAction(c.content)
        case None => Stop(TrimSpace(c.content), Close(st, iteration, NonJsonFinal, []))
        case Some(a) => JsonAction(w, iteration, st, a)
  }

  function Answer(w: World, runtime: Runtime, iteration: int, st: Loop): Turn {
    match runtime case ToolCalling => ToolCallingTurn(w, iteration, st) case JsonOnly => JsonTurn(w, iteration, st)
  }

  // ---------- the loop ----------

  datatype LoopResult = Completed(summary: string, capped: bool, st: Loop) | Failed(error: string, st: Loop)

  /** One iteration, as a function of its number and the state at its top. */
  type Body = (int, Loop) -> Turn

  function BodyOf(w: World, runtime: Runtime): Body {
    (iteration, st) => Answer(w, runtime, iteration, Open(w, runtime, iteration, st))
  }

  function RunFrom(body: Body, iteration: int, st: Loop): LoopResult
    decreases CAP - iteration
  {
    if iteration > CAP then
      Completed("Child loop reached iteration cap.", true, st.(risks := st.risks + ["Child reached iteration cap."]))
    else
      match body(iteration, st)
      case Next(st) => RunFrom(body, iteration + 1, st)
      case Stop(summary, st) => Completed(summary, false, st)
      case Broken(e, st) => Failed(e, st)
  }

  /** The number of the last iteration begun, and the state at its top. */
  function LastTop(body: Body, iteration: int, st: Loop): (int, Loop)
    requires iteration <= CAP
    decreases CAP - iteration
  {
    match body(iteration, st)
    case Next(st') => if iteration < CAP then LastTop(body, iteration + 1, st') else (iteration, st)
    case Stop(_, _) => (iteration, st)
    case Broken(_, _) => (iteration, st)
  }

  datatype Seed = Seed(prompt: string, nextIteration: int, runtime: string, risks: seq<string>)

  const FRESH := Seed("", 0, "", [])

  function Start(seed: Seed): int {
    if seed.nextIteration > 1 then seed.nextIteration else 1
  }

  function Begin(prompt: string, history: seq<Message>, seed: Seed, calls: seq<Call>): Loop {
    Loop(if Blank(seed.prompt) then prompt else TrimSpace(seed.prompt), history, [], seed.risks, calls)
  }

  // ---------- the trace of a run ----------

  predicate Succeeds(a: TraceStep, b: TraceStep) {
    && a.kind != FinalStep
    && b.iteration == (if b.kind == SnapshotStep then a.iteration + 1 else a.iteration)
  }

  /** Starts with the snapshot of iteration `from`; then per iteration one snapshot and its tool steps; final only at the end. */
  predicate Chain(trace: seq<TraceStep>, from: int) {
    && (trace != [] ==> trace[0].kind == SnapshotStep && trace[0].iteration == from)
    && forall k | 0 < k < |trace| :: Succeeds(trace[k - 1], trace[k])
  }

  predicate LastIs(trace: seq<TraceStep>, iteration: int) {
    trace != [] && trace[|trace| - 1].iteration == iteration
  }

  predicate ToolSteps(seg: seq<TraceStep>, iteration: int) {
    forall step | step in seg :: step.kind == ToolStep && step.iteration == iteration && step.snapshot == None
  }

  predicate Permitted(w: World, calls: seq<Call>) {
    forall c | c in calls :: c.tool in w.allowed && "username" in c.input && c.input["username"] == Str(w.username)
  }

  /** Only tool steps of this iteration are added, risks and calls only grow, and calls stay permitted. */
  predicate Grows(w: World, iteration: int, st: Loop, st': Loop) {
    && st.trace <= st'.trace && ToolSteps(st'.trace[|st.trace|..], iteration)
    && st.risks <= st'.risks
    && st.calls <= st'.calls
    && (Permitted(w, st.calls) ==> Permitted(w, st'.calls))
  }

  lemma GrowsTwice(w: World, iteration: int, a: Loop, b: Loop, c: Loop)
    requires Grows(w, iteration, a, b) && Grows(w, iteration, b, c)
    ensures Grows(w, iteration, a, c)
  {
    assert c.trace[|a.trace|..] == b.trace[|a.trace|..] + c.trace[|b.trace|..];
  }

  lemma ActionGrows(w: World, iteration: int, tool: string, input: Object, st: Loop)
    ensures Grows(w, iteration, st, Record(st, ExecuteAction(w, iteration, tool, input, st.calls)))
  {
    var done := ExecuteAction(w, iteration, tool, input, st.calls);
    assert Record(st, done).trace[|st.trace|..] == [done.step];
  }

  lemma CallGrows(w: World, iteration: int, c: ToolCall, st: Loop)
    ensures Grows(w, iteration, st, Record(st, ExecuteCall(w, iteration, c, st.calls)))
  {
    match ParseArguments(w, c.arguments)
    case Err(e) =>
      var done := ExecuteCall(w, iteration, c, st.calls);
      assert Record(st, done).trace[|st.trace|..] == [done.step];
    case Value(input) =>
      ActionGrows(w, iteration, c.name, input, st);
  }

  lemma {:induction false} RunCallsGrows(w: World, iteration: int, st: Loop, cs: seq<ToolCall>)
    ensures Grows(w, iteration, st, RunCalls(w, iteration, st, cs))
    decreases |cs|
  {
    if cs != [] {
      CallGrows(w, iteration, cs[0], st);
      var done := ExecuteCall(w, iteration, cs[0], st.calls);
      var st1 := Record(st, done);
      if done.error.None? {
        var st2 := st1.(history := st1.history + [done.message]);
        RunCallsGrows(w, iteration, st2, cs[1..]);
        GrowsTwice(w, iteration, st, st2, RunCalls(w, iteration, st2, cs[1..]));
      }
    }
  }

  /** The same, then the one final step. */
  predicate Shuts(w: World, iteration: int, st: Loop, st': Loop) {
    && |st.trace| < |st'.trace| && st.trace <= st'.trace
    && ToolSteps(st'.trace[|st.trace|..|st'.trace| - 1], iteration)
    && st'.trace[|st'.trace| - 1].kind == FinalStep && st'.trace[|st'.trace| - 1].iteration == iteration
    && st'.trace[|st'.trace| - 1].snapshot == None
    && st.risks <= st'.risks
    && (Permitted(w, st.calls) ==> Permitted(w, st'.calls))
  }

  lemma CloseShuts(w: World, iteration: int, st: Loop, mid: Loop, note: Note, risks: seq<string>)
    requires Grows(w, iteration, st, mid)
    ensures Shuts(w, iteration, st, Close(mid, iteration, note, risks))
  {
    var t := Close(mid, iteration, note, risks).trace;
    assert t[|st.trace|..|t| - 1] == mid.trace[|st.trace|..];
  }

  predicate AnswerGood(w: World, iteration: int, st: Loop, turn: Turn) {
    match turn
    case Next(st') => Grows(w, iteration, st, st')
    case Stop(_, st') => Shuts(w, iteration, st, st')
    case Broken(_, st') => Grows(w, iteration, st, st')
  }

  lemma NativeTextGrows(w: World, iteration: int, st: Loop, content: string)
    ensures AnswerGood(w, iteration, st, NativeText(w, iteration, st, content))
  {
    if w.parseAction(content).Some? {
      var a := w.parseAction(content).value;
      if a.kind == "tool" {
        ActionGrows(w, iteration, a.tool, a.input, st);
      } else {
        CloseShuts(w, iteration, st, st, LoopCompleted, a.risks);
      }
    }
    CloseShuts(w, iteration, st, st, NativeFinal, []);
  }

  lemma ToolCallingGrows(w: World, iteration: int, st: Loop)
    ensures AnswerGood(w, iteration, st, ToolCallingTurn(w, iteration, st))
  {
    match w.complete(ToolCalling, iteration, st.history, st.prompt)
    case Err(_) =>
    case Value(c) =>
      if c.toolCalls != [] {
        RunCallsGrows(w, iteration, st.(history := st.history + [Message("assistant", c.content, "", "", c.toolCalls)]), c.toolCalls);
      } else {
        NativeTextGrows(w, iteration, st, c.content);
      }
  }

  lemma JsonActionGrows(w: World, iteration: int, st: Loop, a: Action)
    ensures AnswerGood(w, iteration, st, JsonAction(w, iteration, st, a))
  {
    if a.kind == "final" {
      CloseShuts(w, iteration, st, st, LoopCompleted, a.risks);
    } else if a.kind == "tool" {
      JsonToolGrows(w, iteration, st, a);
    }
  }

  lemma JsonToolGrows(w: World, iteration: int, st: Loop, a: Action)
    ensures Grows(w, iteration, st, JsonTool(w, iteration, st, a))
  {
    ActionGrows(w, iteration, a.tool, a.input, st);
  }

  lemma JsonGrows(w: World, iteration: int, st: Loop)
    ensures AnswerGood(w, iteration, st, JsonTurn(w, iteration, st))
  {
    match w.complete(JsonOnly, iteration, st.history, st.prompt)
    case Err(_) =>
    case Value(c) =>
      var st2 := st.(history := st.history + [Say("user", st.prompt), Say("assistant", c.content)]);
      CloseShuts(w, iteration, st2, st2, NonJsonFinal, []);
      if w.parseAction(c.content).Some? {
        JsonActionGrows(w, iteration, st2, w.parseAction(c.content).value);
      }
  }

  lemma AnswerGrows(w: World, runtime: Runtime, iteration: int, st: Loop)
    ensures AnswerGood(w, iteration, st, Answer(w, runtime, iteration, st))
  {
    if runtime == ToolCalling {
      ToolCallingGrows(w, iteration, st);
    } else {
      JsonGrows(w, iteration, st);
    }
  }

  /** The trace so far ends in iteration `iteration - 1` (or has not begun) and is not final. */
  predicate Underway(trace: seq<TraceStep>, from: int, iteration: int) {
    && Chain(trace, from)
    && (if trace == [] then iteration == from
        else from < iteration && LastIs(trace, iteration - 1) && trace[|trace| - 1].kind != FinalStep)
  }

  lemma OpenChains(trace: seq<TraceStep>, from: int, iteration: int, step: TraceStep)
    requires Underway(trace, from, iteration) && step.kind == SnapshotStep && step.iteration == iteration
    ensures from <= iteration && Underway(trace + [step], from, iteration + 1)
  {
  }

  lemma {:induction false} GrowChains(trace: seq<TraceStep>, more: seq<TraceStep>, from: int, iteration: int)
    requires trace != [] && Underway(trace, from, iteration + 1) && ToolSteps(more, iteration)
    ensures Underway(trace + more, from, iteration + 1)
    decreases |more|
  {
    if more == [] {
      assert trace + more == trace;
    } else {
      assert more[0] in more;
      assert Underway(trace + [more[0]], from, iteration + 1);
      assert forall step | step in more[1..] :: step in more;
      GrowChains(trace + [more[0]], more[1..], from, iteration);
      assert trace + more == trace + [more[0]] + more[1..];
    }
  }

  /** What an iteration that begins properly leaves behind. */
  predicate TurnGood(w: World, from: int, iteration: int, st: Loop, turn: Turn) {
    && st.trace < turn.st.trace && st.risks <= turn.st.risks
    && (Permitted(w, st.calls) ==> Permitted(w, turn.st.calls))
    && (if turn.Stop?
        then Chain(turn.st.trace, from) && LastIs(turn.st.trace, iteration) && turn.st.trace[|turn.st.trace| - 1].kind == FinalStep
        else Underway(turn.st.trace, from, iteration + 1))
  }

  lemma TurnChains(w: World, runtime: Runtime, from: int, iteration: int, st: Loop)
    requires Underway(st.trace, from, iteration)
    ensures TurnGood(w, from, iteration, st, BodyOf(w, runtime)(iteration, st))
  {
    var top := Open(w, runtime, iteration, st);
    OpenChains(st.trace, from, iteration, Snapshot(w, runtime, iteration, st));
    AnswerGrows(w, runtime, iteration, top);
    AnswerChains(w, from, iteration, top, Answer(w, runtime, iteration, top));
  }

  lemma AnswerChains(w: World, from: int, iteration: int, top: Loop, turn: Turn)
    requires top.trace != [] && Underway(top.trace, from, iteration + 1) && AnswerGood(w, iteration, top, turn)
    ensures top.trace <= turn.st.trace && top.risks <= turn.st.risks && (Permitted(w, top.calls) ==> Permitted(w, turn.st.calls))
    ensures if turn.Stop?
            then Chain(turn.st.trace, from) && LastIs(turn.st.trace, iteration) && turn.st.trace[|turn.st.trace| - 1].kind == FinalStep
            else Underway(turn.st.trace, from, iteration + 1)
  {
    hide Permitted;
    if turn.Stop? {
      ShutTraceChains(top.trace, turn.st.trace, from, iteration);
    } else {
      GrowTraceChains(top.trace, turn.st.trace, from, iteration);
    }
  }

  lemma GrowTraceChains(trace: seq<TraceStep>, t: seq<TraceStep>, from: int, iteration: int)
    requires trace != [] && Underway(trace, from, iteration + 1)
    requires trace <= t && ToolSteps(t[|trace|..], iteration)
    ensures Underway(t, from, iteration + 1)
  {
    GrowChains(trace, t[|trace|..], from, iteration);
    assert t == trace + t[|trace|..];
  }

  lemma ShutTraceChains(trace: seq<TraceStep>, t: seq<TraceStep>, from: int, iteration: int)
    requires trace != [] && Underway(trace, from, iteration + 1)
    requires trace < t && ToolSteps(t[|trace|..|t| - 1], iteration)
    requires t[|t| - 1].kind == FinalStep && t[|t| - 1].iteration == iteration
    ensures Chain(t, from) && LastIs(t, iteration)
  {
    var front := t[..|t| - 1];
    assert front[|trace|..] == t[|trace|..|t| - 1];
    GrowTraceChains(trace, front, from, iteration);
    CloseChain(front, t[|t| - 1], from, iteration);
    assert t == front + [t[|t| - 1]];
  }

  lemma CloseChain(trace: seq<TraceStep>, step: TraceStep, from: int, iteration: int)
    requires trace != [] && Underway(trace, from, iteration + 1) && step.kind == FinalStep && step.iteration == iteration
    ensures Chain(trace + [step], from) && LastIs(trace + [step], iteration)
  {
  }

  ghost predicate GoodBody(w: World, body: Body) {
    forall from: int, iteration: int, st: Loop | Underway(st.trace, from, iteration) ::
      TurnGood(w, from, iteration, st, body(iteration, st))
  }

  lemma BodyIsGood(w: World, runtime: Runtime)
    ensures GoodBody(w, BodyOf(w, runtime))
  {
    forall from: int, iteration: int, st: Loop | Underway(st.trace, from, iteration)
      ensures TurnGood(w, from, iteration, st, BodyOf(w, runtime)(iteration, st))
    {
      TurnChains(w, runtime, from, iteration, st);
    }
  }

  /** Closed by its one final step unless capped; capped only after iteration four or without any iteration. */
  predicate EndsWell(r: LoopResult, from: int) {
    r.Completed? ==>
      if r.st.trace == [] then r.capped && from > CAP
      else
        var last := r.st.trace[|r.st.trace| - 1];
        last.iteration <= CAP && (if r.capped then last.kind != FinalStep && last.iteration == CAP else last.kind == FinalStep)
  }

  /** A run from iteration `from` leaves a well-formed trace, stops in time and executes only allowed tools
      under the caller's name. */
  predicate GoodRun(w: World, r: LoopResult, from: int) {
    && Chain(r.st.trace, from)
    && Permitted(w, r.st.calls)
    && EndsWell(r, from)
    && forall step | step in r.st.trace :: from <= step.iteration <= CAP
  }

  lemma {:induction false} ChainBounds(trace: seq<TraceStep>, from: int)
    requires Chain(trace, from)
    ensures forall j, k | 0 <= j <= k < |trace| :: from <= trace[j].iteration <= trace[k].iteration
    ensures forall j, k | 0 <= j < k < |trace| && trace[k].kind == SnapshotStep :: trace[j].iteration < trace[k].iteration
  {
    if |trace| > 1 {
      var front := trace[..|trace| - 1];
      assert forall k | 0 <= k < |front| :: front[k] == trace[k];
      ChainBounds(front, from);
      assert Succeeds(trace[|trace| - 2], trace[|trace| - 1]);
    }
  }

  lemma {:induction false} RunChains(w: World, body: Body, from: int, iteration: int, st: Loop)
    requires GoodBody(w, body) && Underway(st.trace, from, iteration) && Permitted(w, st.calls)
    requires iteration <= CAP + 1 || st.trace == []
    ensures var r := RunFrom(body, iteration, st);
            && Chain(r.st.trace, from) && Permitted(w, r.st.calls) && EndsWell(r, from)
            && (r.st.trace != [] ==> r.st.trace[|r.st.trace| - 1].iteration <= CAP)
    decreases CAP - iteration
  {
    if iteration <= CAP {
      var turn := body(iteration, st);
      assert TurnGood(w, from, iteration, st, turn);
      if turn.Next? {
        RunChains(w, body, from, iteration + 1, turn.st);
      }
    }
  }

  /** From any seed, either loop is good: every successful return has its iterations in [Start(seed), 4]. */
  lemma LoopIsGood(w: World, runtime: Runtime, prompt: string, history: seq<Message>, seed: Seed, calls: seq<Call>)
    requires Permitted(w, calls)
    ensures GoodRun(w, RunFrom(BodyOf(w, runtime), Start(seed), Begin(prompt, history, seed, calls)), Start(seed))
  {
    var st := Begin(prompt, history, seed, calls);
    BodyIsGood(w, runtime);
    RunChains(w, BodyOf(w, runtime), Start(seed), Start(seed), st);
    ChainBounds(RunFrom(BodyOf(w, runtime), Start(seed), st).st.trace, Start(seed));
  }
}
