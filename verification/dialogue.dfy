/** What a child's model is asked with, what its answers lead to, and how its conversation grows. */
module Dialogue {
  import opened Text
  import opened ChildLoop

  // ---------- one answer ----------

  /** The model is asked with the history and the prompt at the top of the iteration; its failure breaks the loop. */
  lemma ModelFailureBreaks(w: World, runtime: Runtime, iteration: int, st: Loop, e: string)
    requires w.complete(runtime, iteration, st.history, st.prompt) == Err(e)
    ensures var turn := BodyOf(w, runtime)(iteration, st); turn.Broken? && turn.error == e
  {
    hide Snapshot;
  }

  /** So does a failure to store its answer. */
  lemma PostFailureBreaks(w: World, runtime: Runtime, iteration: int, st: Loop, e: string)
    requires w.complete(runtime, iteration, st.history, st.prompt).Value? && w.post(runtime, iteration) == Some(e)
    ensures var turn := BodyOf(w, runtime)(iteration, st); turn.Broken? && turn.error == e
  {
    hide Snapshot;
  }

  /** The model answered to the history and prompt at the top, and the answer was stored. */
  predicate Answers(w: World, runtime: Runtime, iteration: int, st: Loop, c: Completion) {
    w.complete(runtime, iteration, st.history, st.prompt) == Value(c) && w.post(runtime, iteration).None?
  }

  /** The iteration left its snapshot and a final step with this note. */
  predicate Closed(st: Loop, st': Loop, iteration: int, note: Note) {
    && |st'.trace| == |st.trace| + 2 && st.trace <= st'.trace
    && st'.trace[|st.trace|].kind == SnapshotStep
    && st'.trace[|st.trace| + 1] == TraceStep(iteration, FinalStep, "", None, None, None, false, "", "", "", note)
  }

  /** An answer that is neither a native tool call nor an action is the result, trimmed. */
  lemma TextStops(w: World, runtime: Runtime, iteration: int, st: Loop, c: Completion)
    requires Answers(w, runtime, iteration, st, c) && (runtime == ToolCalling ==> c.toolCalls == []) && w.parseAction(c.content).None?
    ensures var turn := BodyOf(w, runtime)(iteration, st);
            && turn.Stop? && turn.summary == TrimSpace(c.content) && turn.st.risks == st.risks && turn.st.calls == st.calls
            && Closed(st, turn.st, iteration, if runtime == ToolCalling then NativeFinal else NonJsonFinal)
  {
    hide SnapshotJson;
    hide TrimSpace;
    assert st.risks + [] == st.risks;
  }

  /** A final action ends the loop with its trimmed summary and adds its risks. */
  lemma FinalActionStops(w: World, runtime: Runtime, iteration: int, st: Loop, c: Completion, a: Action)
    requires Answers(w, runtime, iteration, st, c) && (runtime == ToolCalling ==> c.toolCalls == [])
    requires w.parseAction(c.content) == Some(a) && a.kind == "final"
    ensures var turn := BodyOf(w, runtime)(iteration, st);
            && turn.Stop? && turn.summary == TrimSpace(a.summary) && turn.st.risks == st.risks + a.risks && turn.st.calls == st.calls
            && Closed(st, turn.st, iteration, LoopCompleted)
  {
    hide SnapshotJson;
    hide TrimSpace;
  }

  /** An action of an unknown kind is text to the tool-calling loop and an error to the JSON loop. */
  lemma UnknownAction(w: World, runtime: Runtime, iteration: int, st: Loop, c: Completion, a: Action)
    requires Answers(w, runtime, iteration, st, c) && (runtime == ToolCalling ==> c.toolCalls == [])
    requires w.parseAction(c.content) == Some(a) && a.kind != "final" && a.kind != "tool"
    ensures var turn := BodyOf(w, runtime)(iteration, st);
            match runtime
            case ToolCalling => turn.Stop? && turn.summary == TrimSpace(c.content) && Closed(st, turn.st, iteration, NativeFinal)
            case JsonOnly => turn.Broken?
  {
    hide SnapshotJson;
    hide TrimSpace;
  }

  // ---------- one tool ----------

  /** Executed as the `n`th tool of the child, under the caller's own name, an allowed tool gives this output. */
  predicate Gives(w: World, n: nat, tool: string, input: Object, output: Object) {
    tool in w.allowed && w.execute(n, Call(tool, input["username" := Str(w.username)])) == Value(output)
  }

  predicate GivesSome(w: World, n: nat, tool: string, input: Object) {
    tool in w.allowed && w.execute(n, Call(tool, input["username" := Str(w.username)])).Value?
  }

  predicate Expected(tool: string, output: Object) {
    match tool
    case "session.search" => "results" in output
    case "session.history" => "sessions" in output
    case "memory.read" => "memory" in output
    case "system.exec_profile" => "results" in output
    case _ => |output| > 0
  }

  /** A successful tool leaves its output, rendered, in a tool message, its step in the trace, checked for the field its kind
      of output must have, and no risk. */
  lemma ToolSucceeds(w: World, iteration: int, tool: string, input: Object, calls: seq<Call>, output: Object)
    requires Gives(w, |calls|, tool, input, output)
    ensures var done := ExecuteAction(w, iteration, tool, input, calls);
            && done.error == None && done.risk == "" && done.message == Message("tool", w.render(output), tool, "", [])
            && done.calls == calls + [Call(tool, input["username" := Str(w.username)])]
            && done.step.kind == ToolStep && done.step.iteration == iteration && done.step.tool == tool && done.step.error == ""
            && done.step.input == Some(input) && done.step.output == Some(output)
            && (done.step.verified <==> Expected(tool, output)) && (done.step.verificationClass == "ok" <==> Expected(tool, output))
  {
  }

  /** Any other tool fails: outside the allowlist without being run, else with the error it gave; its step says so and a risk
      is noted. */
  lemma ToolFails(w: World, iteration: int, tool: string, input: Object, calls: seq<Call>)
    requires !GivesSome(w, |calls|, tool, input)
    ensures var done := ExecuteAction(w, iteration, tool, input, calls);
            && done.error.Some? && done.risk != "" && done.step.tool == tool && done.step.error == done.error.value
            && done.step.output == None && done.step.input == Some(input)
            && (if tool !in w.allowed then done.calls == calls && done.error == Some("tool not allowed")
                else
                  var call := Call(tool, input["username" := Str(w.username)]);
                  done.calls == calls + [call] && w.execute(|calls|, call) == Err(done.error.value))
  {
  }

  // ---------- the tool calls of one answer ----------

  /** The arguments of a call; none are an empty object. */
  predicate Parses(w: World, c: ToolCall, input: Object) {
    if Blank(c.arguments) then input == map[] else w.parseArguments(c.arguments) == Value(input)
  }

  ghost predicate CallGives(w: World, n: nat, c: ToolCall, output: Object) {
    exists input :: Parses(w, c, input) && Gives(w, n, c.name, input, output)
  }

  ghost predicate CallFails(w: World, n: nat, c: ToolCall) {
    forall output :: !CallGives(w, n, c, output)
  }

  predicate ToldAt(w: World, from: nat, cs: seq<ToolCall>, outputs: seq<Object>, history: seq<Message>, k: int)
    requires 0 <= k < |outputs| <= |cs| && from + |outputs| <= |history|
  {
    history[from + k] == Message("tool", w.render(outputs[k]), cs[k].name, cs[k].id, [])
  }

  /** The conversation after these calls gave these outputs: one tool message each, with its name, its id and its output. */
  predicate Told(w: World, st: Loop, cs: seq<ToolCall>, outputs: seq<Object>, history: seq<Message>) {
    && |outputs| <= |cs| && |history| == |st.history| + |outputs| && history[..|st.history|] == st.history
    && forall k | 0 <= k < |outputs| :: ToldAt(w, |st.history|, cs, outputs, history, k)
  }

  /** The `k`th output is what the `k`th call gave, the first of them being the `n`th tool of the child. */
  ghost predicate GivenAt(w: World, n: nat, cs: seq<ToolCall>, outputs: seq<Object>, k: int)
    requires 0 <= k < |outputs| <= |cs|
  {
    CallGives(w, n + k, cs[k], outputs[k])
  }

  /** The calls run in order up to the first that fails. Each before it adds one tool message, with its own output; if none
      fails the next prompt is empty, else the failure is told the model in the next prompt. */
  ghost predicate CallsMean(w: World, st: Loop, cs: seq<ToolCall>, outputs: seq<Object>, st': Loop) {
    && Told(w, st, cs, outputs, st'.history)
    && (forall k | 0 <= k < |outputs| :: GivenAt(w, |st.calls|, cs, outputs, k))
    && (|outputs| == |cs| ==> st'.prompt == "")
    && (|outputs| < |cs| ==>
          && CallFails(w, |st.calls| + |outputs|, cs[|outputs|])
          && "Tool " + cs[|outputs|].name + " failed with error: " <= st'.prompt)
  }

  lemma CallSucceeds(w: World, iteration: int, c: ToolCall, calls: seq<Call>)
    ensures var done := ExecuteCall(w, iteration, c, calls);
            && (done.error.None? ==> exists output ::
                  CallGives(w, |calls|, c, output) && done.message == Message("tool", w.render(output), c.name, c.id, []))
            && (done.error.None? ==> |done.calls| == |calls| + 1)
            && (done.error.Some? ==> CallFails(w, |calls|, c))
  {
    hide Verify;
    var args := ParseArguments(w, c.arguments);
    if args.Value? {
      var input := args.value;
      assert Parses(w, c, input);
      if GivesSome(w, |calls|, c.name, input) {
        var output := w.execute(|calls|, Call(c.name, input["username" := Str(w.username)])).value;
        assert Gives(w, |calls|, c.name, input, output);
        ToolSucceeds(w, iteration, c.name, input, calls, output);
        assert CallGives(w, |calls|, c, output);
      } else {
        ToolFails(w, iteration, c.name, input, calls);
      }
    }
  }

  lemma {:induction false} CallsTold(w: World, iteration: int, st: Loop, cs: seq<ToolCall>) returns (outputs: seq<Object>)
    ensures CallsMean(w, st, cs, outputs, RunCalls(w, iteration, st, cs))
    decreases |cs|
  {
    hide ExecuteCall;
    hide CallGives;
    hide CallsMean;
    if cs == [] {
      outputs := [];
      NoCalls(w, st);
    } else {
      var done := ExecuteCall(w, iteration, cs[0], st.calls);
      CallSucceeds(w, iteration, cs[0], st.calls);
      if done.error.None? {
        var output :| CallGives(w, |st.calls|, cs[0], output) && done.message == Message("tool", w.render(output), cs[0].name, cs[0].id, []);
        var next := Record(st, done).(history := Record(st, done).history + [done.message]);
        var rest := CallsTold(w, iteration, next, cs[1..]);
        outputs := [output] + rest;
        TellOne(w, st, cs, output, rest, next, RunCalls(w, iteration, next, cs[1..]));
      } else {
        outputs := [];
        FirstFails(w, st, cs, Record(st, done).(prompt := FailurePrompt(ToolCalling, cs[0].name, done.error.value)), done.error.value);
      }
    }
  }

  lemma NoCalls(w: World, st: Loop)
    ensures CallsMean(w, st, [], [], st.(prompt := ""))
  {
    assert st.history[..|st.history|] == st.history;
  }

  lemma FirstFails(w: World, st: Loop, cs: seq<ToolCall>, st': Loop, e: string)
    requires cs != [] && st'.history == st.history && st'.prompt == FailurePrompt(ToolCalling, cs[0].name, e)
    requires CallFails(w, |st.calls|, cs[0])
    ensures CallsMean(w, st, cs, [], st')
  {
    hide CallGives;
    assert st.history[..|st.history|] == st.history;
    FailureNames(cs[0].name, e);
  }

  lemma TellOne(w: World, st: Loop, cs: seq<ToolCall>, output: Object, rest: seq<Object>, next: Loop, st': Loop)
    requires cs != [] && next.history == st.history + [Message("tool", w.render(output), cs[0].name, cs[0].id, [])]
    requires |next.calls| == |st.calls| + 1 && CallGives(w, |st.calls|, cs[0], output)
    requires CallsMean(w, next, cs[1..], rest, st')
    ensures CallsMean(w, st, cs, [output] + rest, st')
  {
    hide CallGives;
    var outputs := [output] + rest;
    HistoryOne(w, st, cs, output, rest, next, st'.history);
    forall k | 0 <= k < |outputs| ensures GivenAt(w, |st.calls|, cs, outputs, k) {
      if k > 0 {
        assert GivenAt(w, |next.calls|, cs[1..], rest, k - 1);
      }
    }
    if |outputs| < |cs| {
      assert cs[1..][|rest|] == cs[|outputs|];
    }
  }

  lemma HistoryOne(w: World, st: Loop, cs: seq<ToolCall>, output: Object, rest: seq<Object>, next: Loop, history: seq<Message>)
    requires cs != [] && next.history == st.history + [Message("tool", w.render(output), cs[0].name, cs[0].id, [])]
    requires Told(w, next, cs[1..], rest, history)
    ensures Told(w, st, cs, [output] + rest, history)
  {
    var outputs := [output] + rest;
    assert history[..|st.history|] == history[..|next.history|][..|st.history|];
    forall k | 0 <= k < |outputs| ensures ToldAt(w, |st.history|, cs, outputs, history, k) {
      if k == 0 {
        assert history[|st.history|] == history[..|next.history|][|st.history|];
      } else {
        assert ToldAt(w, |next.history|, cs[1..], rest, history, k - 1);
      }
    }
  }

  lemma FailureNames(tool: string, e: string)
    ensures "Tool " + tool + " failed with error: " <= FailurePrompt(ToolCalling, tool, e)
    ensures "Tool " + tool + " failed with error: " <= FailurePrompt(JsonOnly, tool, e)
  {
  }

  /** This iteration's history and the model's message with its calls. */
  function Asked(st: Loop, c: Completion): Loop {
    st.(history := st.history + [Message("assistant", c.content, "", "", c.toolCalls)])
  }

  /** After native tool calls the next iteration is asked with this one's history, the model's message with its calls, and one
      tool message for each call that succeeded before the first that failed. */
  lemma NextAfterCalls(w: World, iteration: int, st: Loop, c: Completion) returns (outputs: seq<Object>)
    requires Answers(w, ToolCalling, iteration, st, c) && c.toolCalls != []
    ensures var turn := BodyOf(w, ToolCalling)(iteration, st);
            turn.Next? && CallsMean(w, Asked(st, c), c.toolCalls, outputs, turn.st)
  {
    hide RunCalls;
    hide CallsMean;
    hide Snapshot;
    var top := Asked(Open(w, ToolCalling, iteration, st), c);
    outputs := CallsTold(w, iteration, top, c.toolCalls);
    SameCalls(w, top, Asked(st, c), c.toolCalls, outputs, RunCalls(w, iteration, top, c.toolCalls));
  }

  lemma SameCalls(w: World, a: Loop, b: Loop, cs: seq<ToolCall>, outputs: seq<Object>, st': Loop)
    requires CallsMean(w, a, cs, outputs, st') && a.history == b.history && a.calls == b.calls
    ensures CallsMean(w, b, cs, outputs, st')
  {
    hide GivenAt;
    hide CallGives;
    forall k | 0 <= k < |outputs| ensures GivenAt(w, |b.calls|, cs, outputs, k) {
      assert GivenAt(w, |a.calls|, cs, outputs, k);
    }
  }

  // ---------- a tool asked for in the text of an answer ----------

  /** What the model said in this iteration, as the next one's history has it: in the JSON loop always, with the prompt it was
      asked; in the tool-calling loop only if the tool succeeded. */
  function Spoken(runtime: Runtime, st: Loop, c: Completion, succeeded: bool): seq<Message> {
    match runtime
    case ToolCalling => if succeeded then [Say("assistant", c.content)] else []
    case JsonOnly => [Say("user", st.prompt), Say("assistant", c.content)]
  }

  lemma NextAfterAction(w: World, runtime: Runtime, iteration: int, st: Loop, c: Completion, a: Action)
    requires Answers(w, runtime, iteration, st, c) && (runtime == ToolCalling ==> c.toolCalls == [])
    requires w.parseAction(c.content) == Some(a) && a.kind == "tool"
    ensures var turn := BodyOf(w, runtime)(iteration, st);
            && turn.Next?
            && (GivesSome(w, |st.calls|, a.tool, a.input) ==>
                  var output := w.execute(|st.calls|, Call(a.tool, a.input["username" := Str(w.username)])).value;
                  && turn.st.history == st.history + Spoken(runtime, st, c, true) + [Message("tool", w.render(output), a.tool, "", [])]
                  && turn.st.prompt == (if runtime == ToolCalling then ""
                                        else "Tool " + a.tool + " returned: " + w.render(output)
                                             + "\nReturn either another tool JSON or a final JSON summary."))
            && (!GivesSome(w, |st.calls|, a.tool, a.input) ==>
                  && turn.st.history == st.history + Spoken(runtime, st, c, false)
                  && "Tool " + a.tool + " failed with error: " <= turn.st.prompt)
  {
    hide Snapshot;
    hide Verify;
    if GivesSome(w, |st.calls|, a.tool, a.input) {
      ToolSucceeds(w, iteration, a.tool, a.input, st.calls, w.execute(|st.calls|, Call(a.tool, a.input["username" := Str(w.username)])).value);
    } else {
      ToolFails(w, iteration, a.tool, a.input, st.calls);
      FailureNames(a.tool, ExecuteAction(w, iteration, a.tool, a.input, st.calls).error.value);
    }
    hide ExecuteAction;
    hide FailurePrompt;
    assert st.history + [] == st.history;
    assert st.history + Spoken(JsonOnly, st, c, true) + [] == st.history + Spoken(JsonOnly, st, c, true);
  }

  // ---------- the loop around it ----------

  /** Each iteration starts from what the one before left, four at most; then the loop gives up, and says so. */
  lemma LoopContinues(body: Body, iteration: int, st: Loop)
    ensures iteration <= 4 && body(iteration, st).Next? ==>
              RunFrom(body, iteration, st) == RunFrom(body, iteration + 1, body(iteration, st).st)
    ensures iteration <= 4 && body(iteration, st).Stop? ==>
              RunFrom(body, iteration, st) == Completed(body(iteration, st).summary, false, body(iteration, st).st)
    ensures iteration <= 4 && body(iteration, st).Broken? ==>
              RunFrom(body, iteration, st) == Failed(body(iteration, st).error, body(iteration, st).st)
    ensures iteration > 4 ==>
              RunFrom(body, iteration, st) == Completed("Child loop reached iteration cap.", true,
                                                        st.(risks := st.risks + ["Child reached iteration cap."]))
  {
  }

  /** A loop begins with the seed's prompt, if it has one, else the child's own, with the history it is given and the seed's
      risks, at the seed's iteration if that is beyond one. */
  lemma LoopBegins(prompt: string, history: seq<Message>, seed: Seed, calls: seq<Call>)
    ensures var st := Begin(prompt, history, seed, calls);
            && st.history == history && st.risks == seed.risks && st.trace == [] && st.calls == calls
            && (Blank(seed.prompt) ==> st.prompt == prompt) && (!Blank(seed.prompt) ==> st.prompt == TrimSpace(seed.prompt))
    ensures Start(seed) >= 1 && (seed.nextIteration >= 1 ==> Start(seed) == seed.nextIteration)
  {
    hide TrimSpace;
  }
}
