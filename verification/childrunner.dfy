/** The two child loops as they run: local variables updated step by step. */
module ChildRunner {
  import opened Text
  import opened ChildLoop
  import opened ChildTask
  import Rows = Resume

  lemma Unroll(body: Body, iteration: int, st: Loop)
    requires iteration <= CAP
    ensures RunFrom(body, iteration, st) ==
            match body(iteration, st)
            case Next(st') => RunFrom(body, iteration + 1, st')
            case Stop(summary, st') => Completed(summary, false, st')
            case Broken(e, st') => Failed(e, st')
  {
  }

  /** Either child loop: the tool-calling one and the JSON-only one differ in their iterations alone. */
  method RunLoop(w: World, runtime: Runtime, prompt: string, seedHistory: seq<Message>, seed: Seed, before: seq<Call>)
    returns (r: LoopResult)
    ensures r == RunFrom(BodyOf(w, runtime), Start(seed), Begin(prompt, seedHistory, seed, before))
  {
    hide BodyOf;
    var st := Loop(prompt, seedHistory, [], seed.risks, before);
    if !Blank(seed.prompt) {
      st := st.(prompt := TrimSpace(seed.prompt));
    }
    var iteration := 1;
    if seed.nextIteration > 1 {
      iteration := seed.nextIteration;
    }
    ghost var body := BodyOf(w, runtime);
    while iteration <= CAP
      invariant RunFrom(body, iteration, st) == RunFrom(body, Start(seed), Begin(prompt, seedHistory, seed, before))
    {
      var turn;
      if runtime == ToolCalling {
        turn := ToolCallingIteration(w, iteration, st);
      } else {
        turn := JsonIteration(w, iteration, st);
      }
      Unroll(body, iteration, st);
      if turn.Stop? {
        return Completed(turn.summary, false, turn.st);
      }
      if turn.Broken? {
        return Failed(turn.error, turn.st);
      }
      st := turn.st;
      iteration := iteration + 1;
    }
    return Completed("Child loop reached iteration cap.", true, st.(risks := st.risks + ["Child reached iteration cap."]));
  }

  /** One iteration of the native tool-calling loop. */
  method ToolCallingIteration(w: World, iteration: int, st0: Loop) returns (turn: Turn)
    ensures turn == BodyOf(w, ToolCalling)(iteration, st0)
  {
    var st := st0.(trace := st0.trace + [Snapshot(w, ToolCalling, iteration, st0)]);
    var reply := w.complete(ToolCalling, iteration, st.history, st.prompt);
    if reply.Err? {
      return Broken(reply.error, st);
    }
    var completion := reply.value;
    var posted := w.post(ToolCalling, iteration);
    if posted.Some? {
      return Broken(posted.value, st);
    }
    if |completion.toolCalls| > 0 {
      var history := st.history + [Message("assistant", completion.content, "", "", completion.toolCalls)];
      var st' := RunToolCalls(w, iteration, completion.toolCalls, st.(history := history));
      return Next(st');
    }
    turn := ReadNativeText(w, iteration, st, completion.content);
  }

  method ReadNativeText(w: World, iteration: int, st: Loop, content: string) returns (turn: Turn)
    ensures turn == NativeText(w, iteration, st, content)
  {
    var parsed := w.parseAction(content);
    if parsed.Some? {
      var action := parsed.value;
      if action.kind == "tool" {
        var done := ExecuteAction(w, iteration, action.tool, action.input, st.calls);
        var st' := Record(st, done);
        if done.error.Some? {
          return Next(st'.(prompt := FailurePrompt(ToolCalling, action.tool, done.error.value)));
        }
        return Next(st'.(history := st'.history + [Say("assistant", content)] + [done.message], prompt := ""));
      }
      if action.kind == "final" {
        return Stop(TrimSpace(action.summary), Close(st, iteration, LoopCompleted, action.risks));
      }
    }
    return Stop(TrimSpace(content), Close(st, iteration, NativeFinal, []));
  }

  /** The inner loop over the tool calls of one completion; it leaves at the first failure. */
  method RunToolCalls(w: World, iteration: int, requested: seq<ToolCall>, st0: Loop) returns (st: Loop)
    ensures st == RunCalls(w, iteration, st0, requested)
  {
    st := st0;
    for k := 0 to |requested|
      invariant RunCalls(w, iteration, st, requested[k..]) == RunCalls(w, iteration, st0, requested)
    {
      var call := requested[k];
      assert requested[k..][1..] == requested[k + 1..];
      var done := ExecuteCall(w, iteration, call, st.calls);
      st := Record(st, done);
      if done.error.Some? {
        return st.(prompt := FailurePrompt(ToolCalling, call.name, done.error.value));
      }
      st := st.(history := st.history + [done.message]);
    }
    return st.(prompt := "");
  }

  /** One iteration of the JSON-only loop. */
  method JsonIteration(w: World, iteration: int, st0: Loop) returns (turn: Turn)
    ensures turn == BodyOf(w, JsonOnly)(iteration, st0)
  {
    var st := st0.(trace := st0.trace + [Snapshot(w, JsonOnly, iteration, st0)]);
    var reply := w.complete(JsonOnly, iteration, st.history, st.prompt);
    if reply.Err? {
      return Broken(reply.error, st);
    }
    var response := reply.value.content;
    var posted := w.post(JsonOnly, iteration);
    if posted.Some? {
      return Broken(posted.value, st);
    }
    var said := st.(history := st.history + [Say("user", st.prompt), Say("assistant", response)]);
    var parsed := w.parseAction(response);
    if parsed.None? {
      return Stop(TrimSpace(response), Close(said, iteration, NonJsonFinal, []));
    }
    turn := FollowJsonAction(w, iteration, said, parsed.value);
  }

  method FollowJsonAction(w: World, iteration: int, st: Loop, action: Action) returns (turn: Turn)
    ensures turn == JsonAction(w, iteration, st, action)
  {
    hide ExecuteAction;
    hide ReturnedPrompt;
    hide FailurePrompt;
    hide Close;
    if action.kind == "final" {
      return Stop(TrimSpace(action.summary), Close(st, iteration, LoopCompleted, action.risks));
    }
    if action.kind != "tool" {
      return Broken("unknown child action type " + action.kind, st);
    }
    var done := ExecuteAction(w, iteration, action.tool, action.input, st.calls);
    var st' := Record(st, done);
    if done.error.Some? {
      return Next(st'.(prompt := FailurePrompt(JsonOnly, action.tool, done.error.value)));
    }
    return Next(st'.(history := st'.history + [done.message], prompt := ReturnedPrompt(action.tool, done.message.content)));
  }

  /** Chooses the loop. Whatever happens, only allowed tools run, and every loop that runs is a good run from the seed. */
  method RunTask(w: World, configured: bool, prompt: string, seedHistory: seq<Message>, seed: Seed) returns (tries: seq<Attempt>)
    ensures tries == Attempts(w, configured, prompt, seedHistory, seed)
    ensures forall at | at in tries :: Permitted(w, at.result.st.calls) && GoodRun(w, at.result, Start(seed))
    ensures TrimSpace(seed.runtime) == RuntimeName(JsonOnly) ==> forall at | at in tries :: at.runtime == JsonOnly
    ensures Answered(tries) && tries[|tries| - 1].runtime == ToolCalling ==> w.allowed != []
    ensures tries == [] <==> !configured
    ensures var tools := TrimSpace(seed.runtime) != "llm" && w.allowed != [];
            configured ==>
              && tries[0].runtime == (if tools then ToolCalling else JsonOnly) && tries[0].calls == []
              && (|tries| == 2 <==> tools && tries[0].result.Failed?)
              && (|tries| == 2 ==> tries[1].runtime == JsonOnly && tries[1].calls == tries[0].result.st.calls)
  {
    hide BodyOf;
    hide RunFrom;
    hide TrimSpace;
    TaskIsGood(w, configured, prompt, seedHistory, seed);
    if !configured {
      return [];
    }
    tries := [];
    var calls: seq<Call> := [];
    if TrimSpace(seed.runtime) != "llm" && |w.allowed| > 0 {
      var first := RunLoop(w, ToolCalling, prompt, seedHistory, seed, calls);
      tries := [Attempt(ToolCalling, calls, first)];
      if first.Completed? {
        return;
      }
      calls := first.st.calls;
    }
    var second := RunLoop(w, JsonOnly, prompt, seedHistory, seed, calls);
    tries := tries + [Attempt(JsonOnly, calls, second)];
  }

  /** Runs a child task and stores its trace: that of the loop that succeeded, or the stub step. */
  method RunChild(w: World, configured: bool, prompt: string, seedHistory: seq<Message>, seed: Seed, fallback: string,
                  table: seq<Rows.Row>, child: int)
    returns (table': seq<Rows.Row>, summary: string)
    ensures var tries := Attempts(w, configured, prompt, seedHistory, seed);
            && table' == table + Rows.RowsOf(w, child, StoredTrace(tries))
            && summary == if Answered(tries)
                          then "[runtime=" + RuntimeName(tries[|tries| - 1].runtime) + "] " + tries[|tries| - 1].result.summary
                          else "[runtime=stub] " + fallback
  {
    hide Attempts;
    var tries := RunTask(w, configured, prompt, seedHistory, seed);
    if |tries| > 0 && tries[|tries| - 1].result.Completed? {
      var last := tries[|tries| - 1];
      summary := "[runtime=" + RuntimeName(last.runtime) + "] " + last.result.summary;
      table' := Rows.PersistTrace(table, w, child, last.result.st.trace);
      return;
    }
    summary := "[runtime=stub] " + fallback;
    table' := Rows.PersistTrace(table, w, child, [Final(1, StubFallback)]);
  }
}
