/** One child task: which loops it tries, what comes of it, and the trace it stores. */
module ChildTask {
  import opened Text
  import opened ChildLoop

  /** One loop that was run: with what tool executions before it, and what came of it. */
  datatype Attempt = Attempt(runtime: Runtime, calls: seq<Call>, result: LoopResult)

  function Try(w: World, runtime: Runtime, prompt: string, history: seq<Message>, seed: Seed, calls: seq<Call>): Attempt {
    Attempt(runtime, calls, RunFrom(BodyOf(w, runtime), Start(seed), Begin(prompt, history, seed, calls)))
  }

  /** The loops a task runs, in order: the seed's JSON runtime is kept; otherwise tools are tried first, if any is allowed,
      and JSON is the fallback, again from the seed's start. */
  function Attempts(w: World, configured: bool, prompt: string, history: seq<Message>, seed: Seed): (tries: seq<Attempt>)
    ensures |tries| <= 2 && (tries == [] <==> !configured)
  {
    if !configured then []
    else if TrimSpace(seed.runtime) != "llm" && w.allowed != [] then
      var first := Try(w, ToolCalling, prompt, history, seed, []);
      if first.result.Completed? then [first]
      else [first, Try(w, JsonOnly, prompt, history, seed, first.result.st.calls)]
    else [Try(w, JsonOnly, prompt, history, seed, [])]
  }

  /** The last loop run decides. */
  predicate Answered(tries: seq<Attempt>) {
    tries != [] && tries[|tries| - 1].result.Completed?
  }

  /** The one step that is stored for a task without a successful loop, whatever its loops did. */
  const STUB: TraceStep := Final(1, StubFallback)

  function StoredTrace(tries: seq<Attempt>): seq<TraceStep> {
    if Answered(tries) then tries[|tries| - 1].result.st.trace else [STUB]
  }

  predicate IsTry(w: World, prompt: string, history: seq<Message>, seed: Seed, at: Attempt) {
    at == Try(w, at.runtime, prompt, history, seed, at.calls)
  }

  /** Every loop a task runs is a good run from the seed's start: only allowed tools run, under the caller's name. */
  lemma TaskIsGood(w: World, configured: bool, prompt: string, history: seq<Message>, seed: Seed)
    ensures forall at | at in Attempts(w, configured, prompt, history, seed) ::
              IsTry(w, prompt, history, seed, at) && Permitted(w, at.calls) && GoodRun(w, at.result, Start(seed))
  {
    hide GoodRun;
    hide BodyOf;
    hide RunFrom;
    hide Begin;
    hide TrimSpace;
    assert Permitted(w, []);
    LoopIsGood(w, JsonOnly, prompt, history, seed, []);
    LoopIsGood(w, ToolCalling, prompt, history, seed, []);
    var calls := Try(w, ToolCalling, prompt, history, seed, []).result.st.calls;
    CallsPermitted(w, Try(w, ToolCalling, prompt, history, seed, []).result, Start(seed));
    LoopIsGood(w, JsonOnly, prompt, history, seed, calls);
  }

  lemma CallsPermitted(w: World, r: LoopResult, from: int)
    requires GoodRun(w, r, from)
    ensures Permitted(w, r.st.calls)
  {
  }
}
