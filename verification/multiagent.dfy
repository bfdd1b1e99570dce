/** Plans, the policy that admits them and the planner that builds them. */
module MultiAgent {
  import opened Text

  datatype TaskMode = Sequential | Parallel | OtherMode(name: string)

  datatype Task = Task(id: string, title: string, goal: string, context: string, historyWindow: int,
                       allowedTools: seq<string>, writeScopes: seq<string>)

  datatype Plan = Plan(objective: string, mode: TaskMode, maxConcurrent: int, tasks: seq<Task>)

  datatype Policy = Policy(maxConcurrent: int)

  datatype Option<T> = None | Some(value: T)

  const BLOCKED_TOOLS: seq<string> :=
    ["delegate_task", "system.exec", "browser.navigate", "browser.click", "memory.write"]

  // ---------- the policy ----------

  datatype TaskError = IDRequired | DuplicateID | GoalRequired | BlockedTool(tool: string) | ScopeConflict(scope: string)

  datatype PolicyError = ObjectiveRequired | TaskRequired | InvalidMode | TooConcurrent | AtTask(i: nat, error: TaskError)

  /** The limit a policy stands for: a non-positive one means three. */
  function Limit(policy: Policy): int {
    if policy.maxConcurrent <= 0 then 3 else policy.maxConcurrent
  }

  function ScopeSet(raws: seq<string>): set<string> {
    if raws == [] then {}
    else ScopeSet(raws[..|raws| - 1]) + if Blank(raws[|raws| - 1]) then {} else {TrimSpace(raws[|raws| - 1])}
  }

  /** The write scopes a task claims, trimmed, blank ones left out. */
  function Scopes(task: Task): set<string> {
    ScopeSet(task.writeScopes)
  }

  lemma {:induction false} ScopeSetMembers(raws: seq<string>)
    ensures ScopeSet(raws) == set raw | raw in raws && !Blank(raw) :: TrimSpace(raw)
  {
    if raws != [] {
      ScopeSetMembers(raws[..|raws| - 1]);
      assert raws == raws[..|raws| - 1] + [raws[|raws| - 1]];
    }
  }

  ghost predicate TaskAcceptable(task: Task) {
    !Blank(task.id) && !Blank(task.goal) && forall t | t in task.allowedTools :: t !in BLOCKED_TOOLS
  }

  ghost predicate TasksAcceptable(tasks: seq<Task>) {
    && (forall i | 0 <= i < |tasks| :: TaskAcceptable(tasks[i]))
    && (forall i, j | 0 <= i < j < |tasks| :: tasks[i].id != tasks[j].id && Scopes(tasks[i]) !! Scopes(tasks[j]))
  }

  ghost predicate Acceptable(policy: Policy, plan: Plan) {
    && !Blank(plan.objective)
    && plan.tasks != []
    && (plan.mode == Sequential || plan.mode == Parallel)
    && plan.maxConcurrent <= Limit(policy)
    && TasksAcceptable(plan.tasks)
  }

  /** A defect of `task`, coming after `before`. */
  ghost predicate TaskJustified(before: seq<Task>, task: Task, error: TaskError) {
    match error
    case IDRequired => Blank(task.id)
    case DuplicateID => exists j | 0 <= j < |before| :: before[j].id == task.id
    case GoalRequired => Blank(task.goal)
    case BlockedTool(tool) => tool in task.allowedTools && tool in BLOCKED_TOOLS
    case ScopeConflict(scope) => scope in Scopes(task) && exists j | 0 <= j < |before| :: scope in Scopes(before[j])
  }

  /** The defect an error names is really there, and no task before the one it names is at fault. */
  ghost predicate Justified(policy: Policy, plan: Plan, error: PolicyError) {
    match error
    case ObjectiveRequired => Blank(plan.objective)
    case TaskRequired => plan.tasks == []
    case InvalidMode => plan.mode.OtherMode?
    case TooConcurrent => plan.maxConcurrent > Limit(policy)
    case AtTask(i, e) => i < |plan.tasks| && TasksAcceptable(plan.tasks[..i]) && TaskJustified(plan.tasks[..i], plan.tasks[i], e)
  }

  /** Accepts exactly the acceptable plans; a refusal names a real defect of the first bad task. */
  method Validate(policy: Policy, plan: Plan) returns (error: Option<PolicyError>)
    ensures error.None? <==> Acceptable(policy, plan)
    ensures error.Some? ==> Justified(policy, plan, error.value)
  {
    if Blank(plan.objective) {
      return Some(ObjectiveRequired);
    }
    if |plan.tasks| == 0 {
      return Some(TaskRequired);
    }
    if plan.mode != Sequential && plan.mode != Parallel {
      return Some(InvalidMode);
    }
    var maxConcurrent := policy.maxConcurrent;
    if maxConcurrent <= 0 {
      maxConcurrent := 3;
    }
    var planned := plan.maxConcurrent;
    if planned <= 0 {
      planned := 1;
    }
    if planned > maxConcurrent {
      return Some(TooConcurrent);
    }
    var seenIDs: set<string> := {};
    var writeOwners: map<string, string> := map[];
    for i := 0 to |plan.tasks|
      invariant TasksAcceptable(plan.tasks[..i])
      invariant Seen(plan.tasks[..i], seenIDs)
      invariant Owned(plan.tasks[..i], writeOwners)
    {
      var problem;
      problem, seenIDs, writeOwners := CheckTask(plan.tasks[..i], plan.tasks[i], seenIDs, writeOwners);
      if problem.Some? {
        FirstBad(plan.tasks, i, problem.value);
        return Some(AtTask(i, problem.value));
      }
      assert plan.tasks[..i + 1] == plan.tasks[..i] + [plan.tasks[i]];
    }
    assert plan.tasks[..|plan.tasks|] == plan.tasks;
    error := None;
  }

  lemma FirstBad(tasks: seq<Task>, i: nat, error: TaskError)
    requires i < |tasks| && TaskJustified(tasks[..i], tasks[i], error)
    ensures !TasksAcceptable(tasks)
  {
  }

  ghost predicate Seen(tasks: seq<Task>, ids: set<string>) {
    ids == set i | 0 <= i < |tasks| :: tasks[i].id
  }

  /** The body of the loop over tasks. */
  method CheckTask(ghost before: seq<Task>, task: Task, seenIDs: set<string>, writeOwners: map<string, string>)
    returns (error: Option<TaskError>, seen: set<string>, owners: map<string, string>)
    requires TasksAcceptable(before) && Seen(before, seenIDs) && Owned(before, writeOwners)
    ensures error.Some? ==> TaskJustified(before, task, error.value)
    ensures error.None? ==>
      TasksAcceptable(before + [task]) && Seen(before + [task], seen) && Owned(before + [task], owners)
  {
    seen, owners := seenIDs, writeOwners;
    if Blank(task.id) {
      return Some(IDRequired), seen, owners;
    }
    if task.id in seen {
      return Some(DuplicateID), seen, owners;
    }
    seen := seen + {task.id};
    if Blank(task.goal) {
      return Some(GoalRequired), seen, owners;
    }
    var blocked := FindBlocked(task.allowedTools);
    if blocked.Some? {
      return Some(BlockedTool(blocked.value)), seen, owners;
    }
    var conflict;
    conflict, owners := ClaimScopes(before, task, owners);
    if conflict.Some? {
      return Some(ScopeConflict(conflict.value)), seen, owners;
    }
    OneMore(before, task);
    SeenOneMore(before, task, seenIDs);
    error := None;
  }

  lemma SeenOneMore(tasks: seq<Task>, task: Task, ids: set<string>)
    requires Seen(tasks, ids)
    ensures Seen(tasks + [task], ids + {task.id})
  {
    var all := tasks + [task];
    assert forall i | 0 <= i < |tasks| :: all[i] == tasks[i];
    assert all[|tasks|] == task;
  }

  lemma OneMore(tasks: seq<Task>, task: Task)
    requires TasksAcceptable(tasks) && TaskAcceptable(task)
    requires forall i | 0 <= i < |tasks| :: tasks[i].id != task.id && Scopes(tasks[i]) !! Scopes(task)
    ensures TasksAcceptable(tasks + [task])
  {
  }

  method FindBlocked(tools: seq<string>) returns (blocked: Option<string>)
    ensures blocked.None? ==> forall t | t in tools :: t !in BLOCKED_TOOLS
    ensures blocked.Some? ==> blocked.value in tools && blocked.value in BLOCKED_TOOLS
  {
    for k := 0 to |tools|
      invariant forall t | t in tools[..k] :: t !in BLOCKED_TOOLS
    {
      if tools[k] in BLOCKED_TOOLS {
        return Some(tools[k]);
      }
    }
    return None;
  }

  /** The owner map of the tasks seen so far. */
  ghost predicate Owned(tasks: seq<Task>, owners: map<string, string>) {
    && (forall i | 0 <= i < |tasks| :: forall scope | scope in Scopes(tasks[i]) :: scope in owners && owners[scope] == tasks[i].id)
    && (forall scope | scope in owners :: exists i | 0 <= i < |tasks| :: scope in Scopes(tasks[i]) && owners[scope] == tasks[i].id)
  }

  method ClaimScopes(ghost tasks: seq<Task>, task: Task, owners: map<string, string>)
    returns (conflict: Option<string>, claimed: map<string, string>)
    requires Owned(tasks, owners)
    requires forall j | 0 <= j < |tasks| :: tasks[j].id != task.id
    ensures conflict.Some? ==> conflict.value in Scopes(task) && exists j | 0 <= j < |tasks| :: conflict.value in Scopes(tasks[j])
    ensures conflict.None? ==> Owned(tasks + [task], claimed) && forall j | 0 <= j < |tasks| :: Scopes(tasks[j]) !! Scopes(task)
  {
    claimed := owners;
    OwnersDiffer(tasks, task, owners);
    ghost var done: set<string> := {};
    for k := 0 to |task.writeScopes|
      invariant done == ScopeSet(task.writeScopes[..k])
      invariant Extended(owners, done, task.id, claimed)
      invariant done !! owners.Keys
    {
      assert task.writeScopes[..k + 1][..k] == task.writeScopes[..k];
      var scope := TrimSpace(task.writeScopes[k]);
      if scope == "" {
        continue;
      }
      ForeignOwner(owners, done, task.id, claimed, scope);
      if scope in claimed && claimed[scope] != task.id {
        ClaimConflicts(tasks, task, owners, scope, k);
        return Some(scope), claimed;
      }
      ExtendOne(owners, done, task.id, claimed, scope);
      claimed := claimed[scope := task.id];
      done := done + {scope};
    }
    assert task.writeScopes[..|task.writeScopes|] == task.writeScopes;
    OwnedExtends(tasks, task, owners, claimed);
    conflict := None;
  }

  lemma ClaimConflicts(tasks: seq<Task>, task: Task, owners: map<string, string>, scope: string, k: nat)
    requires Owned(tasks, owners) && scope in owners
    requires k < |task.writeScopes| && !Blank(task.writeScopes[k]) && scope == TrimSpace(task.writeScopes[k])
    ensures scope in Scopes(task) && exists j | 0 <= j < |tasks| :: scope in Scopes(tasks[j])
  {
    ScopeSetMembers(task.writeScopes);
    assert task.writeScopes[k] in task.writeScopes;
  }

  ghost predicate Extended(owners: map<string, string>, done: set<string>, id: string, claimed: map<string, string>) {
    && claimed.Keys == owners.Keys + done
    && (forall s | s in owners && s !in done :: claimed[s] == owners[s])
    && (forall s | s in done :: claimed[s] == id)
  }

  lemma ExtendOne(owners: map<string, string>, done: set<string>, id: string, claimed: map<string, string>, scope: string)
    requires Extended(owners, done, id, claimed)
    ensures Extended(owners, done + {scope}, id, claimed[scope := id])
  {
  }

  /** A scope already claimed by another task belongs to one of the earlier tasks. */
  lemma ForeignOwner(owners: map<string, string>, done: set<string>, id: string, claimed: map<string, string>, scope: string)
    requires Extended(owners, done, id, claimed) && done !! owners.Keys
    ensures scope in claimed && claimed[scope] != id ==> scope in owners
    ensures !(scope in claimed && claimed[scope] != id) && (forall s | s in owners :: owners[s] != id) ==> scope !in owners
  {
  }

  lemma OwnersDiffer(tasks: seq<Task>, task: Task, owners: map<string, string>)
    requires Owned(tasks, owners) && forall j | 0 <= j < |tasks| :: tasks[j].id != task.id
    ensures forall s | s in owners :: owners[s] != task.id
  {
  }

  lemma OwnedExtends(tasks: seq<Task>, task: Task, owners: map<string, string>, claimed: map<string, string>)
    requires Owned(tasks, owners) && Extended(owners, Scopes(task), task.id, claimed) && Scopes(task) !! owners.Keys
    ensures Owned(tasks + [task], claimed)
    ensures forall j | 0 <= j < |tasks| :: Scopes(tasks[j]) !! Scopes(task)
  {
    var all := tasks + [task];
    assert all[|tasks|] == task;
    forall scope | scope in claimed
      ensures exists i | 0 <= i < |all| :: scope in Scopes(all[i]) && claimed[scope] == all[i].id
    {
      if scope in owners {
        var i :| 0 <= i < |tasks| && scope in Scopes(tasks[i]) && owners[scope] == tasks[i].id;
        assert all[i] == tasks[i];
      }
    }
  }

  // ---------- the planner ----------

  method CanRunParallel(tasks: seq<Task>) returns (yes: bool)
    ensures yes <==> |tasks| > 1 && forall i | 0 <= i < |tasks| :: tasks[i].writeScopes == []
  {
    if |tasks| <= 1 {
      return false;
    }
    for i := 0 to |tasks|
      invariant forall k | 0 <= k < i :: tasks[k].writeScopes == []
    {
      if |tasks[i].writeScopes| > 0 {
        return false;
      }
    }
    return true;
  }

  /** A built plan runs in parallel exactly when it has several tasks and none writes. Under a positive
      policy its concurrency is between one and the limit; under any other, a parallel plan has none. */
  method Build(policy: Policy, objective: string, tasks: seq<Task>) returns (plan: Plan, error: Option<PolicyError>)
    ensures plan.tasks == tasks && plan.objective == TrimSpace(objective)
    ensures plan.mode == Parallel <==> |tasks| > 1 && forall i | 0 <= i < |tasks| :: tasks[i].writeScopes == []
    ensures plan.mode == Parallel || (plan.mode == Sequential && plan.maxConcurrent == 1)
    ensures policy.maxConcurrent >= 1 ==> 1 <= plan.maxConcurrent <= policy.maxConcurrent
    ensures plan.mode == Parallel ==> plan.maxConcurrent <= |tasks|
    ensures plan.mode == Parallel && policy.maxConcurrent < |tasks| ==> plan.maxConcurrent == policy.maxConcurrent
    ensures plan.mode == Parallel && policy.maxConcurrent >= |tasks| ==> plan.maxConcurrent == |tasks|
    ensures error.None? <==> Acceptable(policy, plan)
    ensures error.None? <==> !Blank(objective) && tasks != [] && TasksAcceptable(tasks)
  {
    var mode := Sequential;
    var parallel := CanRunParallel(tasks);
    if parallel {
      mode := Parallel;
    }
    var maxConcurrent := 1;
    if mode == Parallel {
      maxConcurrent := Min(Max(1, |tasks|), policy.maxConcurrent);
    }
    plan := Plan(TrimSpace(objective), mode, maxConcurrent, tasks);
    TrimTwice(objective);
    error := Validate(policy, plan);
  }

  function Min(a: int, b: int): int { if a < b then a else b }

  function Max(a: int, b: int): int { if a > b then a else b }
}
