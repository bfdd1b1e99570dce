/** The job manager: schedules, the persisted job list, and ticks. Instants are nanoseconds; stored stamps are whole seconds. */
module Cron {
  import opened Text
  import opened Timestamps
  import Decimal

  datatype Schedule = Once(runAt: int) | Interval(minutes: int)

  datatype Job = Job(id: string, name: string, username: string, prompt: string, schedule: Schedule, enabled: bool,
                     createdAt: int, updatedAt: int, nextRun: Option<int>, lastRun: Option<int>,
                     lastSession: int, lastOutput: string, lastError: string, runCount: nat)

  // ---------- schedules ----------

  const EVERY: string := "every "

  function ParseMinutes(raw: string): Option<int> {
    var raw := ToLower(TrimSpace(raw));
    if |raw| < 2 then None
    else
      var unit := raw[|raw| - 1];
      var value := Decimal.Parse(TrimSpace(raw[..|raw| - 1]));
      if value.None? || value.value <= 0 then None
      else if unit == 'm' then Some(value.value)
      else if unit == 'h' then Some(value.value * 60)
      else if unit == 'd' then Some(value.value * 1440)
      else None
  }

  /** `parseStamp` reads an RFC 3339 time. */
  function ParseSchedule(raw: string, now: int, parseStamp: string -> Option<int>): Option<Schedule> {
    var raw := TrimSpace(raw);
    if raw == "" then None
    else if |raw| >= 6 && ToLower(raw)[..6] == EVERY then
      var minutes := ParseMinutes(TrimSpace(raw[6..]));
      if minutes.None? then None else Some(Interval(minutes.value))
    else
      match parseStamp(raw)
      case Some(at) => Some(Once(Stamp(at)))
      case None =>
        var minutes := ParseMinutes(raw);
        if minutes.None? then None else Some(Once(Stamp(now + minutes.value * 60 * SECOND)))
  }

  /** A printed number with a unit is that many minutes, hours or days. */
  lemma PrintedDuration(n: nat, unit: char)
    requires n > 0 && 'a' <= unit <= 'z'
    ensures var text := Decimal.Print(n) + [unit];
            && TrimSpace(text) == text
            && ParseMinutes(text) == (match unit case 'm' => Some(n) case 'h' => Some(n * 60) case 'd' => Some(n * 60 * 24) case _ => None)
  {
    hide TrimSpace;
    hide Decimal.Parse;
    hide Decimal.Print;
    var digits := Decimal.Print(n);
    var tail := digits + [unit];
    assert !IsSpace(unit) && Decimal.IsDigit(digits[0]) && Decimal.IsDigit(digits[|digits| - 1]);
    TrimFixed(tail);
    TrimFixed(digits);
    LowerFixed(tail);
    assert tail[..|tail| - 1] == digits && tail[|tail| - 1] == unit;
    Decimal.RoundTrip(n);
  }

  lemma EveryPrefix(tail: string)
    requires tail != "" && !IsSpace(tail[|tail| - 1])
    ensures TrimSpace(EVERY + tail) == EVERY + tail
    ensures |EVERY + tail| >= 6 && ToLower(EVERY + tail)[..6] == EVERY && (EVERY + tail)[6..] == tail
  {
    hide TrimSpace;
    assert !IsSpace(EVERY[0]);
    TrimFixed(EVERY + tail);
    LowerFixed(EVERY);
    assert ToLower(EVERY + tail)[..6] == ToLower(EVERY);
  }

  /** A number of minutes, hours or days after `every` is an interval of that length. */
  lemma EveryMeans(n: nat, unit: char, now: int, parseStamp: string -> Option<int>)
    requires n > 0 && unit in {'m', 'h', 'd'}
    ensures ParseSchedule(EVERY + (Decimal.Print(n) + [unit]), now, parseStamp)
            == Some(Interval(match unit case 'm' => n case 'h' => n * 60 case _ => n * 60 * 24))
  {
    hide TrimSpace;
    hide ParseMinutes;
    hide ToLower;
    hide Decimal.Print;
    var tail := Decimal.Print(n) + [unit];
    assert !IsSpace(tail[|tail| - 1]);
    EveryPrefix(tail);
    PrintedDuration(n, unit);
  }

  /** The display text of an interval is itself a schedule, for the same interval. */
  lemma DisplayParsesBack(minutes: nat, now: int, parseStamp: string -> Option<int>)
    requires minutes > 0
    ensures ParseSchedule(EVERY + (Decimal.Print(minutes) + "m"), now, parseStamp) == Some(Interval(minutes))
  {
    EveryMeans(minutes, 'm', now, parseStamp);
  }

  /** On its own, and unless it is a time, it is one run that much later, in whole seconds. */
  lemma DurationMeans(n: nat, unit: char, now: int, parseStamp: string -> Option<int>)
    requires n > 0 && unit in {'m', 'h', 'd'} && parseStamp(Decimal.Print(n) + [unit]).None?
    ensures ParseSchedule(Decimal.Print(n) + [unit], now, parseStamp)
            == Some(Once(Stamp(now) + n * 60 * (match unit case 'm' => 1 case 'h' => 60 case _ => 60 * 24)))
  {
    hide TrimSpace;
    hide ParseMinutes;
    hide Decimal.Print;
    hide Stamp;
    var text := Decimal.Print(n) + [unit];
    PrintedDuration(n, unit);
    StampShift(now, ParseMinutes(text).value);
    assert Decimal.IsDigit(text[0]);
    if |text| >= 6 {
      assert ToLower(text)[..6][0] == text[0] && EVERY[0] == 'e';
    }
  }

  /** A time is one run at that time. */
  lemma TimeMeans(raw: string, at: int, now: int, parseStamp: string -> Option<int>)
    requires raw != "" && TrimSpace(raw) == raw && parseStamp(raw) == Some(at)
    requires |raw| >= 6 ==> ToLower(raw)[..6] != EVERY
    ensures ParseSchedule(raw, now, parseStamp) == Some(Once(Stamp(at)))
  {
  }

  lemma LowerFixed(s: string)
    requires forall i | 0 <= i < |s| :: !('A' <= s[i] <= 'Z')
    ensures ToLower(s) == s
  {
  }

  lemma ParsedIsPositive(raw: string, now: int, parseStamp: string -> Option<int>)
    ensures var s := ParseSchedule(raw, now, parseStamp);
            s.Some? && s.value.Interval? ==> s.value.minutes >= 1
  {
  }

  // ---------- adding, deleting, ticking ----------

  datatype Input = Input(name: string, username: string, prompt: string, schedule: string)

  datatype AddError = BadSchedule | NameRequired | UsernameRequired | PromptRequired

  datatype AddResult = Refused(error: AddError) | Added(job: Job)

  function FirstRun(schedule: Schedule, now: int): int {
    match schedule case Once(at) => at case Interval(minutes) => Stamp(now + minutes * 60 * SECOND)
  }

  function NewJob(input: Input, schedule: Schedule, now: int): Job {
    Job("cron-" + Decimal.PrintInt(now), TrimSpace(input.name), TrimSpace(input.username), TrimSpace(input.prompt), schedule, true,
        now, now, Some(FirstRun(schedule, now)), None, 0, "", "", 0)
  }

  function Adding(input: Input, now: int, parseStamp: string -> Option<int>): AddResult {
    var schedule := ParseSchedule(input.schedule, now, parseStamp);
    if schedule.None? then Refused(BadSchedule)
    else if Blank(input.name) then Refused(NameRequired)
    else if Blank(input.username) then Refused(UsernameRequired)
    else if Blank(input.prompt) then Refused(PromptRequired)
    else Added(NewJob(input, schedule.value, now))
  }

  function Remaining(jobs: seq<Job>, id: string): seq<Job> {
    if jobs == [] then [] else Remaining(jobs[..|jobs| - 1], id) + if jobs[|jobs| - 1].id == id then [] else [jobs[|jobs| - 1]]
  }

  predicate Due(job: Job, now: int) {
    job.nextRun.Some? && job.nextRun.value * SECOND <= now
  }

  /** What running a job comes to: a failed chat, or a reply whose output file may or may not have been written. */
  datatype Reply = ChatFailed(error: string) | Chatted(session: int, output: string, writeError: string)

  function NextRun(schedule: Schedule, now: int): Option<int> {
    match schedule case Once(_) => None case Interval(minutes) => Some(Stamp(now + minutes * 60 * SECOND))
  }

  function Fired(job: Job, now: int, reply: Reply): Job {
    var job := job.(lastRun := Some(Stamp(now)), updatedAt := now, runCount := job.runCount + 1,
                    nextRun := NextRun(job.schedule, now), enabled := job.enabled && !job.schedule.Once?);
    match reply
    case ChatFailed(e) => job.(lastError := e)
    case Chatted(session, output, "") => job.(lastSession := session, lastOutput := output, lastError := "")
    case Chatted(session, _, e) => job.(lastSession := session, lastError := e)
  }

  datatype TickResult = TickResult(id: string, name: string, username: string, success: bool, session: int, output: string,
                                   error: string, at: int)

  datatype Audit = Audit(username: string, action: string, detail: string)

  function ResultOf(job: Job, now: int, reply: Reply): TickResult {
    match reply
    case ChatFailed(e) => TickResult(job.id, job.name, job.username, false, 0, "", e, now)
    case Chatted(session, output, e) =>
      TickResult(job.id, job.name, job.username, e == "", session, if e == "" then output else "", e, now)
  }

  function AuditOf(job: Job, reply: Reply): Audit {
    match reply
    case ChatFailed(e) => Audit(job.username, "cron_job_failed", "job_id=" + job.id + " name=" + job.name + " err=" + e)
    case Chatted(session, _, _) =>
      Audit(job.username, "cron_job_ran", "job_id=" + job.id + " name=" + job.name + " session_id=" + Decimal.PrintInt(session))
  }

  /** What a run leaves in its job and what it reports agree: it succeeded exactly when no error is left; a failed chat leaves
      session and output as they were, a failed write the output only. Who runs what and when it was created stay. */
  lemma FiredMeans(job: Job, now: int, reply: Reply)
    ensures var f, r := Fired(job, now, reply), ResultOf(job, now, reply);
            && f == job.(lastRun := f.lastRun, updatedAt := f.updatedAt, runCount := f.runCount, nextRun := f.nextRun, enabled := f.enabled,
                         lastSession := f.lastSession, lastOutput := f.lastOutput, lastError := f.lastError)
            && f.runCount == job.runCount + 1 && f.lastRun == Some(Stamp(now)) && f.updatedAt == now
            && (f.enabled <==> job.enabled && job.schedule.Interval?)
            && (r.id, r.name, r.username, r.at) == (job.id, job.name, job.username, now)
            && r.error == f.lastError && (reply.Chatted? ==> (r.success <==> f.lastError == ""))
            && (reply.ChatFailed? ==>
                  && !r.success && f.lastError == reply.error && r.session == 0 && r.output == ""
                  && f.lastSession == job.lastSession && f.lastOutput == job.lastOutput)
            && (reply.Chatted? ==>
                  && f.lastError == reply.writeError && f.lastSession == r.session == reply.session
                  && f.lastOutput == (if r.success then reply.output else job.lastOutput)
                  && r.output == (if r.success then reply.output else ""))
            && AuditOf(job, reply).username == job.username
            && AuditOf(job, reply).action == (if reply.Chatted? then "cron_job_ran" else "cron_job_failed")
  {
  }

  /** An added job carries the trimmed fields, has not run, and first runs when its schedule says. */
  lemma AddedMeans(input: Input, now: int, parseStamp: string -> Option<int>)
    ensures var r, schedule := Adding(input, now, parseStamp), ParseSchedule(input.schedule, now, parseStamp);
            && (r.Added? <==> schedule.Some? && TrimSpace(input.name) != "" && TrimSpace(input.username) != "" && TrimSpace(input.prompt) != "")
            && (r.Added? ==>
                  && (r.job.name, r.job.username, r.job.prompt) == (TrimSpace(input.name), TrimSpace(input.username), TrimSpace(input.prompt))
                  && r.job.schedule == schedule.value && r.job.enabled && r.job.runCount == 0 && r.job.lastRun == None
                  && (r.job.createdAt, r.job.updatedAt) == (now, now)
                  && (schedule.value.Once? ==> r.job.nextRun == Some(schedule.value.runAt))
                  && (schedule.value.Interval? ==> r.job.nextRun == Some(Stamp(now) + schedule.value.minutes * 60)))
  {
    hide ParseSchedule;
    hide TrimSpace;
    hide Stamp;
    hide Decimal.PrintInt;
    var schedule := ParseSchedule(input.schedule, now, parseStamp);
    if schedule.Some? && schedule.value.Interval? {
      StampShift(now, schedule.value.minutes);
    }
  }

  predicate Fires(job: Job, now: int) {
    job.enabled && Due(job, now)
  }

  /** A tick fires each due enabled job once, in order, and leaves the others alone. */
  function Ticked(jobs: seq<Job>, now: int, runner: (nat, Job) -> Reply): (ticked: seq<Job>)
    ensures |ticked| == |jobs|
  {
    seq(|jobs|, i requires 0 <= i < |jobs| => if Fires(jobs[i], now) then Fired(jobs[i], now, runner(i, jobs[i])) else jobs[i])
  }

  lemma TickedAt(jobs: seq<Job>, now: int, runner: (nat, Job) -> Reply, i: nat)
    requires i < |jobs|
    ensures Ticked(jobs, now, runner)[i] == if Fires(jobs[i], now) then Fired(jobs[i], now, runner(i, jobs[i])) else jobs[i]
  {
  }

  function TickResults(jobs: seq<Job>, now: int, runner: (nat, Job) -> Reply): seq<TickResult> {
    if jobs == [] then []
    else
      var i := |jobs| - 1;
      TickResults(jobs[..i], now, runner) + if Fires(jobs[i], now) then [ResultOf(jobs[i], now, runner(i, jobs[i]))] else []
  }

  function TickAudits(jobs: seq<Job>, now: int, runner: (nat, Job) -> Reply): seq<Audit> {
    if jobs == [] then []
    else
      var i := |jobs| - 1;
      TickAudits(jobs[..i], now, runner) + if Fires(jobs[i], now) then [AuditOf(jobs[i], runner(i, jobs[i]))] else []
  }

  // ---------- whole runs ----------

  datatype Op = Add(input: Input) | Delete(id: string) | Tick(runner: (nat, Job) -> Reply)

  datatype Timed = Timed(now: int, op: Op)

  function Step(jobs: seq<Job>, t: Timed, parseStamp: string -> Option<int>): seq<Job> {
    match t.op
    case Add(input) => if Adding(input, t.now, parseStamp).Added? then jobs + [Adding(input, t.now, parseStamp).job] else jobs
    case Delete(id) => Remaining(jobs, id)
    case Tick(runner) => Ticked(jobs, t.now, runner)
  }

  function Run(jobs: seq<Job>, ts: seq<Timed>, parseStamp: string -> Option<int>): seq<Job>
    decreases |ts|
  {
    if ts == [] then jobs else Run(Step(jobs, ts[0], parseStamp), ts[1..], parseStamp)
  }

  /** The clock never goes back. */
  predicate Ordered(ts: seq<Timed>, from: int)
    decreases |ts|
  {
    ts == [] || (from <= ts[0].now && Ordered(ts[1..], ts[0].now))
  }

  /** When an interval job last ran, or was created. */
  function Anchor(job: Job): int {
    if job.lastRun.Some? then job.lastRun.value else Stamp(job.createdAt)
  }

  predicate JobOk(job: Job, clock: int) {
    && job.createdAt <= clock
    && (job.lastRun.None? <==> job.runCount == 0)
    && (match job.schedule
        case Once(at) =>
          if job.enabled then job.runCount == 0 && job.nextRun == Some(at) else job.runCount == 1 && job.nextRun == None
        case Interval(minutes) =>
          && minutes >= 1 && job.enabled
          && job.nextRun == Some(Anchor(job) + minutes * 60)
          && job.runCount * (minutes * 60) <= Anchor(job) - Stamp(job.createdAt)
          && Anchor(job) <= Stamp(clock))
  }

  predicate Inv(jobs: seq<Job>, clock: int) {
    forall i | 0 <= i < |jobs| :: JobOk(jobs[i], clock)
  }

  lemma StampShift(now: int, minutes: int)
    ensures Stamp(now + minutes * 60 * SECOND) == Stamp(now) + minutes * 60
  {
    var q, r := now / SECOND, now % SECOND;
    assert now + minutes * 60 * SECOND == (q + minutes * 60) * SECOND + r;
    DivUnique(now + minutes * 60 * SECOND, q + minutes * 60, r);
  }

  lemma DivUnique(n: int, q: int, r: int)
    requires n == q * SECOND + r && 0 <= r < SECOND
    ensures n / SECOND == q
  {
  }

  lemma StampMonotone(a: int, b: int)
    requires a <= b
    ensures Stamp(a) <= Stamp(b)
  {
  }

  /** Firing keeps a job sound, and an interval job fires at most once an interval however late the tick is. */
  lemma FiredOk(job: Job, clock: int, now: int, reply: Reply)
    requires JobOk(job, clock) && clock <= now && Fires(job, now)
    ensures JobOk(Fired(job, now, reply), now) && !Due(Fired(job, now, reply), now)
    ensures job.schedule.Interval? ==> Stamp(now) - Anchor(job) >= job.schedule.minutes * 60
  {
    match job.schedule
    case Once(_) =>
    case Interval(minutes) =>
      StampShift(now, minutes);
      var step := minutes * 60;
      assert (Anchor(job) + step) * SECOND <= now;
      FloorAtLeast(now, Anchor(job) + step);
      assert (job.runCount + 1) * step == job.runCount * step + step;
      FloorBelow(now, Stamp(now) + step);
  }

  lemma FloorAtLeast(now: int, s: int)
    requires s * SECOND <= now
    ensures s <= Stamp(now)
  {
  }

  lemma FloorBelow(now: int, s: int)
    requires Stamp(now) < s
    ensures now < s * SECOND
  {
  }

  lemma LaterOk(job: Job, clock: int, now: int)
    requires JobOk(job, clock) && clock <= now
    ensures JobOk(job, now)
  {
    StampMonotone(clock, now);
  }

  lemma TickInv(jobs: seq<Job>, clock: int, now: int, runner: (nat, Job) -> Reply)
    requires Inv(jobs, clock) && clock <= now
    ensures Inv(Ticked(jobs, now, runner), now)
    ensures forall i | 0 <= i < |jobs| :: !Fires(Ticked(jobs, now, runner)[i], now)
  {
    forall i | 0 <= i < |jobs|
      ensures JobOk(Ticked(jobs, now, runner)[i], now) && !Fires(Ticked(jobs, now, runner)[i], now)
    {
      if Fires(jobs[i], now) {
        FiredOk(jobs[i], clock, now, runner(i, jobs[i]));
      } else {
        LaterOk(jobs[i], clock, now);
      }
    }
  }

  lemma {:induction false} RemainingMembers(jobs: seq<Job>, id: string)
    ensures forall j :: j in Remaining(jobs, id) <==> j in jobs && j.id != id
  {
    if jobs != [] {
      RemainingMembers(jobs[..|jobs| - 1], id);
      assert jobs == jobs[..|jobs| - 1] + [jobs[|jobs| - 1]];
    }
  }

  lemma AddedOk(input: Input, now: int, parseStamp: string -> Option<int>)
    requires Adding(input, now, parseStamp).Added?
    ensures JobOk(Adding(input, now, parseStamp).job, now)
  {
    hide TrimSpace;
    hide Blank;
    hide ToLower;
    hide Decimal.PrintInt;
    hide ParseSchedule;
    ParsedIsPositive(input.schedule, now, parseStamp);
    var schedule := ParseSchedule(input.schedule, now, parseStamp);
    if schedule.value.Interval? {
      StampShift(now, schedule.value.minutes);
    }
  }

  lemma StepInv(jobs: seq<Job>, clock: int, t: Timed, parseStamp: string -> Option<int>)
    requires Inv(jobs, clock) && clock <= t.now
    ensures Inv(Step(jobs, t, parseStamp), t.now)
  {
    hide JobOk;
    hide ParseSchedule;
    forall i | 0 <= i < |jobs| {
      LaterOk(jobs[i], clock, t.now);
    }
    match t.op
    case Add(input) =>
      if Adding(input, t.now, parseStamp).Added? {
        AddedOk(input, t.now, parseStamp);
      }
    case Delete(id) =>
      RemainingMembers(jobs, id);
      forall i | 0 <= i < |Remaining(jobs, id)|
        ensures JobOk(Remaining(jobs, id)[i], t.now)
      {
        assert Remaining(jobs, id)[i] in jobs;
      }
    case Tick(runner) =>
      TickInv(jobs, clock, t.now, runner);
  }

  /** Over every run from an empty list: a once job has run at most once and is enabled exactly while it has not;
      an interval job's runs, each an interval long, fit between its creation and its last run. */
  lemma {:induction false} RunInv(jobs: seq<Job>, clock: int, ts: seq<Timed>, parseStamp: string -> Option<int>)
    requires Inv(jobs, clock) && Ordered(ts, clock)
    ensures Inv(Run(jobs, ts, parseStamp), if ts == [] then clock else ts[|ts| - 1].now)
    decreases |ts|
  {
    if ts != [] {
      StepInv(jobs, clock, ts[0], parseStamp);
      RunInv(Step(jobs, ts[0], parseStamp), ts[0].now, ts[1..], parseStamp);
      assert |ts| > 1 ==> ts[1..][|ts| - 2] == ts[|ts| - 1];
    }
  }

  /** Over every run from an empty list: a once job has run at most once and is enabled exactly until it has; the runs of
      an interval job, an interval each, fit between its creation and its last run, so missed ticks never make a burst. */
  lemma RunsAreBounded(ts: seq<Timed>, from: int, parseStamp: string -> Option<int>, job: Job)
    requires Ordered(ts, from) && job in Run([], ts, parseStamp)
    ensures job.schedule.Once? ==> job.runCount <= 1 && (job.enabled <==> job.runCount == 0)
    ensures job.schedule.Interval? && job.runCount > 0 ==>
              job.lastRun.Some? && job.runCount * (job.schedule.minutes * 60) <= job.lastRun.value - Stamp(job.createdAt)
  {
    RunInv([], from, ts, parseStamp);
    var jobs := Run([], ts, parseStamp);
    var i :| 0 <= i < |jobs| && jobs[i] == job;
    var clock := if ts == [] then from else ts[|ts| - 1].now;
    assert JobOk(jobs[i], clock);
  }

  // ---------- listing ----------

  /** When a job next runs, or was created if it does not run again. */
  function When(job: Job): int {
    match job.nextRun case Some(at) => at case None => Stamp(job.createdAt)
  }

  /** The comparison `ListJobs` sorts by, on formatted stamps. */
  predicate Precedes(a: Job, b: Job) {
    if Format(When(a)) == Format(When(b)) then Before(a.id, b.id) else Before(Format(When(a)), Format(When(b)))
  }

  predicate Listed(jobs: seq<Job>) {
    forall i, j | 0 <= i < j < |jobs| :: !Precedes(jobs[j], jobs[i])
  }

  predicate Chronological(a: Job, b: Job) {
    When(a) < When(b) || (When(a) == When(b) && !Before(b.id, a.id))
  }

  /** A listing is in time order, jobs of the same second by id. */
  lemma ListedInTimeOrder(jobs: seq<Job>)
    requires forall i | 0 <= i < |jobs| :: InRange(When(jobs[i]))
    ensures Listed(jobs) <==> forall i, j | 0 <= i < j < |jobs| :: Chronological(jobs[i], jobs[j])
  {
    forall i, j | 0 <= i < j < |jobs| ensures !Precedes(jobs[j], jobs[i]) <==> Chronological(jobs[i], jobs[j]) {
      hide Format;
      hide When;
      TextOrder(When(jobs[i]), When(jobs[j]));
      TextOrder(When(jobs[j]), When(jobs[i]));
    }
  }

  lemma PrecedesOrders(a: Job, b: Job, c: Job)
    ensures !(Precedes(a, b) && Precedes(b, a))
    ensures !Precedes(a, b) && !Precedes(b, c) ==> !Precedes(a, c)
  {
    hide Format;
    hide When;
    hide Before;
    var p, q, r := Format(When(a)), Format(When(b)), Format(When(c));
    BeforeTotal(p, q);
    BeforeTotal(q, r);
    BeforeTotal(a.id, b.id);
    BeforeTotal(b.id, c.id);
    BeforeTotal(p, r);
    BeforeTotal(a.id, c.id);
    if Before(r, q) && Before(q, p) {
      BeforeTransitive(r, q, p);
    }
    if Before(c.id, b.id) && Before(b.id, a.id) {
      BeforeTransitive(c.id, b.id, a.id);
    }
  }

  function Insert(sorted: seq<Job>, job: Job): (out: seq<Job>)
    requires Listed(sorted)
    ensures Listed(out) && multiset(out) == multiset(sorted) + multiset{job}
  {
    hide Precedes;
    if sorted == [] then [job]
    else
      var front, last := sorted[..|sorted| - 1], sorted[|sorted| - 1];
      assert sorted == front + [last];
      PrecedesOrders(job, last, last);
      if Precedes(job, last) then
        InsertBelow(front, job, last, Insert(front, job));
        ListedAppend(Insert(front, job), last);
        Insert(front, job) + [last]
      else
        assert ListedWith(sorted, job) by { AppendAbove(sorted, job); }
        ListedAppend(sorted, job);
        sorted + [job]
  }

  predicate ListedWith(sorted: seq<Job>, job: Job) {
    forall i | 0 <= i < |sorted| :: !Precedes(job, sorted[i])
  }

  lemma EmptyListed()
    ensures Listed([])
  {
  }

  lemma ListedAppend(sorted: seq<Job>, job: Job)
    requires Listed(sorted) && ListedWith(sorted, job)
    ensures Listed(sorted + [job])
  {
    hide Precedes;
  }

  lemma AppendAbove(sorted: seq<Job>, job: Job)
    requires Listed(sorted) && sorted != [] && !Precedes(job, sorted[|sorted| - 1])
    ensures ListedWith(sorted, job)
  {
    hide Precedes;
    var last := sorted[|sorted| - 1];
    forall i | 0 <= i < |sorted| ensures !Precedes(job, sorted[i]) {
      PrecedesOrders(job, last, sorted[i]);
    }
  }

  lemma InsertBelow(front: seq<Job>, job: Job, last: Job, out: seq<Job>)
    requires Listed(front + [last]) && Precedes(job, last)
    requires multiset(out) == multiset(front) + multiset{job}
    ensures ListedWith(out, last)
  {
    hide Precedes;
    PrecedesOrders(job, last, last);
    forall i | 0 <= i < |out| ensures !Precedes(last, out[i]) {
      assert out[i] in multiset(out);
      if out[i] != job {
        assert out[i] in front;
        var k :| 0 <= k < |front| && front[k] == out[i];
        assert (front + [last])[k] == out[i] && (front + [last])[|front|] == last;
      }
    }
  }

  class Manager {
    var jobs: seq<Job>

    constructor ()
      ensures jobs == []
    {
      jobs := [];
    }

    method AddJob(input: Input, now: int, parseStamp: string -> Option<int>) returns (r: AddResult)
      modifies this
      ensures r == Adding(input, now, parseStamp)
      ensures jobs == Step(old(jobs), Timed(now, Add(input)), parseStamp)
    {
      var schedule := ParseSchedule(input.schedule, now, parseStamp);
      if schedule.None? {
        return Refused(BadSchedule);
      }
      var job := NewJob(input, schedule.value, now);
      if job.name == "" {
        return Refused(NameRequired);
      }
      if job.username == "" {
        return Refused(UsernameRequired);
      }
      if job.prompt == "" {
        return Refused(PromptRequired);
      }
      jobs := jobs + [job];
      return Added(job);
    }

    /** `sort.Slice` on a copy of the list. */
    method ListJobs() returns (out: seq<Job>)
      ensures multiset(out) == multiset(jobs) && Listed(out)
      ensures (forall j | j in jobs :: InRange(When(j))) ==>
                forall i, j | 0 <= i < j < |out| :: Chronological(out[i], out[j])
    {
      hide Listed;
      hide Insert;
      hide Chronological;
      out := [];
      EmptyListed();
      for i := 0 to |jobs|
        invariant Listed(out) && multiset(out) == multiset(jobs[..i])
      {
        assert jobs[..i + 1] == jobs[..i] + [jobs[i]];
        out := Insert(out, jobs[i]);
      }
      assert jobs[..|jobs|] == jobs;
      if forall j | j in jobs :: InRange(When(j)) {
        forall i | 0 <= i < |out| ensures InRange(When(out[i])) {
          assert out[i] in multiset(jobs);
        }
        ListedInTimeOrder(out);
      }
    }

    method DeleteJob(id: string) returns (found: bool)
      modifies this
      ensures jobs == Remaining(old(jobs), id)
      ensures found <==> exists j | j in old(jobs) :: j.id == id
    {
      var filtered := [];
      found := false;
      for i := 0 to |jobs|
        invariant jobs == old(jobs) && filtered == Remaining(jobs[..i], id)
        invariant found <==> exists j | j in jobs[..i] :: j.id == id
        invariant !found ==> filtered == jobs[..i]
      {
        assert jobs[..i + 1] == jobs[..i] + [jobs[i]] && jobs[..i + 1][..i] == jobs[..i];
        if jobs[i].id == id {
          found := true;
        } else {
          filtered := filtered + [jobs[i]];
        }
      }
      assert jobs[..|jobs|] == jobs;
      if found {
        jobs := filtered;
      }
    }

    /** Runs every due job once; the list, the results and the audit rows are those of one tick. */
    method TickWith(now: int, runner: (nat, Job) -> Reply) returns (results: seq<TickResult>, audits: seq<Audit>)
      modifies this
      ensures jobs == Ticked(old(jobs), now, runner)
      ensures results == TickResults(old(jobs), now, runner) && audits == TickAudits(old(jobs), now, runner)
    {
      hide Fired;
      hide ResultOf;
      hide AuditOf;
      hide Ticked;
      results, audits := [], [];
      for i := 0 to |jobs|
        invariant |jobs| == |old(jobs)|
        invariant forall k | 0 <= k < i :: jobs[k] == Ticked(old(jobs), now, runner)[k]
        invariant forall k | i <= k < |jobs| :: jobs[k] == old(jobs)[k]
        invariant results == TickResults(old(jobs)[..i], now, runner) && audits == TickAudits(old(jobs)[..i], now, runner)
      {
        assert old(jobs)[..i + 1][..i] == old(jobs)[..i];
        TickedAt(old(jobs), now, runner, i);
        if !jobs[i].enabled || !Due(jobs[i], now) {
          continue;
        }
        var job, result, audit := Fire(jobs[i], now, runner(i, jobs[i]));
        results := results + [result];
        audits := audits + [audit];
        jobs := jobs[i := job];
      }
      assert old(jobs)[..|jobs|] == old(jobs);
    }

    /** The fields of one due job, updated as its reply comes in. */
    static method Fire(due: Job, now: int, reply: Reply) returns (job: Job, result: TickResult, audit: Audit)
      ensures job == Fired(due, now, reply) && result == ResultOf(due, now, reply) && audit == AuditOf(due, reply)
    {
      job := due.(lastRun := Some(Stamp(now)), updatedAt := now, runCount := due.runCount + 1);
      result := TickResult(job.id, job.name, job.username, false, 0, "", "", now);
      match reply {
        case ChatFailed(e) =>
          result := result.(error := e);
          job := job.(lastError := e);
          audit := Audit(job.username, "cron_job_failed", "job_id=" + job.id + " name=" + job.name + " err=" + e);
        case Chatted(session, output, e) =>
          result := result.(success := e == "", session := session);
          if e != "" {
            result := result.(error := e);
            job := job.(lastError := e);
          } else {
            result := result.(output := output);
            job := job.(lastOutput := output, lastError := "");
          }
          job := job.(lastSession := session);
          audit := Audit(job.username, "cron_job_ran",
                         "job_id=" + job.id + " name=" + job.name + " session_id=" + Decimal.PrintInt(session));
      }
      job := job.(nextRun := NextRun(job.schedule, now));
      if job.schedule.Once? {
        job := job.(enabled := false);
      }
    }
  }
}
