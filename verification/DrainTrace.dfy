/** What one drain does, as a trace of events, and the rules every trace of a drain obeys.
    Rows are named by their position in the list the drain selected, which is queue order.
    Times are whole nanoseconds. */
module DrainTrace {
  import opened Options
  import opened QueueTypes

  const RAM_BUDGET := 48000
  const STAGGER := 4_000_000_000
  const POLL := 500_000_000
  const SETTLE := 900_000_000_000

  /** `mem` and `timeout` are 0 when the column is null. */
  datatype Row = Row(kind: Kind, readable: bool, mem: int, timeout: int)

  function Limit(row: Row): int {
    (if row.timeout != 0 then row.timeout else DefaultTimeout(row.kind)) * 1_000_000_000
  }

  datatype Mode = Pooled | Leased | InProcess

  /** A running job: a child of the rolling pool, a child that leases the writer for itself, or
      a call on the parent's own write connection. */
  datatype Job = Job(pos: nat, mode: Mode, at: int, due: int)

  datatype Outcome = Exited(code: int) | TimedOut | Threw

  datatype Event =
    | Closed
    | Opened
    | Started(job: Job)
    | Finished(pos: nat, outcome: Outcome, at: int)
    | Refused(pos: nat)
    | Skipped(pos: nat)
    | Probed(tripped: bool)
    | DiskRead(full: bool)

  type Trace = seq<Event>

  datatype Plan = Plan(rows: seq<Row>, width: nat, deadline: int)

  // ----- what a trace says about the moment after it -----

  /** The place of the first job at the position, or the length. */
  function IndexOf(jobs: seq<Job>, pos: nat): (i: nat)
    ensures i <= |jobs| && (i < |jobs| ==> jobs[i].pos == pos) && forall k | 0 <= k < i :: jobs[k].pos != pos
  {
    if jobs == [] || jobs[0].pos == pos then 0 else
    var i := 1 + IndexOf(jobs[1..], pos);
    assert forall k | 1 <= k < i :: jobs[k].pos == jobs[1..][k - 1].pos;
    i
  }

  function Without(jobs: seq<Job>, pos: nat): seq<Job> {
    var i := IndexOf(jobs, pos);
    if i < |jobs| then jobs[..i] + jobs[i + 1..] else jobs
  }

  function AfterEvent(jobs: seq<Job>, e: Event): seq<Job> {
    match e
    case Started(job) => jobs + [job]
    case Finished(pos, _, _) => Without(jobs, pos)
    case _ => jobs
  }

  /** The jobs running, in start order. */
  function ActiveOf(t: Trace): seq<Job> {
    if t == [] then [] else AfterEvent(ActiveOf(t[..|t| - 1]), t[|t| - 1])
  }

  /** Whether the parent holds the database writer. */
  function WriterOpen(t: Trace): bool {
    if t == [] then true else
    match t[|t| - 1]
    case Opened => true
    case Closed => false
    case _ => WriterOpen(t[..|t| - 1])
  }

  /** The latest start since the writer was last opened or closed. */
  function LastStart(t: Trace): Option<int> {
    if t == [] then None else
    match t[|t| - 1]
    case Opened => None
    case Closed => None
    case Started(job) => Some(job.at)
    case _ => LastStart(t[..|t| - 1])
  }

  /** The load and memory guard was read clear since the latest start. */
  function GuardClear(t: Trace): bool {
    if t == [] then false else
    match t[|t| - 1]
    case Probed(tripped) => !tripped
    case Started(_) => false
    case _ => GuardClear(t[..|t| - 1])
  }

  /** The latest reading of the load and memory guard. */
  function LastReading(t: Trace): Option<bool> {
    if t == [] then None else if t[|t| - 1].Probed? then Some(t[|t| - 1].tripped) else LastReading(t[..|t| - 1])
  }

  /** The disk was read with room left since the latest start. */
  function DiskClear(t: Trace): bool {
    if t == [] then false else
    match t[|t| - 1]
    case DiskRead(full) => !full
    case Started(_) => false
    case _ => DiskClear(t[..|t| - 1])
  }

  function Position(e: Event): Option<nat> {
    match e
    case Started(job) => Some(job.pos)
    case Refused(pos) => Some(pos)
    case Skipped(pos) => Some(pos)
    case _ => None
  }

  /** Rows already started, refused or skipped. */
  function HandledOf(t: Trace): set<nat> {
    if t == [] then {} else
    var p := Position(t[|t| - 1]);
    HandledOf(t[..|t| - 1]) + if p.Some? then {p.value} else {}
  }

  function RefusedOf(t: Trace): set<nat> {
    if t == [] then {} else
    RefusedOf(t[..|t| - 1]) + if t[|t| - 1].Refused? then {t[|t| - 1].pos} else {}
  }

  function OutcomesOf(t: Trace): map<nat, Outcome> {
    if t == [] then map[] else
    var before := OutcomesOf(t[..|t| - 1]);
    if t[|t| - 1].Finished? then before[t[|t| - 1].pos := t[|t| - 1].outcome] else before
  }

  function MemOf(rows: seq<Row>, jobs: seq<Job>): int {
    if jobs == [] then 0 else
    MemOf(rows, jobs[..|jobs| - 1]) + if jobs[|jobs| - 1].pos < |rows| then rows[jobs[|jobs| - 1].pos].mem else 0
  }

  // ----- the rules -----

  ghost predicate Handles(t: Trace, upto: nat) {
    forall q: nat | q < upto :: q in HandledOf(t)
  }

  ghost predicate MayStart(plan: Plan, t: Trace, job: Job) {
    && job.pos < |plan.rows|
    && job.pos !in HandledOf(t) && Handles(t, job.pos)
    && MemOf(plan.rows, ActiveOf(t)) + plan.rows[job.pos].mem <= RAM_BUDGET
    && GuardClear(t) && (Archive(plan.rows[job.pos].kind) ==> DiskClear(t))
    && var row := plan.rows[job.pos];
       match job.mode
       case Pooled =>
         && !WriterOpen(t) && ParallelSafe(row.kind)
         && (forall i | 0 <= i < |ActiveOf(t)| :: ActiveOf(t)[i].mode.Pooled?)
         && |ActiveOf(t)| < plan.width
         && (LastStart(t).Some? ==> job.at >= LastStart(t).value + STAGGER)
         && job.at < plan.deadline && job.due == job.at + Limit(row)
       case Leased =>
         && !WriterOpen(t) && ReleasesWriter(row.kind) && row.readable && ActiveOf(t) == []
         && job.at <= plan.deadline && job.due >= job.at + Limit(row)
       case InProcess =>
         && WriterOpen(t) && !ReleasesWriter(row.kind) && !row.kind.Unlisted? && row.readable && ActiveOf(t) == []
         && job.at <= plan.deadline
  }

  /** The event may follow the trace. */
  ghost predicate Allowed(plan: Plan, t: Trace, e: Event) {
    match e
    case Closed => WriterOpen(t) && ActiveOf(t) == []
    case Opened => !WriterOpen(t) && ActiveOf(t) == []
    case Started(job) => MayStart(plan, t, job)
    case Finished(pos, outcome, at) =>
      exists i | 0 <= i < |ActiveOf(t)| :: ActiveOf(t)[i].pos == pos && MayEnd(ActiveOf(t)[i], outcome, at)
    case Refused(pos) =>
      && pos < |plan.rows| && pos !in HandledOf(t) && WriterOpen(t)
      && (plan.rows[pos].mem > RAM_BUDGET || plan.rows[pos].kind.Unlisted? || !plan.rows[pos].readable)
    case Skipped(pos) => pos < |plan.rows| && pos !in HandledOf(t) && WriterOpen(t) && Archive(plan.rows[pos].kind) && !DiskClear(t)
    case Probed(_) => true
    case DiskRead(_) => true
  }

  /** Only a child can be killed, and only at its ceiling. */
  ghost predicate MayEnd(job: Job, outcome: Outcome, at: int) {
    && (outcome.TimedOut? ==> !job.mode.InProcess? && at >= job.due)
    && (outcome.Threw? ==> job.mode.InProcess?)
  }

  ghost predicate Legal(plan: Plan, t: Trace) {
    t == [] || (Legal(plan, t[..|t| - 1]) && Allowed(plan, t[..|t| - 1], t[|t| - 1]))
  }

  lemma Append(t: Trace, e: Event)
    ensures var u := t + [e]; u != [] && u[..|u| - 1] == t && u[|u| - 1] == e
  {
  }

  lemma {:induction false} PrefixLegal(plan: Plan, t: Trace, k: nat)
    requires Legal(plan, t) && k <= |t|
    ensures Legal(plan, t[..k])
  {
    if k < |t| {
      PrefixLegal(plan, t[..|t| - 1], k);
      assert t[..|t| - 1][..k] == t[..k];
    } else {
      assert t[..k] == t;
    }
  }

  // ----- consequences at every moment -----

  ghost predicate Ordered(jobs: seq<Job>) {
    forall i, j | 0 <= i < j < |jobs| :: jobs[i].pos < jobs[j].pos
  }

  lemma WithoutFacts(jobs: seq<Job>, pos: nat, i: nat)
    requires Ordered(jobs) && i < |jobs| && jobs[i].pos == pos
    ensures Without(jobs, pos) == jobs[..i] + jobs[i + 1..]
  {
    assert IndexOf(jobs, pos) == i;
  }

  lemma {:induction false} MemSplit(rows: seq<Row>, a: seq<Job>, b: seq<Job>)
    ensures MemOf(rows, a + b) == MemOf(rows, a) + MemOf(rows, b)
  {
    if b == [] {
      assert a + b == a;
    } else {
      MemSplit(rows, a, b[..|b| - 1]);
      assert (a + b)[..|a + b| - 1] == a + b[..|b| - 1];
      assert (a + b)[|a + b| - 1] == b[|b| - 1];
    }
  }

  lemma SplitAt(jobs: seq<Job>, k: nat)
    requires k < |jobs|
    ensures jobs == jobs[..k] + [jobs[k]] + jobs[k + 1..]
  {
  }

  lemma MemWithout(rows: seq<Row>, a: seq<Job>, job: Job, b: seq<Job>)
    ensures MemOf(rows, a + [job] + b) == MemOf(rows, a + b) + if job.pos < |rows| then rows[job.pos].mem else 0
  {
    MemSplit(rows, a + [job], b);
    MemSplit(rows, a, [job]);
    MemSplit(rows, a, b);
    assert [job][..0] == [];
    assert MemOf(rows, [job][..0]) == 0;
  }

  /** What every event makes of the moment before it. */
  lemma Extend(t: Trace, e: Event)
    ensures var u := t + [e];
      && ActiveOf(u) == AfterEvent(ActiveOf(t), e)
      && WriterOpen(u) == (if e.Opened? then true else if e.Closed? then false else WriterOpen(t))
      && LastStart(u) == (if e.Opened? || e.Closed? then None else if e.Started? then Some(e.job.at) else LastStart(t))
      && HandledOf(u) == (if Position(e).Some? then HandledOf(t) + {Position(e).value} else HandledOf(t))
      && RefusedOf(u) == (if e.Refused? then RefusedOf(t) + {e.pos} else RefusedOf(t))
      && GuardClear(u) == (if e.Probed? then !e.tripped else if e.Started? then false else GuardClear(t))
      && LastReading(u) == (if e.Probed? then Some(e.tripped) else LastReading(t))
      && DiskClear(u) == (if e.DiskRead? then !e.full else if e.Started? then false else DiskClear(t))
      && OutcomesOf(u) == (if e.Finished? then OutcomesOf(t)[e.pos := e.outcome] else OutcomesOf(t))
  {
    Append(t, e);
  }

  lemma LegalExtends(plan: Plan, t: Trace, e: Event)
    ensures Legal(plan, t + [e]) <==> Legal(plan, t) && Allowed(plan, t, e)
  {
    Append(t, e);
  }

  /** The invariant behind the theorems, of the jobs running, the rows handled and the writer. */
  ghost predicate GoodJobs(plan: Plan, jobs: seq<Job>, handled: set<nat>, open: bool) {
    && Ordered(jobs)
    && (forall i | 0 <= i < |jobs| :: jobs[i].pos < |plan.rows|)
    && (forall i, q: nat | 0 <= i < |jobs| && q <= jobs[i].pos :: q in handled)
    && (forall i | 0 <= i < |jobs| :: jobs[i].mode.Pooled? ==> ParallelSafe(plan.rows[jobs[i].pos].kind))
    && (forall i | 0 <= i < |jobs| :: jobs[i].mode.InProcess? <==> open)
    && (|jobs| > 1 ==> |jobs| <= plan.width && forall i | 0 <= i < |jobs| :: jobs[i].mode.Pooled?)
  }

  ghost predicate Good(plan: Plan, t: Trace) {
    GoodJobs(plan, ActiveOf(t), HandledOf(t), WriterOpen(t))
  }

  lemma GoodAfterStart(plan: Plan, jobs: seq<Job>, handled: set<nat>, open: bool, job: Job)
    requires GoodJobs(plan, jobs, handled, open)
    requires job.pos < |plan.rows| && job.pos !in handled && forall q: nat | q < job.pos :: q in handled
    requires job.mode.InProcess? <==> open
    requires job.mode.Pooled? ==> ParallelSafe(plan.rows[job.pos].kind)
    requires jobs != [] ==> |jobs| < plan.width && job.mode.Pooled? && forall i | 0 <= i < |jobs| :: jobs[i].mode.Pooled?
    ensures GoodJobs(plan, jobs + [job], handled + {job.pos}, open)
  {
  }

  lemma GoodAfterFinish(plan: Plan, jobs: seq<Job>, handled: set<nat>, open: bool, i: nat)
    requires GoodJobs(plan, jobs, handled, open) && i < |jobs|
    ensures GoodJobs(plan, jobs[..i] + jobs[i + 1..], handled, open)
  {
  }

  lemma GoodAfterOther(plan: Plan, jobs: seq<Job>, handled: set<nat>, open: bool, more: set<nat>, now: bool)
    requires GoodJobs(plan, jobs, handled, open) && (now == open || jobs == [])
    ensures Ordered(jobs) && GoodJobs(plan, jobs, handled + more, now)
  {
  }

  lemma GoodStep(plan: Plan, t: Trace, e: Event)
    requires Good(plan, t) && Allowed(plan, t, e)
    ensures Good(plan, t + [e])
  {
    hide GoodJobs;
    Extend(t, e);
    var jobs := ActiveOf(t);
    GoodAfterOther(plan, jobs, HandledOf(t), WriterOpen(t), HandledOf(t + [e]), if jobs == [] then WriterOpen(t + [e]) else WriterOpen(t));
    assert HandledOf(t) + HandledOf(t + [e]) == HandledOf(t + [e]);
    match e
    case Started(job) =>
      GoodAfterStart(plan, jobs, HandledOf(t), WriterOpen(t), job);
    case Finished(pos, outcome, at) =>
      var i :| 0 <= i < |jobs| && jobs[i].pos == pos && MayEnd(jobs[i], outcome, at);
      WithoutFacts(jobs, pos, i);
      GoodAfterFinish(plan, jobs, HandledOf(t), WriterOpen(t), i);
      assert HandledOf(t + [e]) == HandledOf(t);
    case _ =>
  }

  lemma {:induction false} LegalIsGood(plan: Plan, t: Trace)
    requires Legal(plan, t)
    ensures Good(plan, t)
  {
    hide Good, Allowed;
    if t == [] {
      EmptyIsGood(plan);
    } else {
      LegalIsGood(plan, t[..|t| - 1]);
      GoodStep(plan, t[..|t| - 1], t[|t| - 1]);
      assert t[..|t| - 1] + [t[|t| - 1]] == t;
    }
  }

  lemma EmptyIsGood(plan: Plan)
    ensures Good(plan, [])
  {
  }

  /** At every moment of a drain: at most `width` jobs run, a job that writes the store runs
      alone, and the parent holds the writer exactly when what runs is its own call. */
  lemma AlwaysDisciplined(plan: Plan, t: Trace, k: nat)
    requires Legal(plan, t) && k <= |t| && plan.width >= 1
    ensures var jobs := ActiveOf(t[..k]);
      && |jobs| <= plan.width
      && (forall i | 0 <= i < |jobs| :: jobs[i].pos < |plan.rows|)
      && (forall i | 0 <= i < |jobs| :: !ParallelSafe(plan.rows[jobs[i].pos].kind) ==> |jobs| == 1)
      && (forall i | 0 <= i < |jobs| :: !jobs[i].mode.InProcess? ==> !WriterOpen(t[..k]))
  {
    PrefixLegal(plan, t, k);
    LegalIsGood(plan, t[..k]);
  }

  ghost predicate DeclaresNonNegative(plan: Plan) {
    forall i | 0 <= i < |plan.rows| :: plan.rows[i].mem >= 0
  }

  lemma FitsAfterFinish(plan: Plan, jobs: seq<Job>, i: nat)
    requires Ordered(jobs) && i < |jobs| && DeclaresNonNegative(plan)
    ensures MemOf(plan.rows, Without(jobs, jobs[i].pos)) <= MemOf(plan.rows, jobs)
  {
    hide Without, Ordered;
    WithoutFacts(jobs, jobs[i].pos, i);
    MemWithout(plan.rows, jobs[..i], jobs[i], jobs[i + 1..]);
    SplitAt(jobs, i);
  }

  lemma FitsStep(plan: Plan, t: Trace, e: Event)
    requires Ordered(ActiveOf(t)) && Allowed(plan, t, e) && DeclaresNonNegative(plan)
    requires MemOf(plan.rows, ActiveOf(t)) <= RAM_BUDGET
    ensures MemOf(plan.rows, ActiveOf(t + [e])) <= RAM_BUDGET
  {
    hide DeclaresNonNegative, Ordered;
    Extend(t, e);
    var jobs := ActiveOf(t);
    match e
    case Started(job) => AppendJob(plan.rows, jobs, job);
    case Finished(pos, outcome, at) =>
      var i :| 0 <= i < |jobs| && jobs[i].pos == pos && MayEnd(jobs[i], outcome, at);
      FitsAfterFinish(plan, jobs, i);
    case _ =>
  }

  lemma LegalIsOrdered(plan: Plan, t: Trace)
    requires Legal(plan, t)
    ensures Ordered(ActiveOf(t)) && forall i | 0 <= i < |ActiveOf(t)| :: ActiveOf(t)[i].pos in HandledOf(t)
  {
    LegalIsGood(plan, t);
  }

  lemma {:induction false} LegalFits(plan: Plan, t: Trace)
    requires Legal(plan, t) && DeclaresNonNegative(plan)
    ensures MemOf(plan.rows, ActiveOf(t)) <= RAM_BUDGET
  {
    hide Good, Allowed, DeclaresNonNegative;
    if t != [] {
      LegalFits(plan, t[..|t| - 1]);
      LegalIsOrdered(plan, t[..|t| - 1]);
      FitsStep(plan, t[..|t| - 1], t[|t| - 1]);
      assert t[..|t| - 1] + [t[|t| - 1]] == t;
    }
  }

  lemma AppendJob(rows: seq<Row>, jobs: seq<Job>, job: Job)
    ensures MemOf(rows, jobs + [job]) == MemOf(rows, jobs) + if job.pos < |rows| then rows[job.pos].mem else 0
  {
    var more := jobs + [job];
    assert more[..|more| - 1] == jobs;
  }

  /** At every moment the declared memory of the running jobs fits the budget. */
  lemma AlwaysFits(plan: Plan, t: Trace, k: nat)
    requires Legal(plan, t) && k <= |t| && DeclaresNonNegative(plan)
    ensures MemOf(plan.rows, ActiveOf(t[..k])) <= RAM_BUDGET
  {
    PrefixLegal(plan, t, k);
    LegalFits(plan, t[..k]);
  }

  lemma {:induction false} MemNonNegative(plan: Plan, jobs: seq<Job>)
    requires DeclaresNonNegative(plan)
    ensures MemOf(plan.rows, jobs) >= 0
  {
    if jobs != [] {
      MemNonNegative(plan, jobs[..|jobs| - 1]);
    }
  }

  /** With non-negative declarations a row above the budget never starts, whatever runs. */
  lemma OversizedNeverStarts(plan: Plan, t: Trace, j: nat)
    requires Legal(plan, t) && DeclaresNonNegative(plan) && j < |t| && t[j].Started?
    ensures t[j].job.pos < |plan.rows| && plan.rows[t[j].job.pos].mem <= RAM_BUDGET
  {
    AllowedAt(plan, t, j);
    MemNonNegative(plan, ActiveOf(t[..j]));
  }

  lemma {:induction false} OutcomeWasStarted(plan: Plan, t: Trace, pos: nat)
    requires Legal(plan, t) && (pos in OutcomesOf(t) || Runs(ActiveOf(t), pos))
    ensures exists j | 0 <= j < |t| :: t[j].Started? && t[j].job.pos == pos
    decreases |t|
  {
    hide Allowed, Ordered, Runs;
    if t == [] {
      NothingRuns(pos);
    } else {
      var u, e := SplitLast(plan, t);
      RunsStep(plan, u, e, pos);
      Extend(u, e);
      if e.Started? && e.job.pos == pos {
        assert t[|t| - 1] == e;
      } else {
        OutcomeWasStarted(plan, u, pos);
        var j :| 0 <= j < |u| && u[j].Started? && u[j].job.pos == pos;
        assert t[j] == u[j];
      }
    }
  }

  lemma NothingRuns(pos: nat)
    ensures !Runs([], pos)
  {
  }

  /** So no such row ever has an outcome. */
  lemma OutcomesFit(plan: Plan, t: Trace, pos: nat)
    requires Legal(plan, t) && DeclaresNonNegative(plan) && pos in OutcomesOf(t)
    ensures pos < |plan.rows| && plan.rows[pos].mem <= RAM_BUDGET
  {
    OutcomeWasStarted(plan, t, pos);
    var j :| 0 <= j < |t| && t[j].Started? && t[j].job.pos == pos;
    OversizedNeverStarts(plan, t, j);
  }

  /** A declaration is unsafe when, alone among non-negative ones, it lets a legal trace pass the
      memory budget. */
  ghost predicate Unsafe(mem: int) {
    exists plan, t :: OnlyDoubt(plan, mem) && Legal(plan, t) && MemOf(plan.rows, ActiveOf(t)) > RAM_BUDGET
  }

  ghost predicate OnlyDoubt(plan: Plan, mem: int) {
    plan.rows != [] && plan.rows[0].mem == mem && forall i | 1 <= i < |plan.rows| :: 0 <= plan.rows[i].mem <= RAM_BUDGET
  }

  /** Exactly the negative declarations are unsafe. */
  lemma UnsafeIffNegative(mem: int)
    ensures Unsafe(mem) <==> mem < 0
  {
    if mem < 0 {
      NegativeDeclarationOverruns(mem);
    } else {
      hide Legal;
      forall plan, t | OnlyDoubt(plan, mem) && Legal(plan, t)
        ensures MemOf(plan.rows, ActiveOf(t)) <= RAM_BUDGET
      {
        LegalFits(plan, t);
      }
    }
  }

  /** With any negative declaration the budget can be passed: three jobs start within it, and
      the one that declared less than nothing ends first. */
  lemma NegativeDeclarationOverruns(mem: int)
    requires mem < 0
    ensures Unsafe(mem)
  {
    hide Overrun;
    var plan := Plan([Row(Sweep, true, mem, 0), Row(Sweep, true, RAM_BUDGET, 0), Row(Sweep, true, 1, 0)], 3, 3 * STAGGER);
    var t := OverrunClose(plan);
    t := OverrunStart(plan, t, 0, 0);
    t := OverrunStart(plan, t, 1, mem);
    t := OverrunStart(plan, t, 2, mem + RAM_BUDGET);
    t := OverrunEnd(plan, t, mem + RAM_BUDGET + 1);
    assert OnlyDoubt(plan, mem);
  }

  /** The first `n` rows run, started one stagger apart, and declare `mem` together. */
  ghost predicate Overrun(plan: Plan, t: Trace, n: nat, mem: int) {
    && Legal(plan, t) && !WriterOpen(t) && |ActiveOf(t)| == n && MemOf(plan.rows, ActiveOf(t)) == mem
    && (forall i | 0 <= i < n :: ActiveOf(t)[i].mode.Pooled? && ActiveOf(t)[i].pos == i)
    && (forall q: nat :: q in HandledOf(t) <==> q < n)
    && (LastStart(t).Some? ==> LastStart(t).value == (n - 1) * STAGGER)
  }

  lemma OverrunClose(plan: Plan) returns (t: Trace)
    ensures Overrun(plan, t, 0, 0)
  {
    t := [Closed];
  }

  lemma OverrunStart(plan: Plan, t: Trace, pos: nat, mem: int) returns (u: Trace)
    requires pos < |plan.rows| && pos < plan.width && (pos + 1) * STAGGER <= plan.deadline
    requires ParallelSafe(plan.rows[pos].kind) && mem + plan.rows[pos].mem <= RAM_BUDGET
    requires Overrun(plan, t, pos, mem)
    ensures Overrun(plan, u, pos + 1, mem + plan.rows[pos].mem)
  {
    hide Legal, MayStart, ActiveOf, HandledOf, LastStart, WriterOpen, GuardClear, MemOf;
    var job := Job(pos, Pooled, pos * STAGGER, pos * STAGGER + Limit(plan.rows[pos]));
    var seen := t + [Probed(false)];
    LegalExtends(plan, t, Probed(false));
    Extend(t, Probed(false));
    OverrunMayStart(plan, seen, pos, mem, job);
    u := seen + [Started(job)];
    LegalExtends(plan, seen, Started(job));
    Extend(seen, Started(job));
    AppendJob(plan.rows, ActiveOf(seen), job);
  }

  lemma OverrunMayStart(plan: Plan, t: Trace, pos: nat, mem: int, job: Job)
    requires pos < |plan.rows| && pos < plan.width && (pos + 1) * STAGGER <= plan.deadline
    requires ParallelSafe(plan.rows[pos].kind) && mem + plan.rows[pos].mem <= RAM_BUDGET
    requires Overrun(plan, t, pos, mem) && GuardClear(t)
    requires job == Job(pos, Pooled, pos * STAGGER, pos * STAGGER + Limit(plan.rows[pos]))
    ensures MayStart(plan, t, job)
  {
    hide Legal, ActiveOf, HandledOf, LastStart, WriterOpen, GuardClear, MemOf;
  }

  lemma OverrunEnd(plan: Plan, t: Trace, mem: int) returns (u: Trace)
    requires Overrun(plan, t, 3, mem) && plan.rows != []
    ensures Legal(plan, u) && MemOf(plan.rows, ActiveOf(u)) == mem - plan.rows[0].mem
  {
    hide Without, MayStart, Ordered;
    var e := Finished(0, Exited(0), 3 * STAGGER);
    var jobs := ActiveOf(t);
    u := t + [e];
    assert jobs[0].pos == 0 && MayEnd(jobs[0], Exited(0), 3 * STAGGER);
    LegalExtends(plan, t, e);
    Extend(t, e);
    LegalIsOrdered(plan, t);
    WithoutFacts(jobs, 0, 0);
    SplitAt(jobs, 0);
    MemWithout(plan.rows, jobs[..0], jobs[0], jobs[1..]);
  }

  // ----- consequences over the whole drain -----

  lemma {:induction false} HandledGrows(t: Trace, i: nat)
    requires i < |t| && Position(t[i]).Some?
    ensures Position(t[i]).value in HandledOf(t)
  {
    if i < |t| - 1 {
      HandledGrows(t[..|t| - 1], i);
    }
  }

  lemma {:induction false} HandledSubset(t: Trace, k: nat)
    requires k <= |t|
    ensures HandledOf(t[..k]) <= HandledOf(t)
  {
    if k < |t| {
      HandledSubset(t[..|t| - 1], k);
      assert t[..|t| - 1][..k] == t[..k];
    } else {
      assert t[..k] == t;
    }
  }

  lemma AllowedAt(plan: Plan, t: Trace, k: nat)
    requires Legal(plan, t) && k < |t|
    ensures Allowed(plan, t[..k], t[k])
  {
    hide Allowed;
    PrefixLegal(plan, t, k + 1);
    assert t[..k + 1][..k] == t[..k];
  }

  /** Jobs start in strictly increasing queue order, and no row is handled twice. */
  lemma InQueueOrder(plan: Plan, t: Trace, i: nat, j: nat)
    requires Legal(plan, t) && i < j < |t| && Position(t[i]).Some? && Position(t[j]).Some?
    ensures Position(t[i]) != Position(t[j])
    ensures t[i].Started? && t[j].Started? ==> t[i].job.pos < t[j].job.pos
  {
    hide ActiveOf, MemOf, LastStart, GuardClear, DiskClear, WriterOpen;
    AllowedAt(plan, t, i);
    AllowedAt(plan, t, j);
    HandledGrows(t[..j], i);
    HandledSubset(t[..j], i);
    assert t[..j][..i] == t[..i];
  }

  lemma {:induction false} RefusalIsEvent(t: Trace, pos: nat)
    requires pos in RefusedOf(t)
    ensures exists i | 0 <= i < |t| :: t[i] == Refused(pos)
  {
    var u := t[..|t| - 1];
    if pos in RefusedOf(u) {
      RefusalIsEvent(u, pos);
      var i :| 0 <= i < |u| && u[i] == Refused(pos);
      assert t[i] == Refused(pos);
    } else {
      assert t[|t| - 1] == Refused(pos);
    }
  }

  /** A refused row never runs, so it has no outcome. */
  lemma RefusedHasNoOutcome(plan: Plan, t: Trace, pos: nat)
    requires Legal(plan, t) && pos in RefusedOf(t)
    ensures pos !in OutcomesOf(t)
  {
    if pos in OutcomesOf(t) {
      RefusalIsEvent(t, pos);
      OutcomeWasStarted(plan, t, pos);
      var i :| 0 <= i < |t| && t[i] == Refused(pos);
      var j :| 0 <= j < |t| && t[j].Started? && t[j].job.pos == pos;
      assert Position(t[i]) == Some(pos) == Position(t[j]);
      if i < j {
        InQueueOrder(plan, t, i, j);
      } else {
        InQueueOrder(plan, t, j, i);
      }
    }
  }

  /** No row overtakes: whatever lies ahead of a started row was started, refused or skipped. */
  lemma NoOvertaking(plan: Plan, t: Trace, j: nat, q: nat)
    requires Legal(plan, t) && j < |t| && t[j].Started? && q < t[j].job.pos
    ensures exists i | 0 <= i < j :: Position(t[i]) == Some(q)
  {
    AllowedAt(plan, t, j);
    HandledBy(t[..j], q);
    var i :| 0 <= i < j && Position(t[..j][i]) == Some(q);
    assert Position(t[i]) == Some(q);
  }

  lemma {:induction false} HandledBy(t: Trace, q: nat)
    requires q in HandledOf(t)
    ensures exists i | 0 <= i < |t| :: Position(t[i]) == Some(q)
  {
    if Position(t[|t| - 1]) != Some(q) {
      HandledBy(t[..|t| - 1], q);
      var i :| 0 <= i < |t| - 1 && Position(t[..|t| - 1][i]) == Some(q);
      assert Position(t[i]) == Some(q);
    }
  }

  lemma {:induction false} LastStartSince(t: Trace, i: nat)
    requires i < |t| && t[i].Started? && forall m | i < m < |t| :: !t[m].Opened? && !t[m].Closed? && !t[m].Started?
    ensures LastStart(t) == Some(t[i].job.at)
  {
    if i < |t| - 1 {
      LastStartSince(t[..|t| - 1], i);
    }
  }

  /** Two starts of one pool are at least the stagger apart, and before the drain's deadline. */
  lemma {:induction false} Staggered(plan: Plan, t: Trace, i: nat, j: nat)
    requires Legal(plan, t) && i < j < |t| && t[i].Started? && t[j].Started?
    requires forall m | i <= m <= j :: !t[m].Opened? && !t[m].Closed? && (t[m].Started? ==> t[m].job.mode.Pooled?)
    ensures t[i].job.at + STAGGER <= t[j].job.at < plan.deadline
    decreases j
  {
    AllowedAt(plan, t, j);
    if m :| i < m < j && t[m].Started? {
      var k := LatestStart(t, m, j);
      Staggered(plan, t, i, k);
      LastStartSince(t[..j], k);
    } else {
      LastStartSince(t[..j], i);
    }
  }

  /** Every start lies within the drain's window; a pool's strictly before its deadline. */
  lemma StartsInTime(plan: Plan, t: Trace, j: nat)
    requires Legal(plan, t) && j < |t| && t[j].Started?
    ensures t[j].job.at <= plan.deadline && (t[j].job.mode.Pooled? ==> t[j].job.at < plan.deadline)
  {
    AllowedAt(plan, t, j);
  }

  function LatestStart(t: Trace, m: nat, j: nat): (k: nat)
    requires m < j <= |t| && t[m].Started?
    ensures m <= k < j && t[k].Started? && forall n | k < n < j :: !t[n].Started?
    decreases j
  {
    if t[j - 1].Started? then j - 1 else LatestStart(t, m, j - 1)
  }

  /** The guard was read clear at `i` and neither read again nor followed by a start. */
  ghost predicate ClearSince(t: Trace, i: int) {
    0 <= i < |t| && t[i] == Probed(false) && forall m | i < m < |t| :: !t[m].Probed? && !t[m].Started?
  }

  lemma ClearSinceGrows(t: Trace, e: Event, i: int)
    requires ClearSince(t, i) && !e.Probed? && !e.Started?
    ensures ClearSince(t + [e], i)
  {
  }

  lemma {:induction false} GuardWasRead(t: Trace)
    requires GuardClear(t)
    ensures exists i :: ClearSince(t, i)
  {
    hide ClearSince;
    var u, e := t[..|t| - 1], t[|t| - 1];
    assert t == u + [e];
    if e.Probed? {
      JustRead(u);
    } else {
      GuardWasRead(u);
      var i :| ClearSince(u, i);
      ClearSinceGrows(u, e, i);
    }
  }

  lemma JustRead(t: Trace)
    ensures ClearSince(t + [Probed(false)], |t|)
  {
  }

  /** Nothing starts under a tripped guard: each start follows a reading of its own that was
      clear. */
  lemma StartsUnderClearGuard(plan: Plan, t: Trace, j: nat)
    requires Legal(plan, t) && j < |t| && t[j].Started?
    ensures exists i :: ClearSince(t[..j], i)
  {
    AllowedAt(plan, t, j);
    GuardWasRead(t[..j]);
  }

  ghost predicate Runs(jobs: seq<Job>, pos: nat) {
    exists k | 0 <= k < |jobs| :: jobs[k].pos == pos
  }

  lemma WithoutRuns(jobs: seq<Job>, pos: nat, other: nat)
    requires Ordered(jobs) && Runs(jobs, pos)
    ensures Runs(Without(jobs, pos), other) <==> other != pos && Runs(jobs, other)
  {
    hide Without;
    var i :| 0 <= i < |jobs| && jobs[i].pos == pos;
    WithoutFacts(jobs, pos, i);
    if other != pos && Runs(jobs, other) {
      var k :| 0 <= k < |jobs| && jobs[k].pos == other;
      assert (jobs[..i] + jobs[i + 1..])[if k < i then k else k - 1].pos == other;
    }
  }

  lemma AppendRuns(jobs: seq<Job>, job: Job, other: nat)
    ensures Runs(jobs + [job], other) <==> other == job.pos || Runs(jobs, other)
  {
    if other == job.pos {
      assert (jobs + [job])[|jobs|].pos == other;
    } else if Runs(jobs, other) {
      var k :| 0 <= k < |jobs| && jobs[k].pos == other;
      assert (jobs + [job])[k].pos == other;
    }
  }

  /** One event starts at most its own row and ends at most its own row. */
  lemma RunsStep(plan: Plan, t: Trace, e: Event, pos: nat)
    requires Ordered(ActiveOf(t)) && Allowed(plan, t, e)
    ensures Runs(ActiveOf(t + [e]), pos) <==>
      (Runs(ActiveOf(t), pos) && !(e.Finished? && e.pos == pos)) || (e.Started? && e.job.pos == pos)
    ensures e.Finished? ==> Runs(ActiveOf(t), e.pos)
    ensures e.Started? ==> e.job.pos !in HandledOf(t)
  {
    hide Ordered;
    Extend(t, e);
    match e
    case Started(job) =>
      AppendRuns(ActiveOf(t), job, pos);
    case Finished(p, _, _) => WithoutRuns(ActiveOf(t), p, pos);
    case _ =>
  }

  lemma SplitLast(plan: Plan, t: Trace) returns (u: Trace, e: Event)
    requires t != [] && Legal(plan, t)
    ensures t == u + [e] && |u| == |t| - 1 && Legal(plan, u) && Allowed(plan, u, e)
    ensures Ordered(ActiveOf(u)) && forall pos | Runs(ActiveOf(u), pos) :: pos in HandledOf(u)
  {
    u, e := t[..|t| - 1], t[|t| - 1];
    LegalIsOrdered(plan, u);
  }

  lemma {:induction false} StartedEnds(plan: Plan, t: Trace, i: nat)
    requires Legal(plan, t) && i < |t| && t[i].Started? && !Runs(ActiveOf(t), t[i].job.pos)
    ensures exists j | i < j < |t| ::
      t[j].Finished? && t[j].pos == t[i].job.pos && t[i].job.pos in OutcomesOf(t) && OutcomesOf(t)[t[i].job.pos] == t[j].outcome
    decreases |t|
  {
    hide Allowed, Ordered, Runs;
    var pos := t[i].job.pos;
    var u, e := SplitLast(plan, t);
    RunsStep(plan, u, e, pos);
    Extend(u, e);
    if e.Finished? && e.pos == pos {
      assert t[|t| - 1] == e;
    } else {
      StartedEnds(plan, u, i);
      var j :| i < j < |u| && u[j].Finished? && u[j].pos == pos && pos in OutcomesOf(u) && OutcomesOf(u)[pos] == u[j].outcome;
      assert t[j] == u[j];
    }
  }

  lemma {:induction false} FinishedStaysGone(plan: Plan, t: Trace, j: nat)
    requires Legal(plan, t) && j < |t| && t[j].Finished?
    ensures !Runs(ActiveOf(t), t[j].pos) && t[j].pos in HandledOf(t)
    decreases |t|
  {
    hide Allowed, Ordered, Runs;
    var u, e := SplitLast(plan, t);
    RunsStep(plan, u, e, t[j].pos);
    Extend(u, e);
    if j < |u| {
      FinishedStaysGone(plan, u, j);
    }
  }

  /** When nothing runs any more, every started job has exactly one outcome. */
  lemma ExactlyOneOutcome(plan: Plan, t: Trace, i: nat)
    requires Legal(plan, t) && ActiveOf(t) == [] && i < |t| && t[i].Started?
    ensures exists j | i < j < |t| ::
      && t[j].Finished? && t[j].pos == t[i].job.pos
      && t[j].pos in OutcomesOf(t) && OutcomesOf(t)[t[j].pos] == t[j].outcome
      && forall m | 0 <= m < |t| && m != j :: t[m].Finished? ==> t[m].pos != t[j].pos
  {
    StartedEnds(plan, t, i);
    var j :| i < j < |t| && t[j].Finished? && t[j].pos == t[i].job.pos && t[j].pos in OutcomesOf(t) && OutcomesOf(t)[t[j].pos] == t[j].outcome;
    forall m | 0 <= m < |t| && m != j && t[m].Finished?
      ensures t[m].pos != t[j].pos
    {
      OutcomesDiffer(plan, t, if m < j then m else j, if m < j then j else m);
    }
  }

  lemma OutcomesDiffer(plan: Plan, t: Trace, i: nat, j: nat)
    requires Legal(plan, t) && i < j < |t| && t[i].Finished? && t[j].Finished?
    ensures t[i].pos != t[j].pos
  {
    PrefixLegal(plan, t, j);
    FinishedStaysGone(plan, t[..j], i);
    LegalIsOrdered(plan, t[..j]);
    AllowedAt(plan, t, j);
    RunsStep(plan, t[..j], t[j], t[j].pos);
  }

  /** A child is killed only once its own ceiling has passed since its start. */
  lemma KilledAtCeiling(plan: Plan, t: Trace, j: nat)
    requires Legal(plan, t) && j < |t| && t[j].Finished? && t[j].outcome.TimedOut?
    ensures t[j].pos < |plan.rows|
    ensures exists i | 0 <= i < j ::
      && t[i].Started? && t[i].job.pos == t[j].pos
      && !t[i].job.mode.InProcess?
      && var row := plan.rows[t[j].pos];
         t[j].at >= t[i].job.at + (if row.timeout != 0 then row.timeout else DefaultTimeout(row.kind)) * 1_000_000_000
  {
    AllowedAt(plan, t, j);
    PrefixLegal(plan, t, j);
    var u := t[..j];
    var k :| 0 <= k < |ActiveOf(u)| && ActiveOf(u)[k].pos == t[j].pos && MayEnd(ActiveOf(u)[k], t[j].outcome, t[j].at);
    ActiveStarted(plan, u, k);
    var i :| 0 <= i < j && u[i] == Started(ActiveOf(u)[k]);
    AllowedAt(plan, t, i);
    assert t[i] == u[i];
  }

  lemma {:induction false} ActiveStarted(plan: Plan, t: Trace, k: nat)
    requires Legal(plan, t) && k < |ActiveOf(t)|
    ensures exists i | 0 <= i < |t| :: t[i] == Started(ActiveOf(t)[k])
    decreases |t|
  {
    hide Allowed;
    var u, e := SplitLast(plan, t);
    Extend(u, e);
    var job := ActiveOf(t)[k];
    if e == Started(job) {
      assert t[|t| - 1] == e;
    } else {
      FromBefore(ActiveOf(u), e, job);
      var n :| 0 <= n < |ActiveOf(u)| && ActiveOf(u)[n] == job;
      ActiveStarted(plan, u, n);
      var i :| 0 <= i < |u| && u[i] == Started(job);
      assert t[i] == u[i];
    }
  }

  lemma FromBefore(jobs: seq<Job>, e: Event, job: Job)
    requires job in AfterEvent(jobs, e) && e != Started(job)
    ensures job in jobs
  {
    if e.Finished? {
      WithoutKeeps(jobs, e.pos, job);
    }
  }

  lemma WithoutKeeps(jobs: seq<Job>, pos: nat, job: Job)
    requires job in Without(jobs, pos)
    ensures job in jobs
  {
  }

  lemma {:induction false} SettledAreHandled(plan: Plan, t: Trace)
    requires Legal(plan, t)
    ensures OutcomesOf(t).Keys <= HandledOf(t) && RefusedOf(t) <= HandledOf(t)
    decreases |t|
  {
    hide Allowed, Ordered, Runs;
    if t != [] {
      var u, e := SplitLast(plan, t);
      SettledAreHandled(plan, u);
      Extend(u, e);
      RunsStep(plan, u, e, 0);
    }
  }
}
