/** One drain working through the rows it selected: the rolling pool, the leased child, the
    in-process call, and the loop over all of them. The clock, child exits, load probes, disk
    state and other processes' table changes are answers the drain cannot predict. */
module Drain {
  import opened Options
  import opened Arithmetic
  import opened QueueTypes
  import opened DrainTrace
  import opened DrainMoves

  datatype Stop = Budget | Resources | Unreadable

  /** Why a drain stopped before its last row. */
  datatype Why = Late | Tripped | PoolStopped(stop: Stop)

  /** The local variables of a rolling pool. */
  datatype Pool = Pool(active: seq<Job>, results: map<nat, Outcome>, next: nat, mem: int,
                       last: Option<int>, guardSince: Option<int>, stop: Option<Stop>)

  ghost function Firsts(pool: seq<nat>, n: nat): set<nat>
    requires n <= |pool|
  {
    set i | 0 <= i < n :: pool[i]
  }

  /** The rows a pool may be given: increasing, unhandled, parallel-safe, and with everything
      before the last of them either handled or in the pool. */
  ghost predicate Poolable(plan: Plan, handled: set<nat>, pool: seq<nat>) {
    && (forall i | 0 <= i < |pool| :: pool[i] < |plan.rows| && ParallelSafe(plan.rows[pool[i]].kind) && pool[i] !in handled)
    && (forall i, j | 0 <= i < j < |pool| :: pool[i] < pool[j])
    && (forall i, q: nat | 0 <= i < |pool| && q < pool[i] :: q in handled || q in Firsts(pool, i))
  }

  /** The variables say what the trace says. */
  ghost predicate Tied(plan: Plan, pool: seq<nat>, before: Trace, t: Trace, s: Pool) {
    s.next <= |pool| && Recorded(plan, pool, before, t, s) && Counted(plan, pool, s)
  }

  ghost predicate Recorded(plan: Plan, pool: seq<nat>, before: Trace, t: Trace, s: Pool)
    requires s.next <= |pool|
  {
    && Legal(plan, t) && !WriterOpen(t)
    && ActiveOf(t) == s.active
    && LastStart(t) == s.last
    && HandledOf(t) == HandledOf(before) + Firsts(pool, s.next)
    && RefusedOf(t) == RefusedOf(before)
    && OutcomesOf(t) == OutcomesOf(before) + s.results
  }

  ghost predicate Counted(plan: Plan, pool: seq<nat>, s: Pool)
    requires s.next <= |pool|
  {
    && s.mem == MemOf(plan.rows, s.active)
    && Covers(pool, s)
    && (forall i | 0 <= i < |s.active| :: s.active[i].mode.Pooled?)
    && |s.active| <= plan.width
  }

  /** The launched rows are the ones running or with a result. */
  ghost predicate Covers(pool: seq<nat>, s: Pool)
    requires s.next <= |pool|
  {
    forall p: nat :: p in Firsts(pool, s.next) <==> p in s.results || Runs(s.active, p)
  }

  function Reaped(plan: Plan, s: Pool, k: nat, outcome: Outcome): Pool
    requires k < |s.active|
  {
    var pos := s.active[k].pos;
    s.(active := s.active[..k] + s.active[k + 1..], results := s.results[pos := outcome],
       mem := s.mem - if pos < |plan.rows| then plan.rows[pos].mem else 0)
  }

  lemma ReapJobs(rows: seq<Row>, jobs: seq<Job>, k: nat)
    requires Ordered(jobs) && k < |jobs|
    ensures Without(jobs, jobs[k].pos) == jobs[..k] + jobs[k + 1..]
    ensures MemOf(rows, jobs) == MemOf(rows, jobs[..k] + jobs[k + 1..]) + if jobs[k].pos < |rows| then rows[jobs[k].pos].mem else 0
  {
    hide Without, Ordered;
    WithoutFacts(jobs, jobs[k].pos, k);
    MemWithout(rows, jobs[..k], jobs[k], jobs[k + 1..]);
    SplitAt(jobs, k);
  }

  lemma ReapCovers(pool: seq<nat>, s: Pool, k: nat, after: Pool)
    requires s.next <= |pool| && Covers(pool, s) && Ordered(s.active) && k < |s.active|
    requires after.next == s.next && after.active == Without(s.active, s.active[k].pos)
    requires after.results.Keys == s.results.Keys + {s.active[k].pos}
    ensures Covers(pool, after)
  {
    hide Runs, Firsts, Ordered;
    var pos := s.active[k].pos;
    RunsAt(s.active, k);
    forall p: nat
      ensures p in Firsts(pool, after.next) <==> p in after.results || Runs(after.active, p)
    {
      WithoutRuns(s.active, pos, p);
      assert p in after.results <==> p in after.results.Keys;
    }
  }

  lemma ReapAllowed(plan: Plan, t: Trace, k: nat, outcome: Outcome, at: int)
    requires k < |ActiveOf(t)| && MayEnd(ActiveOf(t)[k], outcome, at)
    ensures Allowed(plan, t, Finished(ActiveOf(t)[k].pos, outcome, at))
  {
  }

  lemma ReapRecorded(plan: Plan, pool: seq<nat>, before: Trace, t: Trace, s: Pool, k: nat, e: Event, r: Pool)
    requires s.next <= |pool| && Recorded(plan, pool, before, t, s) && k < |s.active|
    requires e.Finished? && e.pos == s.active[k].pos && MayEnd(s.active[k], e.outcome, e.at)
    requires r.active == Without(s.active, e.pos)
    requires r == s.(active := r.active, results := s.results[e.pos := e.outcome], mem := r.mem)
    ensures Recorded(plan, pool, before, t + [e], r)
  {
    hide Firsts, Allowed, MayEnd;
    Extend(t, e);
    ReapAllowed(plan, t, k, e.outcome, e.at);
    LegalExtends(plan, t, e);
    assert OutcomesOf(before) + r.results == (OutcomesOf(before) + s.results)[e.pos := e.outcome];
  }

  lemma ReapCounted(plan: Plan, pool: seq<nat>, s: Pool, k: nat, outcome: Outcome)
    requires s.next <= |pool| && Counted(plan, pool, s) && k < |s.active| && Ordered(s.active)
    ensures var r := Reaped(plan, s, k, outcome);
      r.active == Without(s.active, s.active[k].pos) && Counted(plan, pool, r)
  {
    hide Runs, Firsts, Covers, Ordered;
    ReapJobs(plan.rows, s.active, k);
    ReapCovers(pool, s, k, Reaped(plan, s, k, outcome));
  }

  lemma ReapOne(plan: Plan, pool: seq<nat>, before: Trace, t: Trace, s: Pool, k: nat, outcome: Outcome, at: int)
    requires Tied(plan, pool, before, t, s) && k < |s.active| && MayEnd(s.active[k], outcome, at)
    ensures Tied(plan, pool, before, t + [Finished(s.active[k].pos, outcome, at)], Reaped(plan, s, k, outcome))
  {
    hide Counted, Recorded, Ordered, MayEnd;
    RecordedOrder(plan, pool, before, t, s);
    ReapCounted(plan, pool, s, k, outcome);
    ReapRecorded(plan, pool, before, t, s, k, Finished(s.active[k].pos, outcome, at), Reaped(plan, s, k, outcome));
  }

  lemma RecordedOrder(plan: Plan, pool: seq<nat>, before: Trace, t: Trace, s: Pool)
    requires s.next <= |pool| && Recorded(plan, pool, before, t, s)
    ensures Ordered(s.active)
  {
    LegalIsOrdered(plan, t);
  }

  lemma RunsAt(jobs: seq<Job>, k: nat)
    requires k < |jobs|
    ensures Runs(jobs, jobs[k].pos)
  {
  }

  function Launched(plan: Plan, pool: seq<nat>, s: Pool, now: int): Pool
    requires s.next < |pool| && pool[s.next] < |plan.rows|
  {
    var row := plan.rows[pool[s.next]];
    s.(active := s.active + [Job(pool[s.next], Pooled, now, now + Limit(row))], mem := s.mem + row.mem,
       last := Some(now), next := s.next + 1, guardSince := None)
  }

  ghost predicate MayLaunch(plan: Plan, pool: seq<nat>, s: Pool, now: int) {
    && s.next < |pool| && |s.active| < plan.width && now < plan.deadline
    && (s.last.Some? ==> now >= s.last.value + STAGGER)
    && pool[s.next] < |plan.rows| && s.mem + plan.rows[pool[s.next]].mem <= RAM_BUDGET
  }

  lemma FirstsStep(pool: seq<nat>, n: nat)
    requires n < |pool|
    ensures Firsts(pool, n + 1) == Firsts(pool, n) + {pool[n]}
  {
  }

  lemma LaunchCovers(pool: seq<nat>, s: Pool, job: Job, after: Pool)
    requires s.next < |pool| && Covers(pool, s) && job.pos == pool[s.next]
    requires after.next == s.next + 1 && after.active == s.active + [job] && after.results == s.results
    ensures Covers(pool, after)
  {
    hide Runs, Firsts;
    FirstsStep(pool, s.next);
    forall p: nat
      ensures p in Firsts(pool, after.next) <==> p in after.results || Runs(after.active, p)
    {
      AppendRuns(s.active, job, p);
    }
  }

  lemma PoolableNext(plan: Plan, handled: set<nat>, pool: seq<nat>, n: nat)
    requires Poolable(plan, handled, pool) && n < |pool|
    ensures pool[n] < |plan.rows| && ParallelSafe(plan.rows[pool[n]].kind) && pool[n] !in handled + Firsts(pool, n)
    ensures forall q: nat | q < pool[n] :: q in handled + Firsts(pool, n)
  {
  }

  lemma LaunchRecorded(plan: Plan, pool: seq<nat>, before: Trace, t: Trace, s: Pool, job: Job, r: Pool)
    requires s.next < |pool| && Recorded(plan, pool, before, t, s) && MayStart(plan, t, job) && job.pos == pool[s.next]
    requires r == s.(active := s.active + [job], mem := r.mem, last := Some(job.at), next := s.next + 1, guardSince := r.guardSince)
    ensures Recorded(plan, pool, before, t + [Started(job)], r)
  {
    hide Firsts, MayStart;
    Extend(t, Started(job));
    LegalExtends(plan, t, Started(job));
    FirstsStep(pool, s.next);
  }

  lemma LaunchCounted(plan: Plan, pool: seq<nat>, s: Pool, now: int)
    requires s.next < |pool| && Counted(plan, pool, s) && pool[s.next] < |plan.rows| && |s.active| < plan.width
    ensures Counted(plan, pool, Launched(plan, pool, s, now))
  {
    hide Runs, Firsts, Covers;
    var r := Launched(plan, pool, s, now);
    LaunchCovers(pool, s, r.active[|s.active|], r);
    AppendJob(plan.rows, s.active, r.active[|s.active|]);
  }

  lemma LaunchMayStart(plan: Plan, pool: seq<nat>, before: Trace, t: Trace, s: Pool, now: int)
    requires Poolable(plan, HandledOf(before), pool)
    requires Tied(plan, pool, before, t, s) && MayLaunch(plan, pool, s, now) && GuardClear(t)
    ensures MayStart(plan, t, Launched(plan, pool, s, now).active[|s.active|])
  {
    hide Poolable, Covers, Firsts;
    PoolableNext(plan, HandledOf(before), pool, s.next);
  }

  lemma LaunchOne(plan: Plan, pool: seq<nat>, before: Trace, t: Trace, s: Pool, now: int)
    requires Poolable(plan, HandledOf(before), pool)
    requires Tied(plan, pool, before, t, s) && MayLaunch(plan, pool, s, now) && GuardClear(t)
    ensures var after := Launched(plan, pool, s, now);
      Tied(plan, pool, before, t + [Started(after.active[|s.active|])], after)
  {
    hide Recorded, Counted, MayStart;
    var after := Launched(plan, pool, s, now);
    LaunchMayStart(plan, pool, before, t, s, now);
    LaunchRecorded(plan, pool, before, t, s, after.active[|s.active|], after);
    LaunchCounted(plan, pool, s, now);
  }

  // ----- termination and stopping -----

  /** No job of the pool can be due later than this. */
  ghost predicate Within(jobs: seq<Job>, horizon: int) {
    forall i | 0 <= i < |jobs| :: jobs[i].due <= horizon
  }

  ghost predicate Horizon(plan: Plan, pool: seq<nat>, horizon: int) {
    plan.deadline <= horizon && forall i | 0 <= i < |pool| :: pool[i] < |plan.rows| ==> plan.deadline + Limit(plan.rows[pool[i]]) <= horizon
  }

  lemma {:induction false} HorizonExists(plan: Plan, pool: seq<nat>)
    ensures exists horizon :: Horizon(plan, pool, horizon)
  {
    if pool == [] {
      assert Horizon(plan, pool, plan.deadline);
    } else {
      var last := |pool| - 1;
      HorizonExists(plan, pool[..last]);
      var h :| Horizon(plan, pool[..last], h);
      var own := if pool[last] < |plan.rows| then plan.deadline + Limit(plan.rows[pool[last]]) else h;
      assert forall i | 0 <= i < last :: pool[i] == pool[..last][i];
      assert Horizon(plan, pool, if own > h then own else h);
    }
  }

  /** A held launch dates from the last moment a job ran under the guard, or from its trip. */
  ghost predicate GuardDated(s: Pool, begun: int, now: int) {
    && (s.last.Some? ==> s.last.value <= now)
    && (s.guardSince.Some? ==> s.guardSince.value >= begun)
    && (s.guardSince.Some? ==> s.guardSince.value <= now && (s.last.Some? ==> s.last.value <= s.guardSince.value))
  }

  ghost predicate Unfinished(pool: seq<nat>, s: Pool) {
    s.active != [] || (s.next < |pool| && s.stop.None?)
  }

  /** Why a pool stopped: past the deadline, or idle with the guard tripped long enough, both since
      the pool began and since its last launch. */
  ghost predicate StopJustified(plan: Plan, pool: seq<nat>, s: Pool, begun: int, now: int) {
    && (s.stop.Some? ==> s.next < |pool| && !s.stop.value.Unreadable?)
    && (s.stop == Some(Budget) ==> now >= plan.deadline)
    && (s.stop == Some(Resources) ==> s.active == [] && now >= begun + SETTLE && (s.last.Some? ==> now >= s.last.value + SETTLE))
  }

  /** Why launching paused: the pool is over or full, the guard just read tripped, the next row
      does not fit beside the running ones, or the stagger has not passed. */
  ghost predicate Held(plan: Plan, pool: seq<nat>, s: Pool, t: Trace, now: int) {
    || s.stop.Some? || s.next >= |pool| || |s.active| >= plan.width
    || (t != [] && t[|t| - 1] == Probed(true))
    || (pool[s.next] < |plan.rows| && s.mem + plan.rows[pool[s.next]].mem > RAM_BUDGET)
    || (s.last.Some? && now < s.last.value + STAGGER)
  }

  lemma AlreadyHeld(plan: Plan, pool: seq<nat>, s: Pool, t: Trace, now: int)
    ensures s.stop.Some? || s.next >= |pool| || |s.active| >= plan.width ==> Held(plan, pool, s, t, now)
  {
  }

  // ----- the rows' final states -----

  function StateOf(outcome: Outcome): State {
    if outcome == Exited(0) then Done else Failed
  }

  ghost predicate RowSettled(outcomes: map<nat, Outcome>, refused: set<nat>, p: nat, state: State) {
    if p in outcomes then state == StateOf(outcomes[p])
    else if p in refused then state == Failed
    else state == Pending || state == Superseded
  }

  /** Every row is as the moves left it, and a row without a move is pending or superseded. */
  ghost predicate Mirrors(states: seq<State>, moves: seq<Move>) {
    forall p: nat | p < |states| ::
      if p in StatesOf(moves) then LeftAs(states[p], StatesOf(moves)[p]) else states[p].Pending? || states[p].Superseded?
  }

  ghost predicate Settled(states: seq<State>, outcomes: map<nat, Outcome>, refused: set<nat>) {
    forall p: nat | p < |states| :: RowSettled(outcomes, refused, p, states[p])
  }

  class Runner {
    const plan: Plan
    const drift: nat -> nat
    const exits: nat -> Option<int>
    const load5: nat -> real
    const freeGb: nat -> real
    const diskFull: nat -> bool
    const callReturns: nat -> bool
    const outsiders: nat -> set<nat>

    var now: int
    var asked: nat
    var states: seq<State>
    ghost var trace: Trace
    ghost var moves: seq<Move>

    /** A drain begins with every selected row pending and the writer held. */
    constructor (rows: seq<Row>, jobs: int, begun: int, budget: int, drift: nat -> nat, exits: nat -> Option<int>,
                 load5: nat -> real, freeGb: nat -> real, diskFull: nat -> bool, callReturns: nat -> bool, outsiders: nat -> set<nat>)
      ensures plan.rows == rows && plan.deadline == begun + budget && 1 <= plan.width <= 8 && (1 <= jobs <= 8 ==> plan.width == jobs)
      ensures |states| == |rows| && trace == [] && moves == [] && forall p | 0 <= p < |states| :: states[p] == Pending
      ensures AtRow(0)
    {
      var width: nat := if jobs < 1 then 1 else if jobs > 8 then 8 else jobs;
      this.plan := Plan(rows, width, begun + budget);
      this.drift, this.exits, this.load5, this.freeGb := drift, exits, load5, freeGb;
      this.diskFull, this.callReturns, this.outsiders := diskFull, callReturns, outsiders;
      this.now, this.asked, this.trace := begun, 0, [];
      this.states := seq(|rows|, i => Pending);
      this.moves := [];
    }

    /** Time never runs backwards. */
    method Clock() returns (t: int)
      modifies this`now, this`asked
      ensures t == now >= old(now) && asked == old(asked) + 1
    {
      now := now + drift(asked);
      asked := asked + 1;
      t := now;
    }

    method Sleep(span: nat)
      modifies this`now
      ensures now == old(now) + span
    {
      now := now + span;
    }

    method Poll() returns (code: Option<int>)
      modifies this`asked
      ensures code == exits(old(asked)) && asked == old(asked) + 1
    {
      code := exits(asked);
      asked := asked + 1;
    }

    predicate Trips(n: nat) {
      load5(n) > 28.0 || freeGb(n) < 8.0
    }

    /** Read the load and memory guard. */
    method Tripped() returns (tripped: bool)
      modifies this`asked, this`trace
      ensures tripped == Trips(old(asked))
      ensures trace == old(trace) + [Probed(tripped)]
    {
      tripped := load5(asked) > 28.0 || freeGb(asked) < 8.0;
      asked := asked + 1;
      trace := trace + [Probed(tripped)];
    }

    /** Read the disk watchdog. */
    method DiskFull() returns (full: bool)
      modifies this`asked, this`trace
      ensures full == diskFull(old(asked))
      ensures trace == old(trace) + [DiskRead(full)]
    {
      full := diskFull(asked);
      asked := asked + 1;
      trace := trace + [DiskRead(full)];
    }

    /** Collect the children that exited or passed their ceiling: each is asked once, in order, and
        ends by its own answer. */
    method Reap(pool: seq<nat>, ghost before: Trace, ghost horizon: int, s0: Pool, at: int) returns (s: Pool)
      requires Tied(plan, pool, before, trace, s0) && Within(s0.active, horizon)
      modifies this`asked, this`trace
      ensures Tied(plan, pool, before, trace, s) && Within(s.active, horizon)
      ensures s == s0.(active := s.active, results := s.results, mem := s.mem)
      ensures |s.active| <= |s0.active| && (at >= horizon ==> s.active == [])
      ensures old(trace) <= trace && asked == old(asked) + |s0.active|
      ensures forall k | 0 <= k < |s0.active| :: EndsBy(s0.active[k], exits(old(asked) + k), at, s)
      ensures OnlyAdds(s0.active, s0.results, s.results)
    {
      hide Tied, MayEnd, EndsBy, OnlyAdds, Swept;
      TiedOrder(plan, pool, before, trace, s0);
      s := s0;
      SweepStart(s0, at);
      var i, kept := 0, 0;
      ghost var answers := [];
      while i < |s0.active|
        invariant 0 <= kept <= i <= |s0.active| && |s.active| == kept + |s0.active| - i
        invariant s.active[kept..] == s0.active[i..]
        invariant Tied(plan, pool, before, trace, s) && Within(s.active, horizon)
        invariant s == s0.(active := s.active, results := s.results, mem := s.mem)
        invariant at >= horizon ==> kept == 0
        invariant old(trace) <= trace && asked == old(asked) + i
        invariant |answers| == i && forall k | 0 <= k < i :: answers[k] == exits(old(asked) + k)
        invariant Swept(s0, s, answers, at)
      {
        var job := s0.active[i];
        assert s.active[kept] == s.active[kept..][0] == job;
        TiedOrder(plan, pool, before, trace, s);
        var code := Poll();
        ghost var was := s;
        if code.Some? || at >= job.due {
          var outcome := if code.Some? then Exited(code.value) else TimedOut;
          JobMayEnd(plan, pool, before, trace, s, kept, outcome, at);
          ReapOne(plan, pool, before, trace, s, kept, outcome, at);
          trace := trace + [Finished(job.pos, outcome, at)];
          s := s.(active := s.active[..kept] + s.active[kept + 1..], results := s.results[job.pos := outcome],
                  mem := s.mem - plan.rows[job.pos].mem);
          assert s.active[kept..] == was.active[kept..][1..];
          SweepEnds(s0, was, s, answers, at, kept, code);
        } else {
          SweepKeeps(s0, s, answers, at, kept, code);
          kept := kept + 1;
        }
        answers := answers + [code];
        i := i + 1;
      }
      SweptAll(s0, s, answers, at);
    }

    /** Launch from the head of the queue until something forbids the next row. */
    method Fill(pool: seq<nat>, ghost before: Trace, ghost horizon: int, ghost begun: int, s0: Pool) returns (s: Pool)
      requires plan.width >= 1 && Poolable(plan, HandledOf(before), pool) && Horizon(plan, pool, horizon)
      requires Tied(plan, pool, before, trace, s0) && Within(s0.active, horizon)
      requires begun <= now && GuardDated(s0, begun, now) && StopJustified(plan, pool, s0, begun, now)
      modifies this`now, this`asked, this`trace
      ensures Tied(plan, pool, before, trace, s) && Within(s.active, horizon)
      ensures GuardDated(s, begun, now) && StopJustified(plan, pool, s, begun, now)
      ensures now >= old(now) && old(trace) <= trace
      ensures s0.active == [] && old(now) >= plan.deadline ==> !Unfinished(pool, s)
      ensures Held(plan, pool, s, trace, now)
      ensures s.stop == Some(Resources) && s0.stop != s.stop ==> LastReading(trace) == Some(true) && exists n :: Trips(n)
    {
      hide Tied, Poolable, Held, Within, Horizon, GuardDated, StopJustified, Trips;
      s := s0;
      AlreadyHeld(plan, pool, s, trace, now);
      while s.stop.None? && s.next < |pool| && |s.active| < plan.width
        invariant Tied(plan, pool, before, trace, s) && Within(s.active, horizon)
        invariant GuardDated(s, begun, now) && StopJustified(plan, pool, s, begun, now)
        invariant now >= old(now) && old(trace) <= trace
        invariant old(now) >= plan.deadline ==> s == s0
        invariant s.stop == s0.stop
        invariant s.stop.Some? || s.next >= |pool| || |s.active| >= plan.width ==> Held(plan, pool, s, trace, now)
        decreases |pool| - s.next
      {
        var launched;
        s, launched := TryLaunch(pool, before, horizon, begun, s);
        if !launched {
          break;
        }
        AlreadyHeld(plan, pool, s, trace, now);
      }
    }

    /** One look at the next row: launch it, or say why not. */
    method TryLaunch(pool: seq<nat>, ghost before: Trace, ghost horizon: int, ghost begun: int, s0: Pool) returns (s: Pool, launched: bool)
      requires Poolable(plan, HandledOf(before), pool) && Horizon(plan, pool, horizon)
      requires Tied(plan, pool, before, trace, s0) && Within(s0.active, horizon)
      requires begun <= now && GuardDated(s0, begun, now) && StopJustified(plan, pool, s0, begun, now)
      requires s0.stop.None? && s0.next < |pool| && |s0.active| < plan.width
      modifies this`now, this`asked, this`trace
      ensures Tied(plan, pool, before, trace, s) && Within(s.active, horizon)
      ensures GuardDated(s, begun, now) && StopJustified(plan, pool, s, begun, now)
      ensures now >= old(now) && old(trace) <= trace
      ensures launched ==> s.stop.None? && s.next == s0.next + 1 && old(now) < plan.deadline
      ensures !launched ==> Held(plan, pool, s, trace, now) && s.next == s0.next && s.active == s0.active
      ensures !launched && old(now) >= plan.deadline ==> s.stop == Some(Budget)
      ensures s.stop == Some(Resources) ==> LastReading(trace) == Some(true) && exists n :: Trips(n)
    {
      hide Tied, Poolable, MayStart;
      var at := Clock();
      if at >= plan.deadline {
        s := s0.(stop := Some(Budget));
        TiedSame(plan, pool, before, trace, s0, s);
        return s, false;
      }
      ReadTied(pool, before, s0);
      var tripped := Tripped();
      if tripped {
        s := s0;
        if s.guardSince.None? || s.active != [] {
          s := s.(guardSince := Some(at));
        } else if at - s.guardSince.value >= SETTLE {
          s := s.(stop := Some(Resources));
        }
        TiedSame(plan, pool, before, trace, s0, s);
        return s, false;
      }
      s := s0.(guardSince := None);
      TiedSame(plan, pool, before, trace, s0, s);
      PoolableNext(plan, HandledOf(before), pool, s.next);
      var row := plan.rows[pool[s.next]];
      if s.mem + row.mem > RAM_BUDGET || (s.last.Some? && at < s.last.value + STAGGER) {
        return s, false;
      }
      LaunchOne(plan, pool, before, trace, s, at);
      var job := Job(pool[s.next], Pooled, at, at + Limit(row));
      trace := trace + [Started(job)];
      s := s.(active := s.active + [job], mem := s.mem + row.mem, last := Some(at), next := s.next + 1);
      launched := true;
    }

    /** Reading the guard keeps the tie. */
    lemma ReadTied(pool: seq<nat>, before: Trace, s: Pool)
      requires Tied(plan, pool, before, trace, s)
      ensures forall tripped :: Tied(plan, pool, before, trace + [Probed(tripped)], s)
      ensures GuardClear(trace + [Probed(false)]) && LastReading(trace + [Probed(true)]) == Some(true)
    {
      hide Tied;
      TiedRead(plan, pool, before, trace, s, false);
      TiedRead(plan, pool, before, trace, s, true);
      Extend(trace, Probed(false));
      Extend(trace, Probed(true));
    }

    /** The rolling pool between closing and reopening the writer. It always ends: past the
        deadline nothing starts, and past the horizon nothing runs. */
    method Supervise(pool: seq<nat>) returns (s: Pool)
      requires plan.width >= 1 && Poolable(plan, HandledOf(trace), pool)
      requires Legal(plan, trace) && !WriterOpen(trace) && ActiveOf(trace) == [] && LastStart(trace) == None
      modifies this`now, this`asked, this`trace
      ensures Tied(plan, pool, old(trace), trace, s) && s.active == []
      ensures s.stop.None? <==> s.next == |pool|
      ensures StopJustified(plan, pool, s, old(now), now) && old(trace) <= trace && now >= old(now)
      ensures s.stop == Some(Resources) ==> LastReading(trace) == Some(true) && exists n :: Trips(n)
    {
      hide Tied, Poolable, Horizon, Trips, Held;
      ghost var before, begun := trace, now;
      s := Pool([], map[], 0, 0, None, None, None);
      TiedStart(plan, pool, before, s);
      HorizonExists(plan, pool);
      ghost var horizon :| Horizon(plan, pool, horizon);
      HorizonBound(plan, pool, horizon);
      while s.active != [] || (s.next < |pool| && s.stop.None?)
        invariant Tied(plan, pool, before, trace, s) && Within(s.active, horizon)
        invariant GuardDated(s, begun, now) && StopJustified(plan, pool, s, begun, now)
        invariant before <= trace && now >= begun
        invariant s.stop == Some(Resources) ==> LastReading(trace) == Some(true) && exists n :: Trips(n)
        decreases if Unfinished(pool, s) then 1 else 0, if now < horizon then horizon - now else 0
      {
        var at := Clock();
        s := Reap(pool, before, horizon, s, at);
        var launched := s.next;
        s := Fill(pool, before, horizon, begun, s);
        if s.active != [] || (s.next < |pool| && s.stop.None?) {
          var span: nat := POLL;
          if s.next == launched && s.last.Some? && |s.active| < plan.width {
            var t := Clock();
            var left := s.last.value + STAGGER - t;
            if 0 < left < span {
              span := left;
            }
          }
          Sleep(span);
        }
      }
      TiedNext(plan, pool, before, trace, s);
    }

    method MarkRunning(pool: seq<nat>)
      requires forall i | 0 <= i < |pool| :: pool[i] < |states|
      modifies this`states, this`moves
      ensures |states| == |old(states)| && moves == old(moves) + [Starts(Members(pool))]
      ensures forall p: nat | p < |states| :: states[p] == if p in pool then Running else old(states)[p]
    {
      moves := moves + [Starts(Members(pool))];
      var i := 0;
      while i < |pool|
        invariant 0 <= i <= |pool| && |states| == |old(states)| && moves == old(moves) + [Starts(Members(pool))]
        invariant forall p: nat | p < |states| :: states[p] == if p in pool[..i] then Running else old(states)[p]
      {
        states := states[pool[i] := Running];
        assert pool[..i + 1] == pool[..i] + [pool[i]];
        i := i + 1;
      }
      assert pool[..i] == pool;
    }

    /** Reacquire the writer; meanwhile others may have superseded rows that were pending. */
    method Reopen()
      requires Legal(plan, trace) && !WriterOpen(trace) && ActiveOf(trace) == []
      modifies this`states, this`trace, this`asked, this`moves
      ensures trace == old(trace) + [Opened] && Legal(plan, trace) && moves == old(moves) + [Reacquires]
      ensures asked == old(asked) + 1 && |states| == |old(states)|
      ensures forall p: nat | p < |states| :: states[p] == old(states)[p] || (old(states)[p].Pending? && states[p].Superseded?)
    {
      LegalExtends(plan, trace, Opened);
      trace := trace + [Opened];
      moves := moves + [Reacquires];
      var gone := outsiders(asked);
      asked := asked + 1;
      states := seq(|states|, p requires 0 <= p < |states| reads this =>
        if p in gone && states[p].Pending? then Superseded else states[p]);
    }

    /** Write each pool row's verdict, in queue order. */
    method RecordResults(pool: seq<nat>, results: map<nat, Outcome>)
      requires forall i | 0 <= i < |pool| :: pool[i] < |states|
      modifies this`states, this`moves
      ensures |states| == |old(states)| && moves == old(moves) + SettleMoves(pool, Verdicts(results))
      ensures forall p: nat | p < |states| :: states[p] == Verdict(pool, results, p, old(states)[p])
      ensures forall p | p in pool && p in results :: states[p] == if results[p] == Exited(0) then Done else Failed
    {
      moves := moves + SettleMoves(pool, Verdicts(results));
      var i := 0;
      while i < |pool|
        invariant 0 <= i <= |pool| && |states| == |old(states)| && moves == old(moves) + SettleMoves(pool, Verdicts(results))
        invariant forall p: nat | p < |states| :: states[p] == Verdict(pool[..i], results, p, old(states)[p])
      {
        states := states[pool[i] := if pool[i] in results then StateOf(results[pool[i]]) else Pending];
        assert pool[..i + 1] == pool[..i] + [pool[i]];
        i := i + 1;
      }
      assert pool[..i] == pool;
    }

    /** Between jobs: nothing runs, the writer is held, and every row's state is its verdict. */
    ghost predicate Idle()
      reads this
    {
      && plan.width >= 1 && |states| == |plan.rows|
      && Legal(plan, trace) && WriterOpen(trace) && ActiveOf(trace) == []
      && Settled(states, OutcomesOf(trace), RefusedOf(trace))
      && Rested(|plan.rows|, moves) && Mirrors(states, moves)
    }

    lemma IdleIsJudged()
      requires Idle()
      ensures forall p: nat | p < |states| ::
        states[p] == Done <==> p in OutcomesOf(trace) && OutcomesOf(trace)[p] == Exited(0)
      ensures forall p: nat | p < |states| ::
        states[p] == Failed <==> p in RefusedOf(trace) || (p in OutcomesOf(trace) && OutcomesOf(trace)[p] != Exited(0))
    {
      hide Settled, Rested, Mirrors, Legal;
      SettledAreJudged(plan, trace, states);
    }

    /** Every row the drain has moved is handled on the trace. */
    ghost predicate InStep()
      reads this
    {
      Handled(moves) <= HandledOf(trace)
    }

    /** Run a pool: the launched rows are its first `launched`, each with one recorded outcome;
        the rest are pending again. The stop reason is absent exactly when all were launched. */
    method RunPool(pool: seq<nat>) returns (stop: Option<Stop>, launched: nat)
      requires Idle() && InStep() && Poolable(plan, HandledOf(trace), pool)
      modifies this
      ensures Idle() && old(trace) <= trace && launched <= |pool|
      ensures HandledOf(trace) == old(HandledOf(trace)) + Firsts(pool, launched)
      ensures RefusedOf(trace) == old(RefusedOf(trace))
      ensures OutcomesOf(trace).Keys == old(OutcomesOf(trace)).Keys + Firsts(pool, launched)
      ensures forall p: nat | p < |states| ::
        states[p] == Done <==> p in OutcomesOf(trace) && OutcomesOf(trace)[p] == Exited(0)
      ensures forall p: nat | p < |states| ::
        states[p] == Failed <==> p in RefusedOf(trace) || (p in OutcomesOf(trace) && OutcomesOf(trace)[p] != Exited(0))
      ensures stop.None? <==> launched == |pool|
      ensures stop == Some(Unreadable) ==> UnreadableIn(pool)
      ensures Stalls(pool) && !UnreadableIn(pool) && !(exists n :: Trips(n)) ==> stop == Some(Budget)
      ensures DeclaresNonNegative(plan) ==> forall i | 0 <= i < launched :: plan.rows[pool[i]].mem <= RAM_BUDGET
      ensures stop.None? ==> InStep()
      ensures stop != Some(Unreadable) ==> forall i | launched <= i < |pool| :: states[pool[i]] == Pending
      ensures stop == Some(Budget) ==> now >= plan.deadline
      ensures stop == Some(Resources) ==> LastReading(trace) == Some(true) && exists n :: Trips(n)
    {
      hide Tied, Settled, Trips, Rested, Handled;
      var bad := AnyUnreadable(pool);
      if bad {
        EmptyLaunch(pool, HandledOf(trace), OutcomesOf(trace));
        SettledAreJudged(plan, trace, states);
        return Some(Unreadable), 0;
      }
      hide Idle, InStep, Poolable;
      ghost var before := trace;
      ClosePool(pool);
      stop, launched := FinishPool(pool, before, old(states), old(moves));
      IdleIsJudged();
      if Stalls(pool) {
        var i :| 0 <= i < |pool| && pool[i] < |plan.rows| && plan.rows[pool[i]].mem > RAM_BUDGET;
        assert launched <= i;
        match stop {
          case None =>
          case Some(reason) => assert reason.Budget? || reason.Resources? || reason.Unreadable?;
        }
      }
    }

    /** Mark the pool's rows running and let go of the writer. */
    method ClosePool(pool: seq<nat>)
      requires Idle() && Poolable(plan, HandledOf(trace), pool)
      modifies this`states, this`trace, this`moves
      ensures trace == old(trace) + [Closed] && moves == old(moves) + [Starts(Members(pool))] + [Releases]
      ensures Legal(plan, trace) && !WriterOpen(trace) && ActiveOf(trace) == [] && LastStart(trace) == None
      ensures HandledOf(trace) == HandledOf(old(trace)) && RefusedOf(trace) == RefusedOf(old(trace)) && OutcomesOf(trace) == OutcomesOf(old(trace))
      ensures |states| == |old(states)|
      ensures forall p: nat | p < |states| :: states[p] == if p in pool then Running else old(states)[p]
    {
      hide Settled, Rested, Mirrors, StatesOf;
      MarkRunning(pool);
      LegalExtends(plan, trace, Closed);
      Extend(trace, Closed);
      trace := trace + [Closed];
      moves := moves + [Releases];
    }

    /** Supervise a closed pool, take the writer back and record what became of its rows. */
    method FinishPool(pool: seq<nat>, ghost before: Trace, ghost states0: seq<State>, ghost moves0: seq<Move>)
        returns (stop: Option<Stop>, launched: nat)
      requires plan.width >= 1 && Poolable(plan, HandledOf(before), pool) && Legal(plan, before)
      requires Handled(moves0) <= HandledOf(before) && Rested(|plan.rows|, moves0) && Mirrors(states0, moves0)
      requires trace == before + [Closed] && moves == moves0 + [Starts(Members(pool))] + [Releases]
      requires Legal(plan, trace) && !WriterOpen(trace) && ActiveOf(trace) == [] && LastStart(trace) == None
      requires HandledOf(trace) == HandledOf(before) && RefusedOf(trace) == RefusedOf(before) && OutcomesOf(trace) == OutcomesOf(before)
      requires |states| == |states0| == |plan.rows| && Settled(states0, OutcomesOf(before), RefusedOf(before))
      requires forall p: nat | p < |states| :: states[p] == if p in pool then Running else states0[p]
      modifies this
      ensures Idle() && before <= trace && launched <= |pool|
      ensures HandledOf(trace) == HandledOf(before) + Firsts(pool, launched)
      ensures RefusedOf(trace) == RefusedOf(before)
      ensures OutcomesOf(trace).Keys == OutcomesOf(before).Keys + Firsts(pool, launched)
      ensures (stop.None? <==> launched == |pool|) && stop != Some(Unreadable)
      ensures DeclaresNonNegative(plan) ==> forall i | 0 <= i < launched :: plan.rows[pool[i]].mem <= RAM_BUDGET
      ensures stop.None? ==> InStep()
      ensures forall i | launched <= i < |pool| :: states[pool[i]] == Pending
      ensures stop == Some(Budget) ==> now >= plan.deadline
      ensures stop == Some(Resources) ==> LastReading(trace) == Some(true) && exists n :: Trips(n)
    {
      hide Tied, Settled, Trips, Rested, Handled, Mirrors, StatesOf;
      SettledAreHandled(plan, before);
      ghost var closed, waiting := trace, states;
      var s := Supervise(pool);
      TiedOutcome(plan, pool, closed, trace, s);
      Extend(trace, Opened);
      Reopen();
      ghost var reopened := states;
      RecordResults(pool, s.results);
      PoolSettles(pool, s, before, trace, states0, waiting, reopened, states);
      PoolMoves(|plan.rows|, moves0, pool, Verdicts(s.results));
      PoolMirrors(pool, s.results, moves0, moves, states0, waiting, reopened, states);
      MembersAreFirsts(pool);
      stop, launched := s.stop, s.next;
      LaunchedFit(plan, trace, pool, launched, OutcomesOf(before).Keys);
    }

    /** A row that can never start, among non-negative declarations. */
    ghost predicate Stalls(pool: seq<nat>) {
      DeclaresNonNegative(plan) && exists i | 0 <= i < |pool| :: pool[i] < |plan.rows| && plan.rows[pool[i]].mem > RAM_BUDGET
    }

    /** A walk-forward row whose parameters do not read. */
    predicate UnreadableIn(pool: seq<nat>) {
      exists i | 0 <= i < |pool| :: pool[i] < |plan.rows| && plan.rows[pool[i]].kind.Walkforward? && !plan.rows[pool[i]].readable
    }

    method AnyUnreadable(pool: seq<nat>) returns (bad: bool)
      requires forall i | 0 <= i < |pool| :: pool[i] < |plan.rows|
      ensures bad <==> UnreadableIn(pool)
    {
      bad := false;
      for i := 0 to |pool|
        invariant !bad && forall k | 0 <= k < i :: !(plan.rows[pool[k]].kind.Walkforward? && !plan.rows[pool[k]].readable)
      {
        if plan.rows[pool[i]].kind.Walkforward? && !plan.rows[pool[i]].readable {
          return true;
        }
      }
    }

    /** Rows up to `idx` have been dealt with and no others. */
    ghost predicate AtRow(idx: nat)
      reads this
    {
      Idle() && InStep() && idx <= |plan.rows| && UpTo(HandledOf(trace), idx)
    }

    /** Fail a row without running it. */
    method Refuse(p: nat)
      requires Idle() && InStep() && p < |plan.rows| && p !in HandledOf(trace)
      requires plan.rows[p].mem > RAM_BUDGET || plan.rows[p].kind.Unlisted? || !plan.rows[p].readable
      modifies this`states, this`trace, this`moves
      ensures Idle() && InStep() && old(trace) <= trace && HandledOf(trace) == old(HandledOf(trace)) + {p}
      ensures RefusedOf(trace) == old(RefusedOf(trace)) + {p}
    {
      hide Settled, Rested, Handled, Mirrors, StatesOf;
      RefusedMoves(|plan.rows|, moves, p);
      OneMirrors(states, states[p := Failed], moves, moves + [Refuses(p)], p, Failed);
      moves := moves + [Refuses(p)];
      SettledAreHandled(plan, trace);
      LegalExtends(plan, trace, Refused(p));
      Extend(trace, Refused(p));
      RefuseSettles(states, OutcomesOf(trace), RefusedOf(trace), p);
      trace := trace + [Refused(p)];
      states := states[p := Failed];
    }

    /** Leave an archive row pending because the disk is short. */
    method Skip(p: nat)
      requires Idle() && InStep() && p < |plan.rows| && p !in HandledOf(trace) && Archive(plan.rows[p].kind) && !DiskClear(trace)
      modifies this`trace
      ensures Idle() && InStep() && old(trace) <= trace && HandledOf(trace) == old(HandledOf(trace)) + {p}
    {
      hide Settled, Rested, Handled, Mirrors, StatesOf;
      LegalExtends(plan, trace, Skipped(p));
      Extend(trace, Skipped(p));
      trace := trace + [Skipped(p)];
    }

    /** Poll one child until it exits or its ceiling passes. */
    method WaitFor(due: int) returns (outcome: Outcome, t: int)
      modifies this`now, this`asked
      ensures now >= old(now) && (outcome.Exited? || (outcome.TimedOut? && t >= due))
      ensures asked >= old(asked) + 2 && outcome == match exits(asked - 2) { case Some(code) => Exited(code) case None => TimedOut }
    {
      var code := Poll();
      t := Clock();
      while code.None? && t < due
        invariant t <= now && now >= old(now) && asked >= old(asked) + 2 && code == exits(asked - 2)
        decreases due - t
      {
        Sleep(POLL);
        code := Poll();
        t := Clock();
      }
      outcome := if code.Some? then Exited(code.value) else TimedOut;
    }

    /** A store-writing child, alone, with the parent's writer released until it ends. */
    method RunLeased(p: nat, at: int)
      requires AtRow(p) && p < |plan.rows| && at <= now && at <= plan.deadline
      requires ReleasesWriter(plan.rows[p].kind) && plan.rows[p].readable && plan.rows[p].mem <= RAM_BUDGET
      requires GuardClear(trace) && (Archive(plan.rows[p].kind) ==> DiskClear(trace))
      modifies this
      ensures AtRow(p + 1) && old(trace) <= trace && p in OutcomesOf(trace)
      ensures asked >= old(asked) + 3 && OutcomesOf(trace)[p] == match exits(asked - 3) { case Some(code) => Exited(code) case None => TimedOut }
      ensures states[p] == if OutcomesOf(trace)[p] == Exited(0) then Done else Failed
    {
      hide Settled, MayStart, Rested, Handled, Mirrors, StatesOf, Leasable, UpTo;
      ghost var before, states0, moves0 := trace, states, moves;
      ghost var job;
      var due;
      due, job := BeginLease(p, at);
      var outcome, t := WaitFor(due);
      EndLease(p, outcome, t, before, job, states0, moves0);
    }

    /** Mark the row running, let go of the writer and spawn the child. */
    method BeginLease(p: nat, at: int) returns (due: int, ghost job: Job)
      requires AtRow(p) && p < |plan.rows| && at <= now && at <= plan.deadline
      requires ReleasesWriter(plan.rows[p].kind) && plan.rows[p].readable && plan.rows[p].mem <= RAM_BUDGET
      requires GuardClear(trace) && (Archive(plan.rows[p].kind) ==> DiskClear(trace))
      modifies this
      ensures Leasable(plan, old(trace), job) && job.pos == p && job.due == due
      ensures states == old(states)[p := Running] && asked > old(asked)
      ensures trace == old(trace) + [Closed] + [Started(job)] && moves == old(moves) + [Starts({p})] + [Releases]
    {
      hide Settled, MayStart, Rested, Handled, Mirrors, StatesOf;
      states := states[p := Running];
      var t := Clock();
      due := t + Limit(plan.rows[p]);
      job := Job(p, Leased, at, due);
      trace := trace + [Closed] + [Started(job)];
      moves := moves + [Starts({p})] + [Releases];
    }

    /** Take the writer back from a leased child and record its verdict. */
    method EndLease(p: nat, outcome: Outcome, at: int, ghost before: Trace, ghost job: Job, ghost states0: seq<State>, ghost moves0: seq<Move>)
      requires plan.width >= 1 && p < |plan.rows| == |states| == |states0| && states == states0[p := Running]
      requires Leasable(plan, before, job) && job.pos == p && (outcome.Exited? || (outcome.TimedOut? && at >= job.due))
      requires trace == before + [Closed] + [Started(job)] && moves == moves0 + [Starts({p})] + [Releases]
      requires Settled(states0, OutcomesOf(before), RefusedOf(before)) && Rested(|plan.rows|, moves0) && Handled(moves0) <= HandledOf(before)
      requires Mirrors(states0, moves0)
      modifies this
      ensures AtRow(p + 1) && before <= trace && p in OutcomesOf(trace) && OutcomesOf(trace)[p] == outcome
      ensures asked == old(asked) + 1 && states[p] == if outcome == Exited(0) then Done else Failed
    {
      LeasableAt(plan, before, job);
      hide Settled, MayStart, Rested, Handled, Leasable, UpTo, Mirrors, StatesOf, Legal, ActiveOf, OutcomesOf, RefusedOf, HandledOf, WriterOpen;
      LeasedEnds(plan, before, job, outcome, at);
      trace := trace + [Finished(p, outcome, at)];
      Reopen();
      ghost var states2 := states;
      states := states[p := StateOf(outcome)];
      moves := moves + [Settles(p, StateOf(outcome))];
      LeasedMoves(|plan.rows|, moves0, p, StateOf(outcome));
      LeaseRecords(states0, states2, moves0, moves, OutcomesOf(before), RefusedOf(before), p, outcome);
    }

    /** A call on the parent's own connection; an exception fails the row. */
    method RunInProcess(p: nat, at: int)
      requires AtRow(p) && p < |plan.rows| && at <= plan.deadline && plan.rows[p].mem <= RAM_BUDGET
      requires !ReleasesWriter(plan.rows[p].kind) && !plan.rows[p].kind.Unlisted? && plan.rows[p].readable && GuardClear(trace)
      modifies this
      ensures AtRow(p + 1) && old(trace) <= trace && p in OutcomesOf(trace)
      ensures OutcomesOf(trace)[p] == Exited(0) <==> callReturns(old(asked))
      ensures states == old(states)[p := if callReturns(old(asked)) then Done else Failed]
    {
      hide Settled, MayStart, Rested, Handled, Mirrors, StatesOf;
      CalledMoves(|plan.rows|, moves, p, Done);
      CalledMoves(|plan.rows|, moves, p, Failed);
      var outcome := if callReturns(asked) then Exited(0) else Threw;
      asked := asked + 1;
      ghost var job := Job(p, InProcess, at, at);
      ghost var before := trace;
      InProcessRuns(plan, before, job, outcome);
      trace := before + [Started(job)] + [Finished(p, outcome, at)];
      ghost var states0 := states;
      states := states[p := StateOf(outcome)];
      OneMirrors(states0, states, moves, moves + [Starts({p})] + [Settles(p, StateOf(outcome))], p, StateOf(outcome));
      moves := moves + [Starts({p})] + [Settles(p, StateOf(outcome))];
      LeasedSettles(states0, states0, states0, OutcomesOf(before), RefusedOf(before), p, outcome);
    }

    /** The consecutive parallel-safe rows from `idx`, without the first oversized one, which is
        refused. */
    method TakeRun(idx: nat) returns (run: seq<nat>, j: nat)
      requires AtRow(idx) && idx < |plan.rows| && ParallelSafe(plan.rows[idx].kind)
      modifies this`states, this`trace, this`moves
      ensures Idle() && InStep() && old(trace) <= trace && idx < j <= |plan.rows|
      ensures Poolable(plan, HandledOf(trace), run) && UpTo(HandledOf(trace) + Firsts(run, |run|), j)
      ensures (forall q | idx <= q < j :: ParallelSafe(plan.rows[q].kind)) && (j < |plan.rows| ==> !ParallelSafe(plan.rows[j].kind))
      ensures var o := FirstOversized(plan.rows, idx, j);
        if o < j then run == Range(idx, o) + Range(o + 1, j) && RefusedOf(trace) == old(RefusedOf(trace)) + {o}
        else run == Range(idx, j) && trace == old(trace)
    {
      hide Settled, Poolable, Idle, InStep;
      j := idx;
      while j < |plan.rows| && ParallelSafe(plan.rows[j].kind)
        invariant idx <= j <= |plan.rows|
        invariant forall q | idx <= q < j :: ParallelSafe(plan.rows[q].kind)
      {
        j := j + 1;
      }
      var o := idx;
      while o < j && plan.rows[o].mem <= RAM_BUDGET
        invariant idx <= o <= j && FirstOversized(plan.rows, idx, j) == FirstOversized(plan.rows, o, j)
      {
        o := o + 1;
      }
      if o < j {
        Refuse(o);
        run := Range(idx, o) + Range(o + 1, j);
        RunIsPoolable(plan, HandledOf(trace), idx, o, j);
      } else {
        run := Range(idx, j);
        WholeIsPoolable(plan, HandledOf(trace), idx, j);
      }
    }

    /** The reason given for stopping is true now. */
    ghost predicate Explains(why: Why)
      reads this
    {
      match why
      case Late => now > plan.deadline
      case Tripped => LastReading(trace) == Some(true)
      case PoolStopped(Budget) => now >= plan.deadline
      case PoolStopped(Resources) => LastReading(trace) == Some(true) && exists n :: Trips(n)
      case PoolStopped(Unreadable) => exists pool :: UnreadableIn(pool)
    }

    /** Work through the rows. Whatever the clock, loads, exits, disk and other processes do, the
        drain returns with nothing running, the writer held and every row settled; it deals with
        all rows unless it was late, the guard had just tripped, or a pool stopped. */
    method DrainRows() returns (why: Option<Why>)
      requires AtRow(0)
      modifies this
      ensures Idle() && old(trace) <= trace
      ensures why.None? ==> AtRow(|plan.rows|)
      ensures why.Some? ==> Explains(why.value)
      ensures forall p: nat | p < |states| ::
        states[p] == Done <==> p in OutcomesOf(trace) && OutcomesOf(trace)[p] == Exited(0)
      ensures forall p: nat | p < |states| ::
        states[p] == Failed <==> p in RefusedOf(trace) || (p in OutcomesOf(trace) && OutcomesOf(trace)[p] != Exited(0))
      ensures forall p: nat | p < |states| :: !states[p].Running?
    {
      var idx := 0;
      why := None;
      while idx < |plan.rows| && why.None?
        invariant Idle() && idx <= |plan.rows| && old(trace) <= trace
        invariant why.None? ==> AtRow(idx)
        invariant why.Some? ==> Explains(why.value)
        decreases |plan.rows| - idx, if why.None? then 1 else 0
      {
        hide Idle, Poolable, Explains;
        var next;
        next, why := Advance(idx);
        idx := if why.None? then next else idx;
      }
      NoneRunning(states, OutcomesOf(trace), RefusedOf(trace));
      SettledAreJudged(plan, trace, states);
    }

    /** One turn of the drain loop: the next row to look at, or why to stop. */
    method Advance(idx: nat) returns (next: nat, why: Option<Why>)
      requires AtRow(idx) && idx < |plan.rows|
      modifies this
      ensures Idle() && old(trace) <= trace
      ensures why.None? ==> idx < next <= |plan.rows| && AtRow(next)
      ensures why.Some? ==> Explains(why.value)
    {
      hide Settled, Poolable, Rested, Handled, Mirrors, StatesOf;
      next := idx;
      var row := plan.rows[idx];
      var t := Clock();
      if t > plan.deadline {
        return idx, Some(Late);
      }
      ReadKeepsPlace(plan, trace, Probed(false));
      ReadKeepsPlace(plan, trace, Probed(true));
      Extend(trace, Probed(true));
      var tripped := Tripped();
      if tripped {
        return idx, Some(Why.Tripped);
      }
      if plan.width > 1 && ParallelSafe(row.kind) {
        next, why := AdvancePool(idx);
      } else {
        RunAlone(idx, t);
        next, why := idx + 1, None;
      }
    }

    /** The turn that takes a run of parallel-safe rows. */
    method AdvancePool(idx: nat) returns (next: nat, why: Option<Why>)
      requires AtRow(idx) && idx < |plan.rows| && ParallelSafe(plan.rows[idx].kind)
      modifies this
      ensures Idle() && old(trace) <= trace
      ensures why.None? ==> idx < next <= |plan.rows| && AtRow(next)
      ensures why.Some? ==> Explains(why.value)
    {
      hide Settled, Poolable, Rested, Handled, Mirrors, StatesOf;
      var run, j := TakeRun(idx);
      if run == [] {
        return j, None;
      }
      var stop, launched := RunPool(run);
      return j, if stop.Some? then Some(PoolStopped(stop.value)) else None;
    }

    /** One row by itself: refused, skipped, leased to a child or called in process. */
    method RunAlone(idx: nat, at: int)
      requires AtRow(idx) && idx < |plan.rows| && at <= now && at <= plan.deadline && GuardClear(trace)
      modifies this
      ensures AtRow(idx + 1) && old(trace) <= trace
    {
      hide Settled;
      var row := plan.rows[idx];
      if row.mem > RAM_BUDGET {
        Refuse(idx);
        return;
      }
      ReadKeepsPlace(plan, trace, DiskRead(false));
      ReadKeepsPlace(plan, trace, DiskRead(true));
      var full := DiskFull();
      if Archive(row.kind) && full {
        Skip(idx);
      } else if row.kind.Unlisted? || !row.readable {
        Refuse(idx);
      } else if ReleasesWriter(row.kind) {
        RunLeased(idx, at);
      } else {
        RunInProcess(idx, at);
      }
    }
  }

  /** A polled child ends with its exit code, or timed out at its ceiling, or stays. */
  ghost predicate EndsBy(job: Job, code: Option<int>, at: int, s: Pool) {
    if code.None? && at < job.due then job in s.active
    else job !in s.active && job.pos in s.results && s.results[job.pos] == (if code.Some? then Exited(code.value) else TimedOut)
  }

  /** Only jobs among the given ones gained a result. */
  ghost predicate OnlyAdds(jobs: seq<Job>, before: map<nat, Outcome>, after: map<nat, Outcome>) {
    && (forall q: nat | !Runs(jobs, q) :: q in after <==> q in before)
    && (forall q: nat | q in before && !Runs(jobs, q) :: q in after && after[q] == before[q])
  }

  /** The first jobs have answered, and the pool says so. */
  ghost predicate Swept(s0: Pool, s: Pool, answers: seq<Option<int>>, at: int) {
    && |answers| <= |s0.active| && OnlyAdds(s0.active, s0.results, s.results)
    && forall k | 0 <= k < |answers| :: EndsBy(s0.active[k], answers[k], at, s)
  }

  lemma SweepStart(s0: Pool, at: int)
    ensures Swept(s0, s0, [], at)
  {
  }

  lemma SweptAll(s0: Pool, s: Pool, answers: seq<Option<int>>, at: int)
    requires Swept(s0, s, answers, at) && |answers| == |s0.active|
    ensures OnlyAdds(s0.active, s0.results, s.results)
    ensures forall k | 0 <= k < |answers| :: EndsBy(s0.active[k], answers[k], at, s)
  {
  }

  lemma SweepKeeps(s0: Pool, s: Pool, answers: seq<Option<int>>, at: int, kept: nat, code: Option<int>)
    requires Swept(s0, s, answers, at) && |answers| < |s0.active| && kept < |s.active|
    requires s.active[kept] == s0.active[|answers|] && code.None? && at < s.active[kept].due
    ensures Swept(s0, s, answers + [code], at)
  {
    hide OnlyAdds;
  }

  lemma SweepEnds(s0: Pool, was: Pool, s: Pool, answers: seq<Option<int>>, at: int, kept: nat, code: Option<int>)
    requires Swept(s0, was, answers, at) && Ordered(s0.active) && Ordered(was.active)
    requires |answers| < |s0.active| && kept < |was.active| && was.active[kept] == s0.active[|answers|]
    requires code.Some? || at >= was.active[kept].due
    requires s.active == was.active[..kept] + was.active[kept + 1..]
    requires s.results == was.results[was.active[kept].pos := if code.Some? then Exited(code.value) else TimedOut]
    ensures Swept(s0, s, answers + [code], at)
  {
    hide Runs, EndsBy;
    var more, job := answers + [code], was.active[kept];
    RunsAt(s0.active, |answers|);
    assert OnlyAdds(s0.active, s0.results, s.results);
    forall k | 0 <= k < |more|
      ensures EndsBy(s0.active[k], more[k], at, s)
    {
      if k < |answers| {
        StillEnds(s0.active[k], answers[k], at, was, s, kept);
      } else {
        JobEnds(job, code, at, was, s, kept);
      }
    }
  }

  lemma StillEnds(other: Job, code: Option<int>, at: int, was: Pool, s: Pool, kept: nat)
    requires EndsBy(other, code, at, was) && kept < |was.active| && other.pos != was.active[kept].pos
    requires s.active == was.active[..kept] + was.active[kept + 1..]
    requires forall q | q in was.results && q != was.active[kept].pos :: q in s.results && s.results[q] == was.results[q]
    ensures EndsBy(other, code, at, s)
  {
    if other in was.active {
      var k :| 0 <= k < |was.active| && was.active[k] == other;
      assert s.active[if k < kept then k else k - 1] == other;
    }
  }

  lemma JobEnds(job: Job, code: Option<int>, at: int, was: Pool, s: Pool, kept: nat)
    requires Ordered(was.active) && kept < |was.active| && job == was.active[kept] && (code.Some? || at >= job.due)
    requires s.active == was.active[..kept] + was.active[kept + 1..]
    requires job.pos in s.results && s.results[job.pos] == if code.Some? then Exited(code.value) else TimedOut
    ensures EndsBy(job, code, at, s)
  {
  }

  lemma TiedOrder(plan: Plan, pool: seq<nat>, before: Trace, t: Trace, s: Pool)
    requires Tied(plan, pool, before, t, s)
    ensures Ordered(s.active)
  {
    RecordedOrder(plan, pool, before, t, s);
  }

  lemma JobMayEnd(plan: Plan, pool: seq<nat>, before: Trace, t: Trace, s: Pool, k: nat, outcome: Outcome, at: int)
    requires Tied(plan, pool, before, t, s) && k < |s.active|
    requires outcome.Exited? || (outcome.TimedOut? && at >= s.active[k].due)
    ensures MayEnd(s.active[k], outcome, at) && s.active[k].pos < |plan.rows|
  {
    LegalIsGood(plan, t);
  }

  /** The guard and the stop reason are not in the trace. */
  lemma TiedSame(plan: Plan, pool: seq<nat>, before: Trace, t: Trace, s: Pool, r: Pool)
    requires Tied(plan, pool, before, t, s) && r == s.(guardSince := r.guardSince, stop := r.stop)
    ensures Tied(plan, pool, before, t, r)
  {
    hide Firsts, Runs;
  }

  lemma TiedStart(plan: Plan, pool: seq<nat>, t: Trace, s: Pool)
    requires Legal(plan, t) && !WriterOpen(t) && ActiveOf(t) == [] && LastStart(t) == None
    requires s == Pool([], map[], 0, 0, None, None, None)
    ensures Tied(plan, pool, t, t, s)
  {
    assert HandledOf(t) + Firsts(pool, 0) == HandledOf(t);
  }

  lemma TiedNext(plan: Plan, pool: seq<nat>, before: Trace, t: Trace, s: Pool)
    requires Tied(plan, pool, before, t, s)
    ensures s.next <= |pool|
  {
  }

  lemma TiedRead(plan: Plan, pool: seq<nat>, before: Trace, t: Trace, s: Pool, tripped: bool)
    requires Tied(plan, pool, before, t, s)
    ensures Tied(plan, pool, before, t + [Probed(tripped)], s)
  {
    hide Firsts, Counted;
    Extend(t, Probed(tripped));
    LegalExtends(plan, t, Probed(tripped));
  }

  lemma HorizonBound(plan: Plan, pool: seq<nat>, horizon: int)
    requires Horizon(plan, pool, horizon)
    ensures plan.deadline <= horizon
  {
  }

  function Verdicts(results: map<nat, Outcome>): (r: map<nat, State>)
    ensures r.Keys == results.Keys && forall p | p in r :: r[p] == StateOf(results[p])
  {
    map p | p in results :: StateOf(results[p])
  }

  function Verdict(pool: seq<nat>, results: map<nat, Outcome>, p: nat, state: State): State {
    if p !in pool then state else if p in results then StateOf(results[p]) else Pending
  }

  lemma LaunchedFit(plan: Plan, t: Trace, pool: seq<nat>, launched: nat, others: set<nat>)
    requires Legal(plan, t) && launched <= |pool| && OutcomesOf(t).Keys == others + Firsts(pool, launched)
    requires forall i | 0 <= i < |pool| :: pool[i] < |plan.rows|
    ensures DeclaresNonNegative(plan) ==> forall i | 0 <= i < launched :: plan.rows[pool[i]].mem <= RAM_BUDGET
  {
    if DeclaresNonNegative(plan) {
      forall i | 0 <= i < launched
        ensures plan.rows[pool[i]].mem <= RAM_BUDGET
      {
        assert pool[i] in OutcomesOf(t).Keys;
        OutcomesFit(plan, t, pool[i]);
      }
    }
  }

  /** An idle pool is never held by memory when its next row fits: it waits only for the guard or
      the stagger. */
  lemma IdlePoolWaits(plan: Plan, pool: seq<nat>, before: Trace, t: Trace, s: Pool, now: int)
    requires Tied(plan, pool, before, t, s) && Held(plan, pool, s, t, now) && plan.width >= 1
    requires s.active == [] && s.stop.None? && s.next < |pool| && pool[s.next] < |plan.rows|
    requires plan.rows[pool[s.next]].mem <= RAM_BUDGET
    ensures (t != [] && t[|t| - 1] == Probed(true)) || (s.last.Some? && now < s.last.value + STAGGER)
  {
  }

  lemma PoolMirrors(pool: seq<nat>, results: map<nat, Outcome>, moves0: seq<Move>, moves: seq<Move>,
                    s0: seq<State>, s1: seq<State>, s2: seq<State>, s3: seq<State>)
    requires |s0| == |s1| == |s2| == |s3| && Mirrors(s0, moves0)
    requires forall p :: p in StatesOf(moves) <==> p in StatesOf(moves0) || p in pool
    requires forall p | p in pool :: StatesOf(moves)[p] == if p in Verdicts(results) then Verdicts(results)[p] else Pending
    requires forall p | p in StatesOf(moves0) && p !in pool :: StatesOf(moves)[p] == StatesOf(moves0)[p]
    requires forall p: nat | p < |s0| :: s1[p] == if p in pool then Running else s0[p]
    requires forall p: nat | p < |s0| :: s2[p] == s1[p] || (s1[p].Pending? && s2[p].Superseded?)
    requires forall p: nat | p < |s0| :: s3[p] == Verdict(pool, results, p, s2[p])
    ensures Mirrors(s3, moves)
  {
    hide StatesOf, Verdicts;
    forall p: nat | p < |s3|
      ensures if p in StatesOf(moves) then LeftAs(s3[p], StatesOf(moves)[p]) else s3[p].Pending? || s3[p].Superseded?
    {
      MirrorAt(s0, moves0, p);
    }
  }

  lemma MirrorAt(states: seq<State>, moves: seq<Move>, p: nat)
    requires Mirrors(states, moves) && p < |states|
    ensures if p in StatesOf(moves) then LeftAs(states[p], StatesOf(moves)[p]) else states[p].Pending? || states[p].Superseded?
  {
  }

  /** One row given a state, others possibly superseded meanwhile. */
  lemma OneMirrors(s0: seq<State>, s1: seq<State>, moves0: seq<Move>, moves: seq<Move>, p: nat, state: State)
    requires |s0| == |s1| && p < |s0| && Mirrors(s0, moves0) && StatesOf(moves) == StatesOf(moves0)[p := state] && s1[p] == state
    requires forall q: nat | q < |s0| && q != p :: s1[q] == s0[q] || (s0[q].Pending? && s1[q].Superseded?)
    ensures Mirrors(s1, moves)
  {
    hide StatesOf;
    forall q: nat | q < |s1|
      ensures if q in StatesOf(moves) then LeftAs(s1[q], StatesOf(moves)[q]) else s1[q].Pending? || s1[q].Superseded?
    {
      MirrorAt(s0, moves0, q);
    }
  }

  lemma MembersAreFirsts(pool: seq<nat>)
    ensures Members(pool) == Firsts(pool, |pool|)
  {
  }

  lemma EmptyLaunch(pool: seq<nat>, handled: set<nat>, outcomes: map<nat, Outcome>)
    ensures handled + Firsts(pool, 0) == handled && outcomes.Keys + Firsts(pool, 0) == outcomes.Keys
  {
  }

  /** What an ended pool leaves behind. */
  lemma TiedOutcome(plan: Plan, pool: seq<nat>, before: Trace, t: Trace, s: Pool)
    requires Tied(plan, pool, before, t, s) && s.active == []
    ensures s.next <= |pool| && Legal(plan, t) && !WriterOpen(t) && ActiveOf(t) == []
    ensures HandledOf(t) == HandledOf(before) + Firsts(pool, s.next)
    ensures RefusedOf(t) == RefusedOf(before) && OutcomesOf(t) == OutcomesOf(before) + s.results
    ensures s.results.Keys == Firsts(pool, s.next)
  {
    hide Firsts;
    forall p: nat
      ensures p in Firsts(pool, s.next) <==> p in s.results
    {
      assert !Runs(s.active, p);
    }
  }

  /** Closing, waiting, reopening and recording settles every row again. */
  lemma PoolSettles(pool: seq<nat>, s: Pool, before: Trace, t: Trace, s0: seq<State>, s1: seq<State>, s2: seq<State>, s3: seq<State>)
    requires s.next <= |pool| && s.results.Keys == Firsts(pool, s.next)
    requires |s0| == |s1| == |s2| == |s3|
    requires Settled(s0, OutcomesOf(before), RefusedOf(before))
    requires OutcomesOf(t) == OutcomesOf(before) + s.results && RefusedOf(t) == RefusedOf(before)
    requires forall i | 0 <= i < |pool| :: pool[i] < |s0| && pool[i] !in OutcomesOf(before) && pool[i] !in RefusedOf(before)
    requires forall p: nat | p < |s0| :: s1[p] == if p in pool then Running else s0[p]
    requires forall p: nat | p < |s0| :: s2[p] == s1[p] || (s1[p].Pending? && s2[p].Superseded?)
    requires forall p: nat | p < |s0| :: s3[p] == Verdict(pool, s.results, p, s2[p])
    requires forall i, j | 0 <= i < j < |pool| :: pool[i] < pool[j]
    ensures Settled(s3, OutcomesOf(t), RefusedOf(t))
    ensures forall i | s.next <= i < |pool| :: s3[pool[i]] == Pending
    ensures OutcomesOf(t).Keys == OutcomesOf(before).Keys + Firsts(pool, s.next)
  {
    forall p: nat | p < |s3|
      ensures RowSettled(OutcomesOf(t), RefusedOf(t), p, s3[p])
    {
      assert RowSettled(OutcomesOf(before), RefusedOf(before), p, s0[p]);
      if p !in pool {
        assert p !in s.results.Keys;
      }
    }
    forall i | s.next <= i < |pool|
      ensures pool[i] !in s.results.Keys
    {
    }
  }

  /** The set is exactly the rows before `n`. */
  ghost predicate UpTo(rows: set<nat>, n: nat) {
    forall q: nat :: q in rows <==> q < n
  }

  lemma RefuseSettles(states: seq<State>, outcomes: map<nat, Outcome>, refused: set<nat>, p: nat)
    requires Settled(states, outcomes, refused) && p < |states| && p !in outcomes
    ensures Settled(states[p := Failed], outcomes, refused + {p})
  {
    var after := states[p := Failed];
    forall q: nat | q < |after|
      ensures RowSettled(outcomes, refused + {p}, q, after[q])
    {
      assert RowSettled(outcomes, refused, q, states[q]);
    }
  }

  /** One row marked, others possibly superseded meanwhile, then its verdict recorded. */
  lemma LeasedSettles(s0: seq<State>, s1: seq<State>, s2: seq<State>, outcomes: map<nat, Outcome>, refused: set<nat>, p: nat, outcome: Outcome)
    requires p < |s0| == |s1| == |s2| && Settled(s0, outcomes, refused)
    requires s1 == s0[p := s1[p]]
    requires forall q: nat | q < |s2| :: s2[q] == s1[q] || (s1[q].Pending? && s2[q].Superseded?)
    ensures Settled(s2[p := StateOf(outcome)], outcomes[p := outcome], refused)
  {
    var s3 := s2[p := StateOf(outcome)];
    forall q: nat | q < |s3|
      ensures RowSettled(outcomes[p := outcome], refused, q, s3[q])
    {
      assert RowSettled(outcomes, refused, q, s0[q]);
    }
  }

  /** Both views of the rows after a lease: by outcome and by move. */
  lemma LeaseRecords(s0: seq<State>, s2: seq<State>, moves0: seq<Move>, moves: seq<Move>, outcomes: map<nat, Outcome>, refused: set<nat>, p: nat, outcome: Outcome)
    requires p < |s0| == |s2| && Settled(s0, outcomes, refused) && Mirrors(s0, moves0)
    requires StatesOf(moves) == StatesOf(moves0)[p := StateOf(outcome)]
    requires var s1 := s0[p := Running]; forall q: nat | q < |s2| :: s2[q] == s1[q] || (s1[q].Pending? && s2[q].Superseded?)
    ensures var s3 := s2[p := StateOf(outcome)]; Settled(s3, outcomes[p := outcome], refused) && Mirrors(s3, moves)
  {
    hide Settled, Mirrors, StatesOf;
    LeasedSettles(s0, s0[p := Running], s2, outcomes, refused, p, outcome);
    OneMirrors(s0, s2[p := StateOf(outcome)], moves0, moves, p, StateOf(outcome));
  }

  /** The job may be leased after the trace. */
  ghost predicate Leasable(plan: Plan, before: Trace, job: Job) {
    && Legal(plan, before) && WriterOpen(before) && ActiveOf(before) == [] && UpTo(HandledOf(before), job.pos)
    && job.mode.Leased? && job.pos < |plan.rows| && plan.rows[job.pos].mem <= RAM_BUDGET
    && ReleasesWriter(plan.rows[job.pos].kind) && plan.rows[job.pos].readable
    && GuardClear(before) && (Archive(plan.rows[job.pos].kind) ==> DiskClear(before))
    && job.at <= plan.deadline && job.due >= job.at + Limit(plan.rows[job.pos])
  }

  lemma LeasableAt(plan: Plan, before: Trace, job: Job)
    requires Leasable(plan, before, job)
    ensures job.pos !in HandledOf(before)
  {
  }

  lemma LeasedStarts(plan: Plan, before: Trace, job: Job)
    requires Leasable(plan, before, job)
    ensures var t := before + [Closed] + [Started(job)];
      && Legal(plan, t) && !WriterOpen(t) && ActiveOf(t) == [job] && UpTo(HandledOf(t), job.pos + 1) && HandledOf(t) == HandledOf(before) + {job.pos}
      && RefusedOf(t) == RefusedOf(before) && OutcomesOf(t) == OutcomesOf(before)
  {
    var closed := before + [Closed];
    LegalExtends(plan, before, Closed);
    Extend(before, Closed);
    assert MayStart(plan, closed, job);
    LegalExtends(plan, closed, Started(job));
    Extend(closed, Started(job));
  }

  lemma LeasedEnds(plan: Plan, before: Trace, job: Job, outcome: Outcome, at: int)
    requires Leasable(plan, before, job)
    requires outcome.Exited? || (outcome.TimedOut? && at >= job.due)
    ensures var t := before + [Closed] + [Started(job)] + [Finished(job.pos, outcome, at)];
      && Legal(plan, t) && !WriterOpen(t) && ActiveOf(t) == []
      && var u := t + [Opened];
         && WriterOpen(u) && ActiveOf(u) == [] && UpTo(HandledOf(u), job.pos + 1) && HandledOf(u) == HandledOf(before) + {job.pos}
         && RefusedOf(u) == RefusedOf(before) && OutcomesOf(u) == OutcomesOf(before)[job.pos := outcome]
  {
    hide MayStart;
    LeasedStarts(plan, before, job);
    var t := before + [Closed] + [Started(job)];
    var e := Finished(job.pos, outcome, at);
    ReapAllowed(plan, t, 0, outcome, at);
    LegalExtends(plan, t, e);
    Extend(t, e);
    Extend(t + [e], Opened);
  }

  lemma InProcessRuns(plan: Plan, before: Trace, job: Job, outcome: Outcome)
    requires Legal(plan, before) && WriterOpen(before) && ActiveOf(before) == [] && UpTo(HandledOf(before), job.pos)
    requires job.mode.InProcess? && job.pos < |plan.rows| && plan.rows[job.pos].mem <= RAM_BUDGET && job.at <= plan.deadline
    requires !ReleasesWriter(plan.rows[job.pos].kind) && !plan.rows[job.pos].kind.Unlisted? && plan.rows[job.pos].readable
    requires !outcome.TimedOut? && GuardClear(before)
    ensures var t := before + [Started(job)] + [Finished(job.pos, outcome, job.at)];
      && Legal(plan, t) && WriterOpen(t) && ActiveOf(t) == [] && UpTo(HandledOf(t), job.pos + 1)
      && RefusedOf(t) == RefusedOf(before) && OutcomesOf(t) == OutcomesOf(before)[job.pos := outcome]
  {
    assert MayStart(plan, before, job);
    var t := before + [Started(job)];
    LegalExtends(plan, before, Started(job));
    Extend(before, Started(job));
    ReapAllowed(plan, t, 0, outcome, job.at);
    LegalExtends(plan, t, Finished(job.pos, outcome, job.at));
    Extend(t, Finished(job.pos, outcome, job.at));
  }

  /** The first row from `i` that declares more than the budget, or `j`. */
  function FirstOversized(rows: seq<Row>, i: nat, j: nat): (o: nat)
    requires i <= j <= |rows|
    ensures i <= o <= j && (o < j ==> rows[o].mem > RAM_BUDGET) && forall q | i <= q < o :: rows[q].mem <= RAM_BUDGET
    decreases j - i
  {
    if i == j || rows[i].mem > RAM_BUDGET then i else FirstOversized(rows, i + 1, j)
  }

  lemma FirstsHas(pool: seq<nat>, n: nat, q: nat)
    requires n <= |pool|
    ensures q in Firsts(pool, n) <==> q in pool[..n]
  {
  }

  lemma RunIsPoolable(plan: Plan, handled: set<nat>, a: nat, o: nat, b: nat)
    requires a <= o < b <= |plan.rows| && forall q: nat | a <= q < b :: ParallelSafe(plan.rows[q].kind)
    requires forall q: nat :: q in handled <==> q < a || q == o
    ensures var run := Range(a, o) + Range(o + 1, b);
      Poolable(plan, handled, run) && UpTo(handled + Firsts(run, |run|), b)
  {
    var run := Range(a, o) + Range(o + 1, b);
    forall i, q: nat | 0 <= i < |run| && q < run[i] && q !in handled
      ensures q in Firsts(run, i)
    {
      var at := if q < o then q - a else q - a - 1;
      assert run[at] == q;
    }
    var all := handled + Firsts(run, |run|);
    forall q: nat
      ensures q in all <==> q < b
    {
      FirstsHas(run, |run|, q);
      assert run[..|run|] == run;
      if a <= q < b && q != o {
        assert run[if q < o then q - a else q - a - 1] == q;
      }
    }
  }

  lemma WholeIsPoolable(plan: Plan, handled: set<nat>, a: nat, b: nat)
    requires a <= b <= |plan.rows| && forall q: nat | a <= q < b :: ParallelSafe(plan.rows[q].kind)
    requires UpTo(handled, a)
    ensures Poolable(plan, handled, Range(a, b)) && UpTo(handled + Firsts(Range(a, b), b - a), b)
  {
    var run := Range(a, b);
    forall i, q: nat | 0 <= i < |run| && q < run[i] && q !in handled
      ensures q in Firsts(run, i)
    {
      assert run[q - a] == q;
    }
    var all := handled + Firsts(run, b - a);
    forall q: nat
      ensures q in all <==> q < b
    {
      FirstsHas(run, b - a, q);
      assert run[..b - a] == run;
      if a <= q < b {
        assert run[q - a] == q;
      }
    }
  }

  /** Reading the guard or the disk changes nothing else. */
  lemma ReadKeepsPlace(plan: Plan, t: Trace, e: Event)
    requires Legal(plan, t) && (e.Probed? || e.DiskRead?)
    ensures var u := t + [e];
      && Legal(plan, u) && WriterOpen(u) == WriterOpen(t) && ActiveOf(u) == ActiveOf(t) && HandledOf(u) == HandledOf(t)
      && RefusedOf(u) == RefusedOf(t) && OutcomesOf(u) == OutcomesOf(t)
      && GuardClear(u) == (if e.Probed? then !e.tripped else GuardClear(t))
      && DiskClear(u) == (if e.DiskRead? then !e.full else DiskClear(t))
  {
    Extend(t, e);
    LegalExtends(plan, t, e);
  }

  /** What a row's state says of its job: done when it exited with 0 or returned, failed when it was
      refused or ended otherwise. */
  lemma SettledAreJudged(plan: Plan, t: Trace, states: seq<State>)
    requires Legal(plan, t) && Settled(states, OutcomesOf(t), RefusedOf(t))
    ensures forall p: nat | p < |states| :: states[p] == Done <==> p in OutcomesOf(t) && OutcomesOf(t)[p] == Exited(0)
    ensures forall p: nat | p < |states| ::
      states[p] == Failed <==> p in RefusedOf(t) || (p in OutcomesOf(t) && OutcomesOf(t)[p] != Exited(0))
  {
    forall p: nat | p < |states|
      ensures states[p] == Done <==> p in OutcomesOf(t) && OutcomesOf(t)[p] == Exited(0)
      ensures states[p] == Failed <==> p in RefusedOf(t) || (p in OutcomesOf(t) && OutcomesOf(t)[p] != Exited(0))
    {
      assert RowSettled(OutcomesOf(t), RefusedOf(t), p, states[p]);
      if p in RefusedOf(t) && p in OutcomesOf(t) {
        RefusedHasNoOutcome(plan, t, p);
      }
    }
  }

  lemma NoneRunning(states: seq<State>, outcomes: map<nat, Outcome>, refused: set<nat>)
    requires Settled(states, outcomes, refused)
    ensures forall p: nat | p < |states| :: !states[p].Running?
  {
    forall p: nat | p < |states|
      ensures !states[p].Running?
    {
      assert RowSettled(outcomes, refused, p, states[p]);
    }
  }
}
