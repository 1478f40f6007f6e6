/** Enqueue, supersede and the drain lock, as steps over one shared jobs table.
    Only rows created by the enqueue command are modelled. */
module QueueProtocol {
  import opened Options
  import opened QueueTypes

  /** A row; its id is its position. */
  datatype Job = Job(kind: Kind, params: string, state: State)

  /** The JSON reader: the canonical text of a valid document, and whether it is an object. */
  datatype Json = Json(canonical: string -> Option<string>, isObject: string -> bool)

  datatype Key = Canonical(text: string) | Raw(text: string)

  function KeyOf(json: Json, params: string): Key {
    var c := json.canonical(params);
    if c.Some? then Canonical(c.value) else Raw(params)
  }

  /** Compare canonically; fall back to the texts when either does not parse. */
  predicate SameParams(json: Json, left: string, right: string) {
    var l, r := json.canonical(left), json.canonical(right);
    if l.Some? && r.Some? then l.value == r.value else left == right
  }

  lemma SameParamsIsKeyEquality(json: Json, left: string, right: string)
    ensures SameParams(json, left, right) <==> KeyOf(json, left) == KeyOf(json, right)
  {
  }

  predicate Live(job: Job) {
    job.state.Pending? || job.state.Running?
  }

  predicate Matches(json: Json, job: Job, kind: Kind, params: string) {
    job.kind == kind && SameParams(json, job.params, params)
  }

  /** Rows an enqueue of this kind replaces. */
  predicate Stale(job: Job, kind: Kind, params: string) {
    job.kind == kind && job.params != params && (job.state.Queued? || job.state.Pending?)
  }

  predicate Accepted(json: Json, kind: Kind, params: string) {
    !kind.Unlisted? && json.canonical(params).Some? && json.isObject(params)
  }

  predicate HasDone(json: Json, rows: seq<Job>, kind: Kind, params: string) {
    exists i | 0 <= i < |rows| :: Matches(json, rows[i], kind, params) && rows[i].state.Done?
  }

  predicate HasLive(json: Json, rows: seq<Job>, kind: Kind, params: string) {
    exists i | 0 <= i < |rows| :: Matches(json, rows[i], kind, params) && Live(rows[i])
  }

  function DropPending(json: Json, rows: seq<Job>, kind: Kind, params: string): (r: seq<Job>)
    ensures |r| == |rows|
  {
    seq(|rows|, i requires 0 <= i < |rows| =>
      if Matches(json, rows[i], kind, params) && rows[i].state.Pending? then rows[i].(state := Superseded) else rows[i])
  }

  function DropStale(rows: seq<Job>, kind: Kind, params: string): (r: seq<Job>)
    ensures |r| == |rows|
  {
    seq(|rows|, i requires 0 <= i < |rows| =>
      if Stale(rows[i], kind, params) then rows[i].(state := Superseded) else rows[i])
  }

  /** The table after an enqueue, and whether a row was added. */
  function Enqueue(json: Json, rows: seq<Job>, kind: Kind, params: string, once: bool): (seq<Job>, bool) {
    if !Accepted(json, kind, params) then (rows, false)
    else if once && HasDone(json, rows, kind, params) then (DropPending(json, rows, kind, params), false)
    else if HasLive(json, rows, kind, params) then (rows, false)
    else
      var kept := if Supersedes(kind) then DropStale(rows, kind, params) else rows;
      (kept + [Job(kind, params, Pending)], true)
  }

  // ----- the table, updated in place -----

  class JobTable {
    var rows: seq<Job>

    constructor ()
      ensures rows == []
    {
      rows := [];
    }

    /** Whether a matching row is done, and whether one is live. */
    method Scan(json: Json, kind: Kind, params: string) returns (done: bool, live: bool)
      ensures done == HasDone(json, rows, kind, params) && live == HasLive(json, rows, kind, params)
    {
      done, live := false, false;
      var i := 0;
      while i < |rows|
        invariant 0 <= i <= |rows|
        invariant done <==> exists k | 0 <= k < i :: Matches(json, rows[k], kind, params) && rows[k].state.Done?
        invariant live <==> exists k | 0 <= k < i :: Matches(json, rows[k], kind, params) && Live(rows[k])
      {
        if Matches(json, rows[i], kind, params) {
          done := done || rows[i].state.Done?;
          live := live || Live(rows[i]);
        }
        i := i + 1;
      }
    }

    method SupersedePending(json: Json, kind: Kind, params: string)
      modifies this
      ensures rows == DropPending(json, old(rows), kind, params)
    {
      var i := 0;
      while i < |rows|
        invariant 0 <= i <= |rows| == |old(rows)|
        invariant forall k | 0 <= k < i :: rows[k] == DropPending(json, old(rows), kind, params)[k]
        invariant forall k | i <= k < |rows| :: rows[k] == old(rows)[k]
      {
        if Matches(json, rows[i], kind, params) && rows[i].state.Pending? {
          rows := rows[i := rows[i].(state := Superseded)];
        }
        i := i + 1;
      }
    }

    method SupersedeStale(kind: Kind, params: string)
      modifies this
      ensures rows == DropStale(old(rows), kind, params)
    {
      var i := 0;
      while i < |rows|
        invariant 0 <= i <= |rows| == |old(rows)|
        invariant forall k | 0 <= k < i :: rows[k] == DropStale(old(rows), kind, params)[k]
        invariant forall k | i <= k < |rows| :: rows[k] == old(rows)[k]
      {
        if Stale(rows[i], kind, params) {
          rows := rows[i := rows[i].(state := Superseded)];
        }
        i := i + 1;
      }
    }

    /** Scan for a duplicate, mark what it replaces, insert; a dry run changes nothing. */
    method Add(json: Json, kind: Kind, params: string, once: bool, dryRun: bool) returns (added: bool)
      modifies this
      ensures !dryRun ==> (rows, added) == Enqueue(json, old(rows), kind, params, once)
      ensures dryRun ==> rows == old(rows) && !added
    {
      hide HasDone, HasLive, DropPending, DropStale;
      if !Accepted(json, kind, params) {
        return false;
      }
      var done, live := Scan(json, kind, params);
      if once && done {
        if !dryRun {
          SupersedePending(json, kind, params);
        }
        return false;
      }
      if live || dryRun {
        return false;
      }
      if Supersedes(kind) {
        SupersedeStale(kind, params);
      }
      rows := rows + [Job(kind, params, Pending)];
      added := true;
    }
  }

  // ----- no two live rows of one kind with equal parameters -----

  ghost predicate Clash(json: Json, a: Job, b: Job) {
    a.kind == b.kind && KeyOf(json, a.params) == KeyOf(json, b.params)
  }

  ghost predicate Unique(json: Json, rows: seq<Job>) {
    forall i, j | 0 <= i < j < |rows| :: Live(rows[i]) && Live(rows[j]) ==> !Clash(json, rows[i], rows[j])
  }

  /** Same rows with fewer of them live. */
  ghost predicate Retires(before: seq<Job>, after: seq<Job>) {
    |after| == |before| && forall i | 0 <= i < |after| ::
      after[i].kind == before[i].kind && after[i].params == before[i].params && (Live(after[i]) ==> Live(before[i]))
  }

  lemma RetiringKeepsUnique(json: Json, before: seq<Job>, after: seq<Job>)
    requires Unique(json, before) && Retires(before, after)
    ensures Unique(json, after)
  {
  }

  lemma EnqueueKeepsUnique(json: Json, rows: seq<Job>, kind: Kind, params: string, once: bool)
    requires Unique(json, rows)
    ensures Unique(json, Enqueue(json, rows, kind, params, once).0)
  {
    var r := Enqueue(json, rows, kind, params, once);
    if r.1 {
      var kept := if Supersedes(kind) then DropStale(rows, kind, params) else rows;
      RetiringKeepsUnique(json, rows, kept);
      forall i | 0 <= i < |kept|
        ensures Live(kept[i]) ==> !Clash(json, kept[i], Job(kind, params, Pending))
      {
        SameParamsIsKeyEquality(json, rows[i].params, params);
      }
    } else if once && HasDone(json, rows, kind, params) && Accepted(json, kind, params) {
      RetiringKeepsUnique(json, rows, r.0);
    }
  }

  /** What one enqueue may do to a row: nothing, or retire a waiting row of its own kind. */
  predicate RetiredOnly(before: Job, after: Job, kind: Kind) {
    after == before || (before.kind == kind && (before.state.Queued? || before.state.Pending?) && after == before.(state := Superseded))
  }

  /** An accepted enqueue is served: a matching row is live afterwards, unless `once` found the
      work done, and then no matching row waits. Nothing else changes. */
  lemma EnqueueServes(json: Json, rows: seq<Job>, kind: Kind, params: string, once: bool)
    requires Accepted(json, kind, params)
    ensures var r := Enqueue(json, rows, kind, params, once);
      && |rows| <= |r.0| && (r.1 <==> |r.0| == |rows| + 1) && (r.1 ==> r.0[|rows|] == Job(kind, params, Pending))
      && (forall i | 0 <= i < |rows| :: RetiredOnly(rows[i], r.0[i], kind))
      && (if once && HasDone(json, rows, kind, params)
          then forall i | 0 <= i < |rows| :: Matches(json, rows[i], kind, params) ==> !r.0[i].state.Pending?
          else HasLive(json, r.0, kind, params))
  {
    var r := Enqueue(json, rows, kind, params, once);
    if r.1 {
      assert Matches(json, r.0[|rows|], kind, params) && Live(r.0[|rows|]);
    }
  }

  /** A row of the kind with canonically equal parameters, in one of the states. */
  ghost predicate HasEqual(json: Json, rows: seq<Job>, kind: Kind, params: string, states: set<State>) {
    exists i | 0 <= i < |rows| :: rows[i].kind == kind && KeyOf(json, rows[i].params) == KeyOf(json, params) && rows[i].state in states
  }

  /** Exactly what an enqueue does, row by row. Refused, or when an equal row waits or runs, nothing;
      when `once` finds an equal row done, it retires the equal pending rows; otherwise it adds a
      pending row and, for a superseding kind, retires the waiting rows of the kind whose parameters
      read differently. */
  lemma {:induction false} EnqueueIs(json: Json, rows: seq<Job>, kind: Kind, params: string, once: bool)
    ensures var (after, added) := Enqueue(json, rows, kind, params, once);
      var accepted := !kind.Unlisted? && json.canonical(params).Some? && json.isObject(params);
      var done := accepted && once && HasEqual(json, rows, kind, params, {Done});
      var live := HasEqual(json, rows, kind, params, {Pending, Running});
      && (added <==> accepted && !done && !live)
      && |after| == |rows| + (if added then 1 else 0) && (added ==> after[|rows|] == Job(kind, params, Pending))
      && forall i | 0 <= i < |rows| :: after[i] ==
           if (done && rows[i].kind == kind && KeyOf(json, rows[i].params) == KeyOf(json, params) && rows[i].state == Pending)
              || (added && kind == Intraday && rows[i].kind == kind && rows[i].params != params && rows[i].state in {Queued, Pending})
           then rows[i].(state := Superseded) else rows[i]
  {
    SameIsKey(json, rows, kind, params);
    hide SameParams, KeyOf, HasEqual, HasDone, HasLive;
  }

  lemma {:induction false} SameIsKey(json: Json, rows: seq<Job>, kind: Kind, params: string)
    ensures forall i | 0 <= i < |rows| :: SameParams(json, rows[i].params, params) <==> KeyOf(json, rows[i].params) == KeyOf(json, params)
    ensures HasDone(json, rows, kind, params) <==> HasEqual(json, rows, kind, params, {Done})
    ensures HasLive(json, rows, kind, params) <==> HasEqual(json, rows, kind, params, {Pending, Running})
  {
    forall i | 0 <= i < |rows|
      ensures SameParams(json, rows[i].params, params) <==> KeyOf(json, rows[i].params) == KeyOf(json, params)
    {
      SameParamsIsKeyEquality(json, rows[i].params, params);
    }
    hide SameParams, KeyOf;
  }

  /** An enqueue that adds a row of a superseding kind leaves it the only pending one of its kind. */
  lemma SupersedeLeavesOnePending(json: Json, rows: seq<Job>, kind: Kind, params: string, once: bool)
    requires Supersedes(kind) && Enqueue(json, rows, kind, params, once).1
    ensures var r := Enqueue(json, rows, kind, params, once).0;
      && r[|r| - 1] == Job(kind, params, Pending)
      && forall i | 0 <= i < |r| - 1 :: r[i].kind == kind ==> !r[i].state.Pending?
  {
    var r := Enqueue(json, rows, kind, params, once).0;
    forall i | 0 <= i < |rows| && rows[i].kind == kind
      ensures !r[i].state.Pending?
    {
      assert !(Matches(json, rows[i], kind, params) && Live(rows[i]));
      if rows[i].params == params {
        assert SameParams(json, rows[i].params, params);
      }
    }
  }

  // ----- the drains -----

  /** A drain process that holds the lock. `selected` is the snapshot it works through. */
  datatype Drain = Drain(ready: bool, selected: set<nat>, handled: set<nat>, owned: set<nat>)

  datatype World = World(rows: seq<Job>, lock: Option<nat>, writer: Option<nat>, drains: map<nat, Drain>)

  datatype Step =
    | EnqueueStep(kind: Kind, params: string, once: bool)
    | SupersedeStaleStep(kind: Kind, ids: set<nat>)
    | Launch(drain: nat)
    | Open(drain: nat, selected: set<nat>)
    | Start(drain: nat, ids: set<nat>)
    | Refuse(drain: nat, id: nat)
    | Release(drain: nat)
    | Reacquire(drain: nat)
    | Settle(drain: nat, id: nat, outcome: State)
    | Exit(drain: nat)
    | Crash(drain: nat)

  function Reclaimed(rows: seq<Job>): (r: seq<Job>)
    ensures |r| == |rows|
  {
    seq(|rows|, i requires 0 <= i < |rows| => if rows[i].state.Running? then rows[i].(state := Pending) else rows[i])
  }

  function WithState(rows: seq<Job>, ids: set<nat>, state: State): (r: seq<Job>)
    ensures |r| == |rows|
  {
    seq(|rows|, i requires 0 <= i < |rows| => if i in ids then rows[i].(state := state) else rows[i])
  }

  predicate AllPending(rows: seq<Job>, ids: set<nat>) {
    forall id | id in ids :: id < |rows| && rows[id].state.Pending?
  }

  predicate Working(w: World, d: nat) {
    d in w.drains && w.drains[d].ready && w.writer == Some(d)
  }

  predicate Enabled(w: World, step: Step) {
    match step
    case EnqueueStep(_, _, _) => w.writer.None?
    case SupersedeStaleStep(kind, ids) =>
      w.writer.None? && forall id | id in ids :: id < |w.rows| && w.rows[id].kind == kind && (w.rows[id].state.Queued? || w.rows[id].state.Pending?)
    case Launch(d) => d !in w.drains
    case Open(d, selected) =>
      d in w.drains && !w.drains[d].ready && w.writer.None? && AllPending(Reclaimed(w.rows), selected)
    case Start(d, ids) => Working(w, d) && ids <= w.drains[d].selected - w.drains[d].handled
    case Refuse(d, id) => Working(w, d) && id in w.drains[d].selected - w.drains[d].handled
    case Release(d) => Working(w, d)
    case Reacquire(d) => d in w.drains && w.drains[d].ready && w.writer.None?
    case Settle(d, id, outcome) =>
      Working(w, d) && id in w.drains[d].owned && (outcome.Done? || outcome.Failed? || outcome.Pending?)
    case Exit(d) => Working(w, d) && w.drains[d].owned == {}
    case Crash(d) => d in w.drains
  }

  function Gone(w: World, d: nat): World {
    w.(lock := None, writer := if w.writer == Some(d) then None else w.writer, drains := w.drains - {d})
  }

  function Next(json: Json, w: World, step: Step): World
    requires Enabled(w, step)
  {
    match step
    case EnqueueStep(kind, params, once) => w.(rows := Enqueue(json, w.rows, kind, params, once).0)
    case SupersedeStaleStep(kind, ids) => w.(rows := WithState(w.rows, ids, Superseded))
    case Launch(d) =>
      // The lock is taken before the writer; a drain that cannot get it exits at once.
      if w.lock.None? then w.(lock := Some(d), drains := w.drains[d := Drain(false, {}, {}, {})]) else w
    case Open(d, selected) =>
      w.(rows := Reclaimed(w.rows), writer := Some(d), drains := w.drains[d := Drain(true, selected, {}, {})])
    case Start(d, ids) =>
      var drain := w.drains[d];
      w.(rows := WithState(w.rows, ids, Running),
         drains := w.drains[d := drain.(handled := drain.handled + ids, owned := drain.owned + ids)])
    case Refuse(d, id) =>
      w.(rows := WithState(w.rows, {id}, Failed),
         drains := w.drains[d := w.drains[d].(handled := w.drains[d].handled + {id})])
    case Release(d) => w.(writer := None)
    case Reacquire(d) => w.(writer := Some(d))
    case Settle(d, id, outcome) =>
      w.(rows := WithState(w.rows, {id}, outcome),
         drains := w.drains[d := w.drains[d].(owned := w.drains[d].owned - {id})])
    case Exit(d) => Gone(w, d)
    case Crash(d) => Gone(w, d)
  }

  ghost predicate RunsFrom(json: Json, w: World, steps: seq<Step>)
    decreases |steps|
  {
    steps == [] || (Enabled(w, steps[0]) && RunsFrom(json, Next(json, w, steps[0]), steps[1..]))
  }

  ghost function After(json: Json, w: World, steps: seq<Step>): World
    requires RunsFrom(json, w, steps)
    decreases |steps|
  {
    if steps == [] then w else After(json, Next(json, w, steps[0]), steps[1..])
  }

  const EMPTY := World([], None, None, map[])

  // ----- ownership -----

  /** Only the lock holder is a live drain; it owns exactly the running rows once it has
      reclaimed, and before that it owns none. */
  ghost predicate Owned(w: World) {
    && (forall d | d in w.drains :: w.lock == Some(d))
    && (w.writer.Some? ==> w.writer.value in w.drains && w.drains[w.writer.value].ready)
    && (forall d | d in w.drains && !w.drains[d].ready :: w.drains[d].owned == {} && w.drains[d].selected == {})
    && (forall d, id | d in w.drains && id in w.drains[d].selected :: id < |w.rows|)
    && (forall d, id | d in w.drains && id in w.drains[d].owned :: id in w.drains[d].handled && id in w.drains[d].selected)
    && (forall d, id | d in w.drains && w.drains[d].ready && 0 <= id < |w.rows| :: id in w.drains[d].owned <==> w.rows[id].state.Running?)
  }

  lemma EnqueueRunning(json: Json, rows: seq<Job>, kind: Kind, params: string, once: bool)
    ensures var r := Enqueue(json, rows, kind, params, once).0;
      |r| >= |rows| && forall i | 0 <= i < |r| :: r[i].state.Running? <==> i < |rows| && rows[i].state.Running?
  {
  }

  lemma StepKeepsOwned(json: Json, w: World, step: Step)
    requires Owned(w) && Enabled(w, step)
    ensures Owned(Next(json, w, step))
  {
    hide Enqueue;
    match step
    case EnqueueStep(kind, params, once) => EnqueueRunning(json, w.rows, kind, params, once);
    case _ =>
  }

  lemma {:induction false} RunKeepsOwned(json: Json, w: World, steps: seq<Step>)
    requires Owned(w) && RunsFrom(json, w, steps)
    ensures Owned(After(json, w, steps))
    decreases |steps|
  {
    hide Owned, Next, Enabled;
    if steps != [] {
      StepKeepsOwned(json, w, steps[0]);
      RunKeepsOwned(json, Next(json, w, steps[0]), steps[1..]);
    }
  }

  /** In every reachable world: an opened drain owns exactly the running rows, no row has two
      live owners, and a drain about to reclaim takes rows that no live drain owns. */
  lemma ReclaimIsSafe(json: Json, steps: seq<Step>)
    requires RunsFrom(json, EMPTY, steps)
    ensures var w := After(json, EMPTY, steps);
      && (forall d, id | d in w.drains && w.drains[d].ready && 0 <= id < |w.rows| :: id in w.drains[d].owned <==> w.rows[id].state.Running?)
      && (forall a, b, id | a in w.drains && b in w.drains && a != b :: !(id in w.drains[a].owned && id in w.drains[b].owned))
      && (forall d, selected | Enabled(w, Open(d, selected)) :: forall other, id | other in w.drains :: id !in w.drains[other].owned)
  {
    RunKeepsOwned(json, EMPTY, steps);
    hide RunsFrom, After;
  }

  // ----- uniqueness over runs -----

  /** Some row about to start is not live and clashes with a live or starting row. */
  ghost predicate Revives(json: Json, rows: seq<Job>, ids: set<nat>) {
    exists i, j | 0 <= i < |rows| && 0 <= j < |rows| && i != j ::
      i in ids && !Live(rows[i]) && (j in ids || Live(rows[j])) && Clash(json, rows[i], rows[j])
  }

  /** Exactly when starting rows breaks uniqueness. */
  lemma StartKeepsUniqueIff(json: Json, rows: seq<Job>, ids: set<nat>)
    requires Unique(json, rows)
    ensures Unique(json, WithState(rows, ids, Running)) <==> !Revives(json, rows, ids)
  {
    var after := WithState(rows, ids, Running);
    if Revives(json, rows, ids) {
      var i, j :| 0 <= i < |rows| && 0 <= j < |rows| && i != j && i in ids && !Live(rows[i])
        && (j in ids || Live(rows[j])) && Clash(json, rows[i], rows[j]);
      var a, b := if i < j then i else j, if i < j then j else i;
      assert Live(after[a]) && Live(after[b]) && Clash(json, after[a], after[b]);
    }
  }

  /** A row a drain selected and has not handled is still pending, or was superseded meanwhile. */
  ghost predicate Waiting(w: World) {
    forall d, id | d in w.drains && id in w.drains[d].selected && id !in w.drains[d].handled ::
      id < |w.rows| && (w.rows[id].state.Pending? || w.rows[id].state.Superseded?)
  }

  /** An enqueue leaves a waiting row pending or supersedes it. */
  lemma EnqueueKeepsWaiting(json: Json, rows: seq<Job>, kind: Kind, params: string, once: bool, i: nat)
    requires i < |rows| && (rows[i].state.Pending? || rows[i].state.Superseded?)
    ensures var r := Enqueue(json, rows, kind, params, once).0;
      i < |r| && (r[i].state.Pending? || r[i].state.Superseded?)
  {
  }

  lemma RowsKeepWaiting(w: World, rows: seq<Job>)
    requires Waiting(w)
    requires forall i: nat | i < |w.rows| && (w.rows[i].state.Pending? || w.rows[i].state.Superseded?) ::
      i < |rows| && (rows[i].state.Pending? || rows[i].state.Superseded?)
    ensures Waiting(w.(rows := rows))
  {
  }

  lemma StepKeepsWaiting(json: Json, w: World, step: Step)
    requires Owned(w) && Waiting(w) && Enabled(w, step)
    ensures Waiting(Next(json, w, step))
  {
    hide Enqueue;
    match step
    case EnqueueStep(kind, params, once) =>
      hide Waiting;
      var rows := Enqueue(json, w.rows, kind, params, once).0;
      forall i: nat | i < |w.rows| && (w.rows[i].state.Pending? || w.rows[i].state.Superseded?)
        ensures i < |rows| && (rows[i].state.Pending? || rows[i].state.Superseded?)
      {
        EnqueueKeepsWaiting(json, w.rows, kind, params, once, i);
      }
      RowsKeepWaiting(w, rows);
    case _ =>
  }

  /** A drain starts the rows of its snapshot without looking at their state again: here one of
      them was superseded meanwhile and clashes with a live or starting row. */
  ghost predicate RevivingStep(json: Json, w: World, step: Step) {
    step.Start? && exists i, j | 0 <= i < |w.rows| && 0 <= j < |w.rows| && i != j ::
      i in step.ids && w.rows[i].state.Superseded? && (j in step.ids || Live(w.rows[j])) && Clash(json, w.rows[i], w.rows[j])
  }

  lemma WaitingAt(w: World, d: nat, id: nat)
    requires Waiting(w) && d in w.drains && id in w.drains[d].selected && id !in w.drains[d].handled
    ensures id < |w.rows| && (w.rows[id].state.Pending? || w.rows[id].state.Superseded?)
  {
  }

  /** Of the rows a drain may start, only the superseded ones are not live. */
  lemma RevivesSuperseded(json: Json, w: World, step: Step)
    requires Waiting(w) && Enabled(w, step) && step.Start?
    ensures Revives(json, w.rows, step.ids) <==> RevivingStep(json, w, step)
  {
    hide Clash;
    forall i: nat | i in step.ids
      ensures i < |w.rows| && (Live(w.rows[i]) <==> !w.rows[i].state.Superseded?)
    {
      WaitingAt(w, step.drain, i);
    }
  }

  /** A step breaks uniqueness exactly when it starts a superseded row beside a clashing live or
      starting one. */
  lemma StepKeepsUniqueIff(json: Json, w: World, step: Step)
    requires Owned(w) && Waiting(w) && Unique(json, w.rows) && Enabled(w, step)
    ensures Unique(json, Next(json, w, step).rows) <==> !RevivingStep(json, w, step)
  {
    hide Enqueue, Unique, Clash, Revives, RevivingStep, Waiting;
    match step
    case EnqueueStep(kind, params, once) =>
      EnqueueKeepsUnique(json, w.rows, kind, params, once);
      NotAStart(json, w, step);
    case Start(d, ids) =>
      StartKeepsUniqueIff(json, w.rows, ids);
      RevivesSuperseded(json, w, step);
    case _ =>
      RetiringKeepsUnique(json, w.rows, Next(json, w, step).rows);
      NotAStart(json, w, step);
  }

  lemma NotAStart(json: Json, w: World, step: Step)
    ensures !step.Start? ==> !RevivingStep(json, w, step)
  {
  }

  ghost predicate NeverRevives(json: Json, w: World, steps: seq<Step>)
    requires RunsFrom(json, w, steps)
    decreases |steps|
  {
    steps == [] || (!RevivingStep(json, w, steps[0]) && NeverRevives(json, Next(json, w, steps[0]), steps[1..]))
  }

  ghost predicate AlwaysUnique(json: Json, w: World, steps: seq<Step>)
    requires RunsFrom(json, w, steps)
    decreases |steps|
  {
    Unique(json, w.rows) && (steps == [] || AlwaysUnique(json, Next(json, w, steps[0]), steps[1..]))
  }

  /** Over every interleaving: no two live rows of one kind ever have canonically equal
      parameters, exactly when no drain starts a superseded row beside a clashing one. */
  lemma {:induction false} RunUniqueIff(json: Json, w: World, steps: seq<Step>)
    requires Owned(w) && Waiting(w) && Unique(json, w.rows) && RunsFrom(json, w, steps)
    ensures AlwaysUnique(json, w, steps) <==> NeverRevives(json, w, steps)
    decreases |steps|
  {
    hide Owned, Waiting, Next, Enabled, Unique, RevivingStep;
    if steps != [] {
      StepKeepsOwned(json, w, steps[0]);
      StepKeepsWaiting(json, w, steps[0]);
      StepKeepsUniqueIff(json, w, steps[0]);
      if !RevivingStep(json, w, steps[0]) {
        RunUniqueIff(json, Next(json, w, steps[0]), steps[1..]);
      }
    }
  }

  /** The drain could look: every row it starts is still pending at that moment. */
  ghost predicate StartsPending(json: Json, w: World, steps: seq<Step>)
    requires RunsFrom(json, w, steps)
    decreases |steps|
  {
    steps == [] || ((steps[0].Start? ==> AllPending(w.rows, steps[0].ids)) && StartsPending(json, Next(json, w, steps[0]), steps[1..]))
  }

  lemma {:induction false} PendingNeverRevives(json: Json, w: World, steps: seq<Step>)
    requires RunsFrom(json, w, steps) && StartsPending(json, w, steps)
    ensures NeverRevives(json, w, steps)
    decreases |steps|
  {
    hide Next, Enabled, Clash;
    if steps != [] {
      PendingNeverRevives(json, Next(json, w, steps[0]), steps[1..]);
    }
  }

  /** From the empty table: with that check uniqueness would hold in every run. */
  lemma PendingStartsKeepUnique(json: Json, steps: seq<Step>)
    requires RunsFrom(json, EMPTY, steps) && StartsPending(json, EMPTY, steps)
    ensures AlwaysUnique(json, EMPTY, steps)
  {
    PendingNeverRevives(json, EMPTY, steps);
    RunUniqueIff(json, EMPTY, steps);
  }

  /** Without that condition the claim fails: a row superseded while its drain had released the
      writer is started anyway, beside a newer equal row. */
  lemma StaleSnapshotBreaksUnique(json: Json, x: string, y: string)
    requires Accepted(json, Intraday, x) && Accepted(json, Intraday, y) && Accepted(json, Sweep, x)
    requires KeyOf(json, x) != KeyOf(json, y)
    ensures exists steps :: RunsFrom(json, EMPTY, steps) && !Unique(json, After(json, EMPTY, steps).rows)
  {
    StaleRun(json, x, y, 0);
    assert StaleSteps(x, y)[0..] == StaleSteps(x, y);
    NotUnique(json, StaleWorld(x, y, 11).rows, 1, 3);
  }

  lemma {:induction false} StaleRun(json: Json, x: string, y: string, k: nat)
    requires Accepted(json, Intraday, x) && Accepted(json, Intraday, y) && Accepted(json, Sweep, x)
    requires KeyOf(json, x) != KeyOf(json, y)
    requires k <= 11
    ensures RunsFrom(json, StaleWorld(x, y, k), StaleSteps(x, y)[k..])
    ensures After(json, StaleWorld(x, y, k), StaleSteps(x, y)[k..]) == StaleWorld(x, y, 11)
    decreases 11 - k
  {
    hide Enabled, Next, StaleWorld, Moves;
    if k < 11 {
      StaleRun(json, x, y, k + 1);
      StaleMove(json, x, y, k);
      Chain(json, x, y, k);
    }
  }

  lemma NotUnique(json: Json, rows: seq<Job>, i: nat, j: nat)
    requires i < j < |rows| && Live(rows[i]) && Live(rows[j]) && Clash(json, rows[i], rows[j])
    ensures !Unique(json, rows)
  {
  }

  function StaleSteps(x: string, y: string): seq<Step> {
    [EnqueueStep(Sweep, x, false), EnqueueStep(Intraday, x, false), Launch(1), Open(1, {0, 1}), Start(1, {0}),
     Release(1), EnqueueStep(Intraday, y, false), EnqueueStep(Intraday, x, false), Reacquire(1),
     Settle(1, 0, Done), Start(1, {1})]
  }

  /** The worlds the failing run goes through. */
  function StaleWorld(x: string, y: string, k: nat): World {
    var sweep, a, b := Job(Sweep, x, Pending), Job(Intraday, x, Pending), Job(Intraday, y, Pending);
    var sweeping, gone := sweep.(state := Running), a.(state := Superseded);
    var fetched := map[1 := Drain(true, {0, 1}, {0}, {0})];
    match k
    case 0 => EMPTY
    case 1 => World([sweep], None, None, map[])
    case 2 => World([sweep, a], None, None, map[])
    case 3 => World([sweep, a], Some(1), None, map[1 := Drain(false, {}, {}, {})])
    case 4 => World([sweep, a], Some(1), Some(1), map[1 := Drain(true, {0, 1}, {}, {})])
    case 5 => World([sweeping, a], Some(1), Some(1), fetched)
    case 6 => World([sweeping, a], Some(1), None, fetched)
    case 7 => World([sweeping, gone, b], Some(1), None, fetched)
    case 8 => World([sweeping, gone, b.(state := Superseded), a], Some(1), None, fetched)
    case 9 => World([sweeping, gone, b.(state := Superseded), a], Some(1), Some(1), fetched)
    case 10 => World([sweep.(state := Done), gone, b.(state := Superseded), a], Some(1), Some(1),
                     map[1 := Drain(true, {0, 1}, {0}, {})])
    case _ => World([sweep.(state := Done), a.(state := Running), b.(state := Superseded), a], Some(1), Some(1),
                    map[1 := Drain(true, {0, 1}, {0, 1}, {1})])
  }

  ghost predicate Moves(json: Json, x: string, y: string, k: nat)
    requires k < 11
  {
    Enabled(StaleWorld(x, y, k), StaleSteps(x, y)[k]) && Next(json, StaleWorld(x, y, k), StaleSteps(x, y)[k]) == StaleWorld(x, y, k + 1)
  }

  lemma StaleEnqueueMoves(json: Json, x: string, y: string, k: nat)
    requires Accepted(json, Intraday, x) && Accepted(json, Intraday, y) && Accepted(json, Sweep, x)
    requires KeyOf(json, x) != KeyOf(json, y)
    requires k == 0 || k == 1 || k == 6 || k == 7
    ensures Moves(json, x, y, k)
  {
    hide Enqueue;
    StaleEnqueues(json, x, y);
  }

  lemma StaleLockMoves(json: Json, x: string, y: string, k: nat)
    requires k == 2 || k == 5 || k == 8
    ensures Moves(json, x, y, k)
  {
    hide Enqueue;
  }

  lemma StaleOpens(json: Json, x: string, y: string)
    ensures Moves(json, x, y, 3)
  {
    hide Enqueue;
    assert Reclaimed(StaleWorld(x, y, 3).rows) == StaleWorld(x, y, 3).rows;
  }

  lemma StaleStartsFirst(json: Json, x: string, y: string)
    ensures Moves(json, x, y, 4)
  {
    hide Enqueue;
    assert WithState(StaleWorld(x, y, 4).rows, {0}, Running) == StaleWorld(x, y, 5).rows;
    var none: set<nat> := {};
    assert none + {0} == {0} && {0, 1} - none == {0, 1};
  }

  lemma StaleSettles(json: Json, x: string, y: string)
    ensures Moves(json, x, y, 9)
  {
    hide Enqueue;
    assert WithState(StaleWorld(x, y, 9).rows, {0}, Done) == StaleWorld(x, y, 10).rows;
    var none: set<nat> := {};
    assert {0} - {0} == none;
  }

  lemma StaleStartsSecond(json: Json, x: string, y: string)
    ensures Moves(json, x, y, 10)
  {
    hide Enqueue;
    assert WithState(StaleWorld(x, y, 10).rows, {1}, Running) == StaleWorld(x, y, 11).rows;
    var none: set<nat> := {};
    assert {0} + {1} == {0, 1} && none + {1} == {1};
  }

  lemma StaleMove(json: Json, x: string, y: string, k: nat)
    requires Accepted(json, Intraday, x) && Accepted(json, Intraday, y) && Accepted(json, Sweep, x)
    requires KeyOf(json, x) != KeyOf(json, y)
    requires k < 11
    ensures Moves(json, x, y, k)
  {
    hide Moves;
    match k
    case 3 => StaleOpens(json, x, y);
    case 4 => StaleStartsFirst(json, x, y);
    case 9 => StaleSettles(json, x, y);
    case 10 => StaleStartsSecond(json, x, y);
    case _ =>
      if k == 2 || k == 5 || k == 8 {
        StaleLockMoves(json, x, y, k);
      } else {
        StaleEnqueueMoves(json, x, y, k);
      }
  }

  lemma Chain(json: Json, x: string, y: string, k: nat)
    requires k < 11 && Moves(json, x, y, k)
    ensures var steps, w, next := StaleSteps(x, y), StaleWorld(x, y, k), StaleWorld(x, y, k + 1);
      RunsFrom(json, next, steps[k + 1..]) ==>
      RunsFrom(json, w, steps[k..]) && After(json, w, steps[k..]) == After(json, next, steps[k + 1..])
  {
    hide Enabled, Next, StaleWorld;
    assert StaleSteps(x, y)[k..][1..] == StaleSteps(x, y)[k + 1..];
  }

  /** An enqueue of a superseding kind whose parameters no live row matches. */
  lemma FreshEnqueue(json: Json, rows: seq<Job>, kind: Kind, params: string, kept: seq<Job>)
    requires Accepted(json, kind, params) && |kept| == |rows|
    requires forall i | 0 <= i < |rows| :: Live(rows[i]) && rows[i].kind == kind ==> !SameParams(json, rows[i].params, params)
    requires forall i | 0 <= i < |rows| :: kept[i] == if Supersedes(kind) && Stale(rows[i], kind, params) then rows[i].(state := Superseded) else rows[i]
    ensures Enqueue(json, rows, kind, params, false) == (kept + [Job(kind, params, Pending)], true)
  {
    hide SameParams;
    assert !HasLive(json, rows, kind, params);
    assert kept == if Supersedes(kind) then DropStale(rows, kind, params) else rows;
  }

  lemma StaleEnqueues(json: Json, x: string, y: string)
    requires Accepted(json, Intraday, x) && Accepted(json, Intraday, y) && Accepted(json, Sweep, x)
    requires KeyOf(json, x) != KeyOf(json, y)
    ensures var sweep, a, b := Job(Sweep, x, Pending), Job(Intraday, x, Pending), Job(Intraday, y, Pending);
      var sweeping, gone := sweep.(state := Running), a.(state := Superseded);
      && Enqueue(json, [], Sweep, x, false).0 == [sweep]
      && Enqueue(json, [sweep], Intraday, x, false).0 == [sweep, a]
      && Enqueue(json, [sweeping, a], Intraday, y, false).0 == [sweeping, gone, b]
      && Enqueue(json, [sweeping, gone, b], Intraday, x, false).0 == [sweeping, gone, b.(state := Superseded), a]
  {
    SameParamsIsKeyEquality(json, x, y);
    SameParamsIsKeyEquality(json, y, x);
    var sweep, a, b := Job(Sweep, x, Pending), Job(Intraday, x, Pending), Job(Intraday, y, Pending);
    var sweeping, gone := sweep.(state := Running), a.(state := Superseded);
    hide Enqueue, SameParams, KeyOf, Accepted;
    FreshEnqueue(json, [], Sweep, x, []);
    FreshEnqueue(json, [sweep], Intraday, x, [sweep]);
    FreshEnqueue(json, [sweeping, a], Intraday, y, [sweeping, gone]);
    FreshEnqueue(json, [sweeping, gone, b], Intraday, x, [sweeping, gone, b.(state := Superseded)]);
  }
}
