/** What one drain does to the jobs table, as moves over the rows it selected, and the proof that
    such moves are steps of the queue protocol, whatever other processes do in between. Rows are
    named by their position in the selected list; `ids` gives their table ids. */
module DrainMoves {
  import opened Options
  import opened QueueTypes
  import QP = QueueProtocol

  datatype Move =
    | Starts(rows: set<nat>)
    | Refuses(row: nat)
    | Releases
    | Reacquires
    | Settles(row: nat, outcome: State)

  /** Whether the drain holds the writer, what it has handled and owns, and the state it last gave
      each row it handled. */
  datatype Phase = Phase(holding: bool, handled: set<nat>, owned: set<nat>, states: map<nat, State>)

  const OPENED := Phase(true, {}, {}, map[])

  function Moved(ph: Phase, m: Move): Phase {
    match m
    case Starts(rows) => ph.(handled := ph.handled + rows, owned := ph.owned + rows, states := ph.states + AllGiven(rows, Running))
    case Refuses(row) => ph.(handled := ph.handled + {row}, states := ph.states[row := Failed])
    case Releases => ph.(holding := false)
    case Reacquires => ph.(holding := true)
    case Settles(row, outcome) => ph.(owned := ph.owned - {row}, states := ph.states[row := outcome])
  }

  /** The move is open to a drain of `n` rows. */
  ghost predicate MayMove(n: nat, ph: Phase, m: Move) {
    match m
    case Starts(rows) => ph.holding && forall p | p in rows :: p < n && p !in ph.handled
    case Refuses(row) => ph.holding && row < n && row !in ph.handled
    case Releases => ph.holding
    case Reacquires => !ph.holding
    case Settles(row, outcome) => ph.holding && row in ph.owned && row < n && (outcome.Done? || outcome.Failed? || outcome.Pending?)
  }

  ghost predicate Plays(n: nat, ph: Phase, moves: seq<Move>)
    decreases |moves|
  {
    moves == [] || (MayMove(n, ph, moves[0]) && Plays(n, Moved(ph, moves[0]), moves[1..]))
  }

  function PhaseAfter(ph: Phase, moves: seq<Move>): Phase
    decreases |moves|
  {
    if moves == [] then ph else PhaseAfter(Moved(ph, moves[0]), moves[1..])
  }

  lemma {:induction false} PlaysAppend(n: nat, ph: Phase, moves: seq<Move>, m: Move)
    ensures PhaseAfter(ph, moves + [m]) == Moved(PhaseAfter(ph, moves), m)
    ensures Plays(n, ph, moves + [m]) <==> Plays(n, ph, moves) && MayMove(n, PhaseAfter(ph, moves), m)
    decreases |moves|
  {
    hide MayMove, Moved;
    if moves == [] {
      assert [m][1..] == [] && moves + [m] == [m];
    } else {
      PlaysAppend(n, Moved(ph, moves[0]), moves[1..], m);
      assert (moves + [m])[1..] == moves[1..] + [m];
    }
  }

  /** Every move so far was open, the writer is held again, and nothing is owned. */
  ghost predicate Rested(n: nat, moves: seq<Move>) {
    Plays(n, OPENED, moves) && PhaseAfter(OPENED, moves).holding && PhaseAfter(OPENED, moves).owned == {}
  }

  /** A row is as the drain left it; what it left pending, others may have superseded. */
  predicate LeftAs(actual: State, given: State) {
    actual == given || (given.Pending? && actual.Superseded?)
  }

  /** The states the moves leave. */
  function StatesOf(moves: seq<Move>): map<nat, State> {
    PhaseAfter(OPENED, moves).states
  }

  function Handled(moves: seq<Move>): set<nat> {
    PhaseAfter(OPENED, moves).handled
  }

  // ----- moves as steps of the protocol -----

  ghost predicate Injective(ids: seq<nat>) {
    forall p, q | 0 <= p < q < |ids| :: ids[p] != ids[q]
  }

  function Named(ids: seq<nat>, rows: set<nat>): set<nat> {
    set p | p in rows && p < |ids| :: ids[p]
  }

  function StepOf(d: nat, ids: seq<nat>, m: Move): QP.Step {
    match m
    case Starts(rows) => QP.Start(d, Named(ids, rows))
    case Refuses(row) => QP.Refuse(d, if row < |ids| then ids[row] else 0)
    case Releases => QP.Release(d)
    case Reacquires => QP.Reacquire(d)
    case Settles(row, outcome) => QP.Settle(d, if row < |ids| then ids[row] else 0, outcome)
  }

  /** The protocol's record of the drain matches its phase. */
  ghost predicate InPhase(w: QP.World, d: nat, ids: seq<nat>, ph: Phase) {
    && d in w.drains && w.drains[d].ready
    && (forall p | 0 <= p < |ids| :: ids[p] in w.drains[d].selected)
    && w.drains[d].handled == Named(ids, ph.handled) && w.drains[d].owned == Named(ids, ph.owned)
    && (ph.holding <==> w.writer == Some(d))
    && RowsLeft(w.rows, ids, ph.states) && NoneQueued(ph.states)
  }

  ghost predicate NoneQueued(states: map<nat, State>) {
    forall p | p in states :: !states[p].Queued?
  }

  /** The table's rows are as the drain left them. */
  ghost predicate RowsLeft(rows: seq<QP.Job>, ids: seq<nat>, states: map<nat, State>) {
    forall p | p in states && p < |ids| :: ids[p] < |rows| && LeftAs(rows[ids[p]].state, states[p])
  }

  /** Rows that only others touched stay as left: they retire waiting rows and nothing else. */
  lemma OthersKeepRows(rows: seq<QP.Job>, after: seq<QP.Job>, ids: seq<nat>, states: map<nat, State>)
    requires RowsLeft(rows, ids, states) && |rows| <= |after|
    requires forall i | 0 <= i < |rows| ::
      after[i].state == rows[i].state || ((rows[i].state.Queued? || rows[i].state.Pending?) && after[i].state.Superseded?)
    requires NoneQueued(states)
    ensures RowsLeft(after, ids, states)
  {
  }

  lemma EnqueueRetires(json: QP.Json, rows: seq<QP.Job>, kind: Kind, params: string, once: bool)
    ensures var r := QP.Enqueue(json, rows, kind, params, once).0;
      |rows| <= |r| && forall i | 0 <= i < |rows| ::
        r[i].state == rows[i].state || ((rows[i].state.Queued? || rows[i].state.Pending?) && r[i].state.Superseded?)
  {
    if QP.Accepted(json, kind, params) {
      QP.EnqueueServes(json, rows, kind, params, once);
    }
  }

  lemma NamedHas(ids: seq<nat>, rows: set<nat>, p: nat)
    requires Injective(ids) && p < |ids|
    ensures ids[p] in Named(ids, rows) <==> p in rows
  {
  }

  lemma NamedSets(ids: seq<nat>, a: set<nat>, b: set<nat>)
    requires Injective(ids)
    ensures Named(ids, a + b) == Named(ids, a) + Named(ids, b)
    ensures Named(ids, a - b) == Named(ids, a) - Named(ids, b)
  {
  }

  lemma NamedOne(ids: seq<nat>, p: nat)
    requires p < |ids|
    ensures Named(ids, {p}) == {ids[p]}
  {
  }

  /** The drain's own writes leave its rows in the states it gives them. */
  lemma OwnRows(rows: seq<QP.Job>, ids: seq<nat>, states: map<nat, State>, given: set<nat>, state: State)
    requires Injective(ids) && RowsLeft(rows, ids, states) && forall p | p in given :: p < |ids| && ids[p] < |rows|
    ensures RowsLeft(QP.WithState(rows, Named(ids, given), state), ids, states + AllGiven(given, state))
  {
    var after, all := QP.WithState(rows, Named(ids, given), state), states + AllGiven(given, state);
    forall p | p in all && p < |ids|
      ensures ids[p] < |after| && LeftAs(after[ids[p]].state, all[p])
    {
      NamedHas(ids, given, p);
    }
  }

  function AllGiven(given: set<nat>, state: State): map<nat, State> {
    map p | p in given :: state
  }

  lemma OneGiven(states: map<nat, State>, p: nat, state: State)
    ensures states + AllGiven({p}, state) == states[p := state]
  {
  }

  lemma IdsInTable(w: QP.World, d: nat, ids: seq<nat>, ph: Phase)
    requires QP.Owned(w) && InPhase(w, d, ids, ph)
    ensures forall p | 0 <= p < |ids| :: ids[p] < |w.rows|
  {
  }

  lemma StartIsStep(json: QP.Json, w: QP.World, d: nat, ids: seq<nat>, ph: Phase, rows: set<nat>)
    requires QP.Owned(w) && Injective(ids) && InPhase(w, d, ids, ph) && MayMove(|ids|, ph, Starts(rows))
    ensures QP.Enabled(w, QP.Start(d, Named(ids, rows))) && InPhase(QP.Next(json, w, QP.Start(d, Named(ids, rows))), d, ids, Moved(ph, Starts(rows)))
  {
    NamedSets(ids, ph.handled, rows);
    NamedSets(ids, ph.owned, rows);
    StartsFresh(w, d, ids, ph, rows);
    IdsInTable(w, d, ids, ph);
    OwnRows(w.rows, ids, ph.states, rows, Running);
    hide Named, Injective, RowsLeft, QP.WithState;
  }

  lemma RefuseIsStep(json: QP.Json, w: QP.World, d: nat, ids: seq<nat>, ph: Phase, row: nat)
    requires QP.Owned(w) && Injective(ids) && InPhase(w, d, ids, ph) && MayMove(|ids|, ph, Refuses(row))
    ensures QP.Enabled(w, QP.Refuse(d, ids[row])) && InPhase(QP.Next(json, w, QP.Refuse(d, ids[row])), d, ids, Moved(ph, Refuses(row)))
  {
    NamedHas(ids, ph.handled, row);
    NamedSets(ids, ph.handled, {row});
    NamedOne(ids, row);
    IdsInTable(w, d, ids, ph);
    OwnRows(w.rows, ids, ph.states, {row}, Failed);
    OneGiven(ph.states, row, Failed);
    hide Named, Injective, RowsLeft, QP.WithState;
  }

  lemma SettleIsStep(json: QP.Json, w: QP.World, d: nat, ids: seq<nat>, ph: Phase, row: nat, outcome: State)
    requires QP.Owned(w) && Injective(ids) && InPhase(w, d, ids, ph) && MayMove(|ids|, ph, Settles(row, outcome))
    ensures QP.Enabled(w, QP.Settle(d, ids[row], outcome))
    ensures InPhase(QP.Next(json, w, QP.Settle(d, ids[row], outcome)), d, ids, Moved(ph, Settles(row, outcome)))
  {
    NamedHas(ids, ph.owned, row);
    NamedSets(ids, ph.owned, {row});
    NamedOne(ids, row);
    IdsInTable(w, d, ids, ph);
    OwnRows(w.rows, ids, ph.states, {row}, outcome);
    OneGiven(ph.states, row, outcome);
    hide Named, Injective, RowsLeft, QP.WithState;
  }

  /** An open move is an enabled step, and the step leads to the next phase. */
  lemma MoveIsStep(json: QP.Json, w: QP.World, d: nat, ids: seq<nat>, ph: Phase, m: Move)
    requires QP.Owned(w) && Injective(ids) && InPhase(w, d, ids, ph) && MayMove(|ids|, ph, m)
    ensures QP.Enabled(w, StepOf(d, ids, m)) && InPhase(QP.Next(json, w, StepOf(d, ids, m)), d, ids, Moved(ph, m))
  {
    match m
    case Starts(rows) => StartIsStep(json, w, d, ids, ph, rows);
    case Refuses(row) => RefuseIsStep(json, w, d, ids, ph, row);
    case Settles(row, outcome) => SettleIsStep(json, w, d, ids, ph, row, outcome);
    case _ => hide Named, Injective, RowsLeft;
  }

  lemma StartsFresh(w: QP.World, d: nat, ids: seq<nat>, ph: Phase, rows: set<nat>)
    requires Injective(ids) && InPhase(w, d, ids, ph) && MayMove(|ids|, ph, Starts(rows))
    ensures Named(ids, rows) <= w.drains[d].selected - w.drains[d].handled
  {
    forall id | id in Named(ids, rows)
      ensures id in w.drains[d].selected && id !in w.drains[d].handled
    {
      var p :| p in rows && p < |ids| && ids[p] == id;
      NamedHas(ids, ph.handled, p);
    }
  }

  predicate ByDrain(d: nat, step: QP.Step) {
    match step
    case EnqueueStep(_, _, _) => false
    case SupersedeStaleStep(_, _) => false
    case _ => step.drain == d
  }

  /** While a drain lives, nothing another process can do touches its record. */
  lemma OthersKeepPhase(json: QP.Json, w: QP.World, d: nat, ids: seq<nat>, ph: Phase, step: QP.Step)
    requires QP.Owned(w) && InPhase(w, d, ids, ph) && QP.Enabled(w, step) && !ByDrain(d, step)
    ensures InPhase(QP.Next(json, w, step), d, ids, ph)
  {
    hide QP.Enqueue, Named, RowsLeft;
    match step
    case EnqueueStep(kind, params, once) =>
      EnqueueRetires(json, w.rows, kind, params, once);
      OthersKeepRows(w.rows, QP.Next(json, w, step).rows, ids, ph.states);
    case SupersedeStaleStep(kind, gone) =>
      OthersKeepRows(w.rows, QP.Next(json, w, step).rows, ids, ph.states);
    case _ =>
  }

  function StepsOf(d: nat, ids: seq<nat>, moves: seq<Move>): (r: seq<QP.Step>)
    ensures |r| == |moves| && forall i | 0 <= i < |r| :: r[i] == StepOf(d, ids, moves[i])
  {
    seq(|moves|, i requires 0 <= i < |moves| => StepOf(d, ids, moves[i]))
  }

  /** `steps` are the drain's own steps in order, with steps of others that were possible when
      they came. */
  ghost predicate Interleaves(json: QP.Json, w: QP.World, d: nat, own: seq<QP.Step>, steps: seq<QP.Step>)
    decreases |steps|
  {
    if steps == [] then own == []
    else if ByDrain(d, steps[0]) then
      && own != [] && steps[0] == own[0]
      && (QP.Enabled(w, steps[0]) ==> Interleaves(json, QP.Next(json, w, steps[0]), d, own[1..], steps[1..]))
    else QP.Enabled(w, steps[0]) && Interleaves(json, QP.Next(json, w, steps[0]), d, own, steps[1..])
  }

  lemma OwnSteps(d: nat, ids: seq<nat>, moves: seq<Move>)
    requires moves != []
    ensures StepsOf(d, ids, moves)[0] == StepOf(d, ids, moves[0]) && StepsOf(d, ids, moves)[1..] == StepsOf(d, ids, moves[1..])
  {
  }

  /** However others interleave, the moves of a drain are a run of the protocol that ends in its
      phase. */
  lemma {:induction false} MovesRun(json: QP.Json, w: QP.World, d: nat, ids: seq<nat>, ph: Phase, moves: seq<Move>, steps: seq<QP.Step>)
    requires QP.Owned(w) && Injective(ids) && InPhase(w, d, ids, ph) && Plays(|ids|, ph, moves)
    requires Interleaves(json, w, d, StepsOf(d, ids, moves), steps)
    ensures QP.RunsFrom(json, w, steps)
    ensures InPhase(QP.After(json, w, steps), d, ids, PhaseAfter(ph, moves)) && QP.Owned(QP.After(json, w, steps))
    decreases |steps|
  {
    hide QP.Owned, QP.Enabled, QP.Next, InPhase, Injective, StepOf, ByDrain, MayMove, Moved;
    if steps == [] {
      assert moves == [];
    } else if ByDrain(d, steps[0]) {
      OwnSteps(d, ids, moves);
      MoveIsStep(json, w, d, ids, ph, moves[0]);
      QP.StepKeepsOwned(json, w, steps[0]);
      MovesRun(json, QP.Next(json, w, steps[0]), d, ids, Moved(ph, moves[0]), moves[1..], steps[1..]);
    } else {
      OthersKeepPhase(json, w, d, ids, ph, steps[0]);
      QP.StepKeepsOwned(json, w, steps[0]);
      MovesRun(json, QP.Next(json, w, steps[0]), d, ids, ph, moves, steps[1..]);
    }
  }

  /** A drain that has opened and come to rest has made a run of the protocol, has left the table's
      rows in the states of its moves, and may exit. */
  lemma RestedMayExit(json: QP.Json, w: QP.World, d: nat, ids: seq<nat>, selected: set<nat>, moves: seq<Move>, steps: seq<QP.Step>)
    requires QP.Owned(w) && Injective(ids) && (forall p | 0 <= p < |ids| :: ids[p] in selected)
    requires QP.Enabled(w, QP.Open(d, selected)) && Rested(|ids|, moves)
    requires Interleaves(json, QP.Next(json, w, QP.Open(d, selected)), d, StepsOf(d, ids, moves), steps)
    ensures QP.RunsFrom(json, QP.Next(json, w, QP.Open(d, selected)), steps)
    ensures QP.Enabled(QP.After(json, QP.Next(json, w, QP.Open(d, selected)), steps), QP.Exit(d))
    ensures RowsLeft(QP.After(json, QP.Next(json, w, QP.Open(d, selected)), steps).rows, ids, StatesOf(moves))
  {
    var begun := QP.Next(json, w, QP.Open(d, selected));
    QP.StepKeepsOwned(json, w, QP.Open(d, selected));
    assert Named(ids, {}) == {};
    assert InPhase(begun, d, ids, OPENED);
    MovesRun(json, begun, d, ids, OPENED, moves, steps);
  }

  // ----- whole jobs as moves -----

  /** The verdicts written after a pool, in queue order. */
  function SettleMoves(pool: seq<nat>, verdicts: map<nat, State>): (r: seq<Move>)
    ensures |r| == |pool| && forall i | 0 <= i < |r| :: r[i] == Settles(pool[i], if pool[i] in verdicts then verdicts[pool[i]] else Pending)
  {
    seq(|pool|, i requires 0 <= i < |pool| => Settles(pool[i], if pool[i] in verdicts then verdicts[pool[i]] else Pending))
  }

  ghost function Members(pool: seq<nat>): set<nat> {
    set i | 0 <= i < |pool| :: pool[i]
  }

  ghost function Rest(pool: seq<nat>, k: nat): set<nat> {
    set i | k <= i < |pool| :: pool[i]
  }

  lemma RestStep(pool: seq<nat>, k: nat)
    requires k < |pool| && forall i, j | 0 <= i < j < |pool| :: pool[i] != pool[j]
    ensures pool[k] in Rest(pool, k) && Rest(pool, k) - {pool[k]} == Rest(pool, k + 1)
  {
  }

  /** The states after the first `k` verdicts. */
  function Given(states: map<nat, State>, pool: seq<nat>, verdicts: map<nat, State>, k: nat): map<nat, State>
    requires k <= |pool|
  {
    if k == 0 then states
    else Given(states, pool, verdicts, k - 1)[pool[k - 1] := if pool[k - 1] in verdicts then verdicts[pool[k - 1]] else Pending]
  }

  lemma {:induction false} GivenIs(states: map<nat, State>, pool: seq<nat>, verdicts: map<nat, State>, k: nat, p: nat)
    requires k <= |pool|
    ensures var g := Given(states, pool, verdicts, k);
      && (p in g <==> p in states || p in pool[..k])
      && (p in pool[..k] ==> g[p] == if p in verdicts then verdicts[p] else Pending)
      && (p in states && p !in pool[..k] ==> g[p] == states[p])
  {
    if k > 0 {
      GivenIs(states, pool, verdicts, k - 1, p);
      assert pool[..k] == pool[..k - 1] + [pool[k - 1]];
    }
  }

  lemma {:induction false} SettlePlays(n: nat, ph: Phase, moves: seq<Move>, pool: seq<nat>, verdicts: map<nat, State>, k: nat)
    requires k <= |pool| && Plays(n, ph, moves) && PhaseAfter(ph, moves).holding && PhaseAfter(ph, moves).owned == Rest(pool, 0)
    requires (forall i, j | 0 <= i < j < |pool| :: pool[i] != pool[j]) && forall i | 0 <= i < |pool| :: pool[i] < n
    requires forall p | p in verdicts :: verdicts[p].Done? || verdicts[p].Failed?
    ensures var after := moves + SettleMoves(pool, verdicts)[..k];
      && Plays(n, ph, after)
      && PhaseAfter(ph, after) == PhaseAfter(ph, moves).(owned := Rest(pool, k), states := Given(PhaseAfter(ph, moves).states, pool, verdicts, k))
  {
    hide Rest, SettleMoves;
    var all := SettleMoves(pool, verdicts);
    if k == 0 {
      assert moves + all[..0] == moves;
    } else {
      SettlePlays(n, ph, moves, pool, verdicts, k - 1);
      RestStep(pool, k - 1);
      PlaysAppend(n, ph, moves + all[..k - 1], all[k - 1]);
      assert moves + all[..k] == moves + all[..k - 1] + [all[k - 1]];
    }
  }

  /** Marking a pool, releasing, reacquiring and settling it comes to rest. */
  lemma PoolMoves(n: nat, moves: seq<Move>, pool: seq<nat>, verdicts: map<nat, State>)
    requires Rested(n, moves) && (forall i | 0 <= i < |pool| :: pool[i] < n && pool[i] !in Handled(moves))
    requires forall i, j | 0 <= i < j < |pool| :: pool[i] != pool[j]
    requires forall p | p in verdicts :: verdicts[p].Done? || verdicts[p].Failed?
    ensures var after := moves + [Starts(Members(pool))] + [Releases] + [Reacquires] + SettleMoves(pool, verdicts);
      && Rested(n, after) && Handled(after) == Handled(moves) + Members(pool)
      && (forall p :: p in StatesOf(after) <==> p in StatesOf(moves) || p in pool)
      && (forall p | p in pool :: StatesOf(after)[p] == if p in verdicts then verdicts[p] else Pending)
      && (forall p | p in StatesOf(moves) && p !in pool :: StatesOf(after)[p] == StatesOf(moves)[p])
  {
    var m1 := moves + [Starts(Members(pool))];
    var m2 := m1 + [Releases];
    var m3 := m2 + [Reacquires];
    PlaysAppend(n, OPENED, moves, Starts(Members(pool)));
    PlaysAppend(n, OPENED, m1, Releases);
    PlaysAppend(n, OPENED, m2, Reacquires);
    var none: set<nat> := {};
    assert none + Members(pool) == Members(pool) == Rest(pool, 0) && Rest(pool, |pool|) == none;
    SettlePlays(n, OPENED, m3, pool, verdicts, |pool|);
    assert SettleMoves(pool, verdicts)[..|pool|] == SettleMoves(pool, verdicts);
    PoolStates(n, moves, m3, pool, verdicts);
  }

  lemma PoolStates(n: nat, moves: seq<Move>, marked: seq<Move>, pool: seq<nat>, verdicts: map<nat, State>)
    requires StatesOf(marked) == StatesOf(moves) + AllGiven(Members(pool), Running)
    ensures var g := Given(StatesOf(marked), pool, verdicts, |pool|);
      && (forall p :: p in g <==> p in StatesOf(moves) || p in pool)
      && (forall p | p in pool :: g[p] == if p in verdicts then verdicts[p] else Pending)
      && (forall p | p in StatesOf(moves) && p !in pool :: g[p] == StatesOf(moves)[p])
  {
    hide StatesOf;
    assert pool[..|pool|] == pool;
    forall p: nat
      ensures p in Members(pool) <==> p in pool
    {
    }
    forall p: nat
      ensures var g := Given(StatesOf(marked), pool, verdicts, |pool|);
        && (p in g <==> p in StatesOf(moves) || p in pool)
        && (p in pool ==> g[p] == if p in verdicts then verdicts[p] else Pending)
        && (p in StatesOf(moves) && p !in pool ==> g[p] == StatesOf(moves)[p])
    {
      GivenIs(StatesOf(marked), pool, verdicts, |pool|, p);
    }
  }

  /** A leased job: marked, released, reacquired, settled. */
  lemma LeasedMoves(n: nat, moves: seq<Move>, p: nat, outcome: State)
    requires Rested(n, moves) && p < n && p !in Handled(moves) && (outcome.Done? || outcome.Failed?)
    ensures var after := moves + [Starts({p})] + [Releases] + [Reacquires] + [Settles(p, outcome)];
      Rested(n, after) && Handled(after) == Handled(moves) + {p} && StatesOf(after) == StatesOf(moves)[p := outcome]
  {
    PoolMoves(n, moves, [p], map[p := outcome]);
    assert [p][0] == p && Members([p]) == {p};
    assert SettleMoves([p], map[p := outcome]) == [Settles(p, outcome)];
  }

  /** A job on the drain's own connection: marked and settled. */
  lemma CalledMoves(n: nat, moves: seq<Move>, p: nat, outcome: State)
    requires Rested(n, moves) && p < n && p !in Handled(moves) && (outcome.Done? || outcome.Failed?)
    ensures var after := moves + [Starts({p})] + [Settles(p, outcome)];
      Rested(n, after) && Handled(after) == Handled(moves) + {p} && StatesOf(after) == StatesOf(moves)[p := outcome]
  {
    PlaysAppend(n, OPENED, moves, Starts({p}));
    PlaysAppend(n, OPENED, moves + [Starts({p})], Settles(p, outcome));
    var none: set<nat> := {};
    assert none + {p} - {p} == none;
  }

  lemma RefusedMoves(n: nat, moves: seq<Move>, p: nat)
    requires Rested(n, moves) && p < n && p !in Handled(moves)
    ensures Rested(n, moves + [Refuses(p)]) && Handled(moves + [Refuses(p)]) == Handled(moves) + {p}
    ensures StatesOf(moves + [Refuses(p)]) == StatesOf(moves)[p := Failed]
  {
    PlaysAppend(n, OPENED, moves, Refuses(p));
  }
}
