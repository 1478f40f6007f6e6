/** The split table fed by complete pages: loading observations, withdrawing splits that stay
    absent, and the split factor of an as-of bar. */
module SplitWithdrawal {
  import opened Options

  datatype Key = Key(ticker: string, ex: int)

  datatype Status = Active | Pending(since: int) | Withdrawn(since: int)

  datatype Split = Split(from: real, to: real, fetched: int, sha: string, status: Status)

  type Table = map<Key, Split>

  datatype Row = Row(key: Key, from: real, to: real)

  // ----- loading a page -----

  /** An existing row is replaced only by a newer observation. */
  predicate Eligible(split: Split, fetched: int, sha: string) {
    match split.status
    case Active => fetched >= split.fetched && sha != split.sha
    case Pending(since) => fetched > since
    case Withdrawn(since) => fetched > since
  }

  function Fresh(row: Row, fetched: int, sha: string): Split {
    Split(row.from, row.to, fetched, sha, Active)
  }

  function Upserted(table: Table, row: Row, fetched: int, sha: string): Table {
    if row.key !in table || Eligible(table[row.key], fetched, sha) then table[row.key := Fresh(row, fetched, sha)] else table
  }

  function Loaded(table: Table, page: seq<Row>, fetched: int, sha: string): Table {
    if page == [] then table else Upserted(Loaded(table, page[..|page| - 1], fetched, sha), page[|page| - 1], fetched, sha)
  }

  ghost predicate OnPage(page: seq<Row>, key: Key) {
    exists i | 0 <= i < |page| :: page[i].key == key
  }

  /** The row is overwritten by this page. */
  ghost predicate Replaced(table: Table, page: seq<Row>, fetched: int, sha: string, key: Key) {
    OnPage(page, key) && (key in table ==> Eligible(table[key], fetched, sha))
  }

  /** The row's values come from the first row of its key on the page. */
  ghost predicate FromPage(split: Split, page: seq<Row>, fetched: int, sha: string, key: Key) {
    exists i | 0 <= i < |page| ::
      page[i].key == key && split == Split(page[i].from, page[i].to, fetched, sha, Active) && forall j | 0 <= j < i :: page[j].key != key
  }

  /** A page overwrites exactly the new and the eligible keys it names, and makes them active. */
  lemma {:induction false} LoadedAt(table: Table, page: seq<Row>, fetched: int, sha: string, key: Key)
    ensures var after := Loaded(table, page, fetched, sha);
      && (key in after <==> key in table || OnPage(page, key))
      && (Replaced(table, page, fetched, sha, key) ==> FromPage(after[key], page, fetched, sha, key))
      && (key in table && !Replaced(table, page, fetched, sha, key) ==> after[key] == table[key])
  {
    if page != [] {
      var n := |page| - 1;
      LoadedAt(table, page[..n], fetched, sha, key);
      assert OnPage(page, key) <==> OnPage(page[..n], key) || page[n].key == key by {
        if OnPage(page, key) && page[n].key != key {
          var i :| 0 <= i < |page| && page[i].key == key;
          assert page[..n][i].key == key;
        }
        if OnPage(page[..n], key) {
          var i :| 0 <= i < n && page[..n][i].key == key;
          assert page[i].key == key;
        }
      }
      PageGrows(page, fetched, sha, key);
    }
  }

  /** A later row of the key neither changes nor replaces what its first row wrote. */
  lemma PageGrows(page: seq<Row>, fetched: int, sha: string, key: Key)
    requires page != []
    ensures var n := |page| - 1;
      && (forall split | FromPage(split, page[..n], fetched, sha, key) :: FromPage(split, page, fetched, sha, key) && !Eligible(split, fetched, sha))
      && (!OnPage(page[..n], key) && page[n].key == key ==> FromPage(Fresh(page[n], fetched, sha), page, fetched, sha, key))
  {
    var n := |page| - 1;
    forall split | FromPage(split, page[..n], fetched, sha, key)
      ensures FromPage(split, page, fetched, sha, key)
    {
      var i :| 0 <= i < n && page[..n][i].key == key && split == Fresh(page[..n][i], fetched, sha) && forall j | 0 <= j < i :: page[..n][j].key != key;
      assert page[i] == page[..n][i];
      assert forall j | 0 <= j < i :: page[j] == page[..n][j];
    }
    if !OnPage(page[..n], key) && page[n].key == key {
      forall j | 0 <= j < n
        ensures page[j].key != key
      {
        assert page[..n][j] == page[j];
      }
    }
  }

  lemma ReplacedDiffers(table: Table, page: seq<Row>, fetched: int, sha: string, key: Key)
    requires key in table && Replaced(table, page, fetched, sha, key)
    ensures key in Loaded(table, page, fetched, sha) && Loaded(table, page, fetched, sha)[key] != table[key]
  {
    LoadedAt(table, page, fetched, sha, key);
  }

  /** When a page names a stored split it takes the page's values and is active, if and only if the
      page is newer than its withdrawal or its first absence, or, for an active split, is another
      page not older than its own. */
  lemma NamedIsRefreshed(table: Table, page: seq<Row>, fetched: int, sha: string, key: Key)
    requires key in table && OnPage(page, key)
    ensures var was, after := table[key], Loaded(table, page, fetched, sha);
      && key in after
      && (was.status == Active ==>
            if fetched >= was.fetched && sha != was.sha then FromPage(after[key], page, fetched, sha, key) else after[key] == was)
      && (forall since | was.status == Pending(since) || was.status == Withdrawn(since) ::
            if fetched > since then after[key].status == Active && FromPage(after[key], page, fetched, sha, key) else after[key] == was)
  {
    LoadedAt(table, page, fetched, sha, key);
  }

  // ----- the reported count of updates -----

  predicate Counts(table: Table, row: Row, fetched: int, sha: string) {
    row.key in table && Eligible(table[row.key], fetched, sha)
  }

  /** The `updated` figure: rows of the page whose key was eligible before the page. */
  function Updated(table: Table, page: seq<Row>, fetched: int, sha: string): nat {
    if page == [] then 0 else
    Updated(table, page[..|page| - 1], fetched, sha) + if Counts(table, page[|page| - 1], fetched, sha) then 1 else 0
  }

  ghost function Changed(table: Table, after: Table): set<Key> {
    set key | key in table && key in after && after[key] != table[key]
  }

  ghost function CountedKeys(table: Table, page: seq<Row>, fetched: int, sha: string): set<Key> {
    if page == [] then {} else
    CountedKeys(table, page[..|page| - 1], fetched, sha) + if Counts(table, page[|page| - 1], fetched, sha) then {page[|page| - 1].key} else {}
  }

  /** No eligible key comes twice on the page. */
  ghost predicate NoRepeat(table: Table, page: seq<Row>, fetched: int, sha: string) {
    forall i, j | 0 <= i < j < |page| :: Counts(table, page[j], fetched, sha) ==> page[i].key != page[j].key
  }

  lemma {:induction false} CountedIn(table: Table, page: seq<Row>, fetched: int, sha: string, key: Key)
    ensures key in CountedKeys(table, page, fetched, sha) <==> key in table && Eligible(table[key], fetched, sha) && OnPage(page, key)
  {
    if page != [] {
      var n := |page| - 1;
      CountedIn(table, page[..n], fetched, sha, key);
      if OnPage(page, key) && page[n].key != key {
        var i :| 0 <= i < |page| && page[i].key == key;
        assert page[..n][i].key == key;
      }
      if OnPage(page[..n], key) {
        var i :| 0 <= i < n && page[..n][i].key == key;
        assert page[i].key == key;
      }
    }
  }

  lemma ChangedIsCounted(table: Table, page: seq<Row>, fetched: int, sha: string)
    ensures Changed(table, Loaded(table, page, fetched, sha)) == CountedKeys(table, page, fetched, sha)
  {
    var after := Loaded(table, page, fetched, sha);
    forall key: Key
      ensures key in Changed(table, after) <==> key in CountedKeys(table, page, fetched, sha)
    {
      CountedIn(table, page, fetched, sha, key);
      LoadedAt(table, page, fetched, sha, key);
      if key in CountedKeys(table, page, fetched, sha) {
        ReplacedDiffers(table, page, fetched, sha, key);
      }
    }
  }

  lemma {:induction false} CountExceeds(table: Table, page: seq<Row>, fetched: int, sha: string)
    ensures |CountedKeys(table, page, fetched, sha)| <= Updated(table, page, fetched, sha)
    ensures |CountedKeys(table, page, fetched, sha)| == Updated(table, page, fetched, sha) <==> NoRepeat(table, page, fetched, sha)
  {
    if page != [] {
      var n := |page| - 1;
      CountExceeds(table, page[..n], fetched, sha);
      CountedIn(table, page[..n], fetched, sha, page[n].key);
      NoRepeatStep(table, page, fetched, sha);
    }
  }

  lemma NoRepeatStep(table: Table, page: seq<Row>, fetched: int, sha: string)
    requires page != []
    ensures var n := |page| - 1;
      NoRepeat(table, page, fetched, sha) <==>
      NoRepeat(table, page[..n], fetched, sha) && (Counts(table, page[n], fetched, sha) ==> !OnPage(page[..n], page[n].key))
  {
    var n := |page| - 1;
    if NoRepeat(table, page[..n], fetched, sha) && (Counts(table, page[n], fetched, sha) ==> !OnPage(page[..n], page[n].key)) {
      forall i, j | 0 <= i < j < |page| && Counts(table, page[j], fetched, sha)
        ensures page[i].key != page[j].key
      {
        assert page[..n][i] == page[i];
        if j < n {
          assert page[..n][j] == page[j];
        }
      }
    }
    if NoRepeat(table, page, fetched, sha) {
      forall i, j | 0 <= i < j < n && Counts(table, page[..n][j], fetched, sha)
        ensures page[..n][i].key != page[..n][j].key
      {
        assert page[..n][i] == page[i] && page[..n][j] == page[j];
      }
    }
  }

  /** `updated` is the number of rows the page really changed exactly when no eligible key
      repeats; it never falls short. */
  lemma UpdatedExactIff(table: Table, page: seq<Row>, fetched: int, sha: string)
    ensures var changed := Changed(table, Loaded(table, page, fetched, sha));
      && |changed| <= Updated(table, page, fetched, sha)
      && (|changed| == Updated(table, page, fetched, sha) <==> NoRepeat(table, page, fetched, sha))
  {
    ChangedIsCounted(table, page, fetched, sha);
    CountExceeds(table, page, fetched, sha);
  }

  /** A page that repeats an eligible key overstates the count. */
  lemma RepeatOverstates()
    ensures exists table, page, fetched, sha ::
      Updated(table, page, fetched, sha) > |Changed(table, Loaded(table, page, fetched, sha))|
  {
    var row := Row(Key("T", 0), 1.0, 2.0);
    var table, page := map[row.key := Split(1.0, 2.0, 0, "", Active)], [row, row];
    assert Counts(table, page[1], 1, "a") && page[0].key == page[1].key;
    assert !NoRepeat(table, page, 1, "a");
    UpdatedExactIff(table, page, 1, "a");
  }

  // ----- reconciling absences -----

  predicate Live(split: Split) {
    split.status.Active? || split.status.Pending?
  }

  predicate InWindow(key: Key, start: int, through: int) {
    start <= key.ex <= through
  }

  function LiveKeys(table: Table, start: int, through: int): set<Key> {
    set key | key in table && Live(table[key]) && InWindow(key, start, through)
  }

  /** Too much is missing to believe the response. */
  predicate Alarming(live: set<Key>, observed: set<Key>) {
    var absent := live - observed;
    (live != {} && observed == {}) || |absent| > 3 || 5 * |absent| > |live|
  }

  function Advanced(split: Split, at: int): Split {
    match split.status
    case Active => split.(status := Pending(at))
    case Pending(_) => split.(status := Withdrawn(at))
    case Withdrawn(_) => split
  }

  function Reconciled(table: Table, observed: set<Key>, start: int, through: int, at: int): Table {
    var live := LiveKeys(table, start, through);
    if start > through || Alarming(live, observed) then table
    else map key | key in table :: if key in live - observed then Advanced(table[key], at) else table[key]
  }

  /** One call changes at most three rows, and at most a fifth of the live rows in its window. */
  lemma ReconcileIsBounded(table: Table, observed: set<Key>, start: int, through: int, at: int)
    ensures var changed := Changed(table, Reconciled(table, observed, start, through, at));
      |changed| <= 3 && 5 * |changed| <= |LiveKeys(table, start, through)|
  {
    var live := LiveKeys(table, start, through);
    var changed := Changed(table, Reconciled(table, observed, start, through, at));
    if Reconciled(table, observed, start, through, at) == table {
      assert changed == {};
    } else {
      SubsetSize(changed, live - observed);
    }
  }

  lemma {:induction false} SubsetSize(a: set<Key>, b: set<Key>)
    requires a <= b
    ensures |a| <= |b|
    decreases |a|
  {
    if a != {} {
      var k :| k in a;
      SubsetSize(a - {k}, b - {k});
    }
  }

  /** A live split of the window that the response lacks. */
  ghost predicate Absent(table: Table, observed: set<Key>, start: int, through: int, key: Key) {
    && key in table && (table[key].status == Active || table[key].status.Pending?)
    && start <= key.ex <= through && key !in observed
  }

  /** A response is acted on when it lacks at most three live splits, at most a fifth of them, and
      not all of them; then exactly the absent ones advance, from active to pending and from pending
      to withdrawn. */
  lemma AbsentAdvance(table: Table, observed: set<Key>, start: int, through: int, at: int)
    requires start <= through
    ensures var after := Reconciled(table, observed, start, through, at);
      var live := set key | key in table && (table[key].status == Active || table[key].status.Pending?) && start <= key.ex <= through;
      var absent := set key | key in table && Absent(table, observed, start, through, key);
      && after.Keys == table.Keys
      && forall key | key in table ::
           if |absent| <= 3 && 5 * |absent| <= |live| && (observed != {} || live == {}) && Absent(table, observed, start, through, key)
           then after[key] == table[key].(status := if table[key].status == Active then Pending(at) else Withdrawn(at))
           else after[key] == table[key]
  {
    var live := set key | key in table && (table[key].status == Active || table[key].status.Pending?) && start <= key.ex <= through;
    var absent := set key | key in table && Absent(table, observed, start, through, key);
    assert live == LiveKeys(table, start, through) && absent == live - observed;
  }

  // ----- the split factor of a bar -----

  datatype Bar = Bar(ticker: string, date: int, fetchedOn: int)

  predicate Applies(key: Key, split: Split, bar: Bar, cutoff: int) {
    Live(split) && key.ticker == bar.ticker && bar.date < key.ex <= cutoff && key.ex > bar.fetchedOn
  }

  /** The ratios that apply to a bar. */
  ghost function Ratios(table: Table, bar: Bar, cutoff: int): map<Key, (real, real)> {
    map key | key in table && Applies(key, table[key], bar, cutoff) :: (table[key].to, table[key].from)
  }

  /** Their product. */
  ghost function Factor(ratios: map<Key, (real, real)>): real {
    if ratios == map[] then 1.0 else
    var key := Pick(ratios);
    Quotient(ratios[key]) * Factor(ratios - {key})
  }

  ghost function Pick(ratios: map<Key, (real, real)>): (key: Key)
    requires ratios != map[]
    ensures key in ratios
  {
    var key :| key in ratios;
    key
  }

  function Quotient(ratio: (real, real)): real {
    if ratio.1 != 0.0 then ratio.0 / ratio.1 else 1.0
  }

  /** The product does not depend on the order. */
  lemma {:induction false} FactorTakes(ratios: map<Key, (real, real)>, key: Key)
    requires key in ratios
    ensures Factor(ratios) == Quotient(ratios[key]) * Factor(ratios - {key})
    decreases |ratios|
  {
    hide Quotient, Factor;
    var k := Pick(ratios);
    FactorPicks(ratios);
    if k != key {
      var less, other := ratios - {k}, ratios - {key};
      assert less - {key} == other - {k} && |less| == |ratios| - 1 == |other|;
      FactorTakes(less, key);
      FactorTakes(other, k);
      Swap(Quotient(ratios[k]), Quotient(ratios[key]), Factor(less - {key}));
    }
  }

  lemma {:induction false} FactorPicks(ratios: map<Key, (real, real)>)
    requires ratios != map[]
    ensures Factor(ratios) == Quotient(ratios[Pick(ratios)]) * Factor(ratios - {Pick(ratios)})
  {
    hide Quotient;
  }

  lemma Swap(x: real, y: real, z: real)
    ensures x * (y * z) == y * (x * z)
  {
  }

  /** One more split multiplies a bar's factor by to over from when it is not withdrawn, is of the
      bar's ticker, and its ex-date is after the bar and its fetch and not after the cutoff;
      otherwise it leaves the factor alone. No split at all gives one. */
  lemma OneMoreSplit(table: Table, key: Key, split: Split, bar: Bar, cutoff: int)
    requires key !in table && split.from != 0.0
    ensures var before, after := Factor(Ratios(table, bar, cutoff)), Factor(Ratios(table[key := split], bar, cutoff));
      after == (if !split.status.Withdrawn? && key.ticker == bar.ticker && bar.date < key.ex && bar.fetchedOn < key.ex && key.ex <= cutoff
                then split.to / split.from * before else before)
    ensures Factor(Ratios(map[], bar, cutoff)) == 1.0
  {
    var p, q := Ratios(table, bar, cutoff), Ratios(table[key := split], bar, cutoff);
    RatiosTake(table, key, split, bar, cutoff);
    assert Ratios(map[], bar, cutoff) == map[];
    assert Factor(map[]) == 1.0;
    hide Ratios, Factor;
    if key in q {
      FactorTakes(q, key);
    }
  }

  lemma RatiosTake(table: Table, key: Key, split: Split, bar: Bar, cutoff: int)
    requires key !in table
    ensures var p, q := Ratios(table, bar, cutoff), Ratios(table[key := split], bar, cutoff);
      && (key in q <==> Applies(key, split, bar, cutoff))
      && if key in q then q[key] == (split.to, split.from) && q - {key} == p else q == p
  {
    var p, q := Ratios(table, bar, cutoff), Ratios(table[key := split], bar, cutoff);
    hide Applies;
    assert q - {key} == p;
    if key !in q {
      assert q == p;
    }
  }

  /** The factor of a bar depends only on live rows: a first absence changes no bar, and a call
      that withdraws nothing relevant to a bar leaves it alone. */
  lemma AbsenceKeepsBars(table: Table, observed: set<Key>, start: int, through: int, at: int, bar: Bar, cutoff: int)
    requires forall key | key in table && table[key].status.Pending? && Applies(key, table[key], bar, cutoff) && InWindow(key, start, through) :: key in observed
    ensures Factor(Ratios(Reconciled(table, observed, start, through, at), bar, cutoff)) == Factor(Ratios(table, bar, cutoff))
  {
    var after := Reconciled(table, observed, start, through, at);
    var p, q := Ratios(table, bar, cutoff), Ratios(after, bar, cutoff);
    forall key
      ensures key in p <==> key in q
      ensures key in p ==> p[key] == q[key]
    {
    }
    assert p == q;
  }

  // ----- runs -----

  datatype Step =
    | Load(page: seq<Row>, fetched: int, sha: string)
    | Reconcile(observed: set<Key>, start: int, through: int, at: int)

  function Next(table: Table, step: Step): Table {
    match step
    case Load(page, fetched, sha) => Loaded(table, page, fetched, sha)
    case Reconcile(observed, start, through, at) => Reconciled(table, observed, start, through, at)
  }

  function After(steps: seq<Step>): Table {
    if steps == [] then map[] else Next(After(steps[..|steps| - 1]), steps[|steps| - 1])
  }

  /** The step is a reconciliation whose response lacked the key. */
  predicate Lacks(step: Step, key: Key) {
    step.Reconcile? && key !in step.observed && InWindow(key, step.start, step.through)
  }

  predicate IsPending(table: Table, key: Key) {
    key in table && table[key].status.Pending?
  }

  predicate IsWithdrawn(table: Table, key: Key) {
    key in table && table[key].status.Withdrawn?
  }

  /** Pending comes from pending or from a lacking reconciliation; withdrawn from withdrawn, or
      from pending by a lacking reconciliation. */
  lemma StatusStep(table: Table, step: Step, key: Key)
    ensures IsPending(Next(table, step), key) ==> IsPending(table, key) || Lacks(step, key)
    ensures IsWithdrawn(Next(table, step), key) ==> IsWithdrawn(table, key) || (IsPending(table, key) && Lacks(step, key))
  {
    if step.Load? {
      LoadedAt(table, step.page, step.fetched, step.sha, key);
    }
  }

  /** Pending since step `i`, which lacked the key, with no accepted observation after it. */
  ghost predicate PendingSince(steps: seq<Step>, key: Key, i: nat) {
    i < |steps| && Lacks(steps[i], key) && forall m | i < m <= |steps| :: IsPending(After(steps[..m]), key)
  }

  lemma {:induction false} PendingHasCause(steps: seq<Step>, key: Key)
    requires IsPending(After(steps), key)
    ensures exists i: nat :: PendingSince(steps, key, i)
  {
    var n := |steps| - 1;
    var before := steps[..n];
    StatusStep(After(before), steps[n], key);
    assert steps[..|steps|] == steps;
    if Lacks(steps[n], key) {
      assert PendingSince(steps, key, n);
    } else {
      PendingHasCause(before, key);
      var i: nat :| PendingSince(before, key, i);
      forall m | i < m <= |steps|
        ensures IsPending(After(steps[..m]), key)
      {
        if m <= n {
          assert before[..m] == steps[..m];
        }
      }
      assert PendingSince(steps, key, i);
    }
  }

  /** Two reconciliations lacked the key, and it stayed pending from the first to the second. */
  ghost predicate TwiceLacked(steps: seq<Step>, key: Key, i: nat, j: nat) {
    && i < j < |steps| && Lacks(steps[i], key) && Lacks(steps[j], key)
    && forall m | i < m <= j :: IsPending(After(steps[..m]), key)
  }

  /** In every run, a withdrawn split was absent from two reconciliations with no accepted
      observation between them. */
  lemma {:induction false} WithdrawnWasTwiceLacked(steps: seq<Step>, key: Key)
    requires IsWithdrawn(After(steps), key)
    ensures exists i: nat, j: nat :: TwiceLacked(steps, key, i, j)
  {
    var n := |steps| - 1;
    var before := steps[..n];
    StatusStep(After(before), steps[n], key);
    if IsWithdrawn(After(before), key) {
      WithdrawnWasTwiceLacked(before, key);
      var i: nat, j: nat :| TwiceLacked(before, key, i, j);
      forall m | i < m <= j
        ensures IsPending(After(steps[..m]), key)
      {
        assert before[..m] == steps[..m];
      }
      assert TwiceLacked(steps, key, i, j);
    } else {
      PendingHasCause(before, key);
      var i: nat :| PendingSince(before, key, i);
      forall m | i < m <= n
        ensures IsPending(After(steps[..m]), key)
      {
        assert before[..m] == steps[..m];
      }
      assert TwiceLacked(steps, key, i, n);
    }
  }

  // ----- the table, updated in place -----

  class SplitTable {
    var rows: Table

    constructor ()
      ensures rows == map[]
    {
      rows := map[];
    }

    /** Upsert a page and report how many rows came new and how many were eligible. */
    method LoadSplits(page: seq<Row>, fetched: int, sha: string) returns (inserted: nat, updated: nat)
      modifies this
      ensures rows == Loaded(old(rows), page, fetched, sha)
      ensures inserted == |rows| - |old(rows)| && updated == Updated(old(rows), page, fetched, sha)
    {
      var existing := rows;
      updated := 0;
      var i := 0;
      while i < |page|
        invariant 0 <= i <= |page|
        invariant rows == Loaded(existing, page[..i], fetched, sha) && |rows| >= |existing|
        invariant updated == Updated(existing, page[..i], fetched, sha)
      {
        assert page[..i + 1][..i] == page[..i];
        var row := page[i];
        if row.key in existing && Eligible(existing[row.key], fetched, sha) {
          updated := updated + 1;
        }
        if row.key !in rows || Eligible(rows[row.key], fetched, sha) {
          Grows(rows, row.key, Fresh(row, fetched, sha));
          rows := rows[row.key := Fresh(row, fetched, sha)];
        }
        i := i + 1;
      }
      assert page[..i] == page;
      inserted := |rows| - |existing|;
    }

    /** Advance believable absences. */
    method ReconcileSplits(observed: set<Key>, start: int, through: int, at: int)
        returns (r: Result<(nat, nat, bool)>)
      modifies this
      ensures r.Err? <==> start > through
      ensures rows == Reconciled(old(rows), observed, start, through, at)
      ensures r.Ok? ==> (r.value.2 <==> Alarming(LiveKeys(old(rows), start, through), observed))
      ensures r.Ok? && r.value.2 ==> r.value.0 == r.value.1 == 0
      ensures r.Ok? && !r.value.2 ==>
        var absent := LiveKeys(old(rows), start, through) - observed;
        && r.value.0 == |set key | key in absent && old(rows)[key].status.Active?|
        && r.value.1 == |set key | key in absent && old(rows)[key].status.Pending?|
    {
      if start > through {
        return Err;
      }
      var live := LiveKeys(rows, start, through);
      if Alarming(live, observed) {
        return Ok((0, 0, true));
      }
      var absent := live - observed;
      var pending := set key | key in absent && rows[key].status.Active?;
      var withdrawn := set key | key in absent && rows[key].status.Pending?;
      assert absent == pending + withdrawn && pending !! withdrawn;
      rows := map key | key in rows ::
        if key in pending then rows[key].(status := Pending(at))
        else if key in withdrawn then rows[key].(status := Withdrawn(at)) else rows[key];
      r := Ok((|pending|, |withdrawn|, false));
    }
  }

  lemma Grows(table: Table, key: Key, split: Split)
    ensures |table[key := split]| >= |table|
  {
    SubsetSize(table.Keys, table[key := split].Keys);
  }
}
