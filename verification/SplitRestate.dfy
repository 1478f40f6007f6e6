/** One ticker's stored bars around a split: finding the scale break, exempting bars already on
    the new scale, and restating history. Log-space tolerances are multiplicative here: within
    8% means a factor between 1/1.08 and 1.08. */
module SplitRestate {
  import opened Options
  import opened Arithmetic

  /** A stored bar; `fetched` is a timestamp, `first` the day the bar was first stored. */
  datatype Bar = Bar(
    date: int, open: Option<real>, high: Option<real>, low: Option<real>, close: Option<real>, volume: Option<int>,
    fetched: Option<int>, first: Option<int>)

  datatype Session = Session(date: int, close: real, fetched: Option<int>, first: Option<int>)

  const SEARCH_BEFORE := 15
  const SEARCH_AFTER := 10
  const NEAR_SESSIONS := 5
  const RECENT_SESSIONS := 10

  /** The bars are keyed and ordered by date. */
  ghost predicate Dated(rows: seq<Bar>) {
    forall i, j | 0 <= i < j < |rows| :: rows[i].date < rows[j].date
  }

  ghost predicate DatedSessions(win: seq<Session>) {
    forall i, j | 0 <= i < j < |win| :: win[i].date < win[j].date
  }

  /** The bars that have a close. */
  function Sessions(rows: seq<Bar>): seq<Session> {
    if rows == [] then [] else
    var bar := rows[|rows| - 1];
    Sessions(rows[..|rows| - 1]) + if bar.close.Some? then [Session(bar.date, bar.close.value, bar.fetched, bar.first)] else []
  }

  /** Both closes are positive and prev over new is within 8% of the ratio. */
  predicate Match(prev: real, cur: real, ratio: real) {
    prev > 0.0 && cur > 0.0 && ratio * cur <= 1.08 * prev && prev <= 1.08 * (ratio * cur)
  }

  /** Within 8% of no move at all. */
  predicate Continuous(prev: real, cur: real) {
    prev > 0.0 && cur > 0.0 && cur <= 1.08 * prev && prev <= 1.08 * cur
  }

  lemma MatchedContinuous(prev: real, cur: real, ratio: real)
    requires ratio > 0.0 && Match(prev, cur, ratio)
    ensures Continuous(prev / ratio, cur)
  {
    var q := prev / ratio;
    assert q * ratio == prev;
    DivideThrough(ratio, cur, 1.08 * q);
    DivideThrough(ratio, q, 1.08 * cur);
    if q <= 0.0 {
      DivideThrough(ratio, 0.0, q);
    }
  }

  lemma DivideThrough(ratio: real, a: real, b: real)
    requires ratio > 0.0 && ratio * a <= ratio * b
    ensures a <= b
  {
    assert ratio * (b - a) == ratio * b - ratio * a;
  }

  // ----- islands of bars already on the new scale -----

  /** The step into bar `i` looks like old scale to new scale. */
  predicate Enters(win: seq<Session>, ratio: real, i: int)
    requires 1 <= i < |win|
  {
    Match(win[i - 1].close, win[i].close, ratio)
  }

  /** The step into bar `i` looks like new scale back to old scale. */
  predicate Leaves(win: seq<Session>, ratio: real, i: int)
    requires 1 <= i < |win|
  {
    Match(win[i].close, win[i - 1].close, ratio)
  }

  predicate BothPositive(win: seq<Session>, i: int)
    requires 1 <= i < |win|
  {
    win[i - 1].close > 0.0 && win[i].close > 0.0
  }

  /** The scan is inside a new-scale run that began at `s` when it has read the bars before `n`. */
  ghost predicate Inside(win: seq<Session>, ratio: real, s: int, n: int)
    requires n <= |win|
  {
    && 1 <= s < n && Enters(win, ratio, s)
    && forall m | s < m < n :: BothPositive(win, m) && !Enters(win, ratio, m) && !Leaves(win, ratio, m)
  }

  /** Bars `s` up to `e` are an island: entered, left within the limit, nothing between. */
  ghost predicate Island(win: seq<Session>, ratio: real, s: int, e: int) {
    && 1 <= s < e < |win| && e - s <= NEAR_SESSIONS
    && Inside(win, ratio, s, e) && !Enters(win, ratio, e) && Leaves(win, ratio, e)
  }

  ghost predicate OnIsland(win: seq<Session>, ratio: real, k: int) {
    exists s, e :: Island(win, ratio, s, e) && s <= k < e
  }

  ghost predicate IslandBefore(win: seq<Session>, ratio: real, k: int, n: int) {
    exists s, e :: Island(win, ratio, s, e) && s <= k < e && e < n
  }

  lemma MatchPositive(win: seq<Session>, ratio: real, i: int)
    requires 1 <= i < |win|
    ensures Enters(win, ratio, i) || Leaves(win, ratio, i) ==> BothPositive(win, i)
  {
  }

  /** `start` is where the open run began, 0 when none is open. */
  ghost predicate OpenRun(win: seq<Session>, ratio: real, start: int, n: int)
    requires n <= |win|
  {
    (start == 0 || Inside(win, ratio, start, n)) && forall s :: Inside(win, ratio, s, n) ==> s == start
  }

  function NextStart(win: seq<Session>, ratio: real, start: nat, i: nat): nat
    requires 1 <= i < |win|
  {
    if !BothPositive(win, i) then 0
    else if Enters(win, ratio, i) then i
    else if start != 0 && Leaves(win, ratio, i) then 0
    else start
  }

  lemma OpenRunStep(win: seq<Session>, ratio: real, start: nat, i: nat)
    requires 1 <= i < |win| && OpenRun(win, ratio, start, i)
    ensures OpenRun(win, ratio, NextStart(win, ratio, start, i), i + 1)
  {
    hide Match;
    MatchPositive(win, ratio, i);
    var next := NextStart(win, ratio, start, i);
    assert next == 0 || Inside(win, ratio, next, i + 1);
    var n := i + 1;
    forall s | Inside(win, ratio, s, n)
      ensures s == next
    {
      if s != i {
        assert Inside(win, ratio, s, i);
        assert !Enters(win, ratio, i) && !Leaves(win, ratio, i);
      }
    }
  }

  /** At most one run is open at a time, so the islands ending at bar `i` are those of `start`. */
  lemma IslandStep(win: seq<Session>, ratio: real, start: nat, i: nat, k: nat)
    requires 1 <= i < |win| && OpenRun(win, ratio, start, i)
    ensures IslandBefore(win, ratio, k, i + 1) <==>
      IslandBefore(win, ratio, k, i) || (start <= k < i && IsIsland(win, ratio, start, i))
  {
    hide Match, Enters, Leaves;
    MatchPositive(win, ratio, i);
    if start <= k < i && IsIsland(win, ratio, start, i) {
      assert Island(win, ratio, start, i);
    }
    if IslandBefore(win, ratio, k, i + 1) {
      var s, e :| Island(win, ratio, s, e) && s <= k < e && e < i + 1;
      assert e == i ==> s == start;
    }
  }

  predicate IsIsland(win: seq<Session>, ratio: real, start: nat, i: nat)
    requires 1 <= i < |win|
  {
    BothPositive(win, i) && !Enters(win, ratio, i) && start != 0 && Leaves(win, ratio, i) && i - start <= NEAR_SESSIONS
  }

  lemma RangeHas(a: nat, b: nat, k: nat)
    requires a <= b
    ensures k in Range(a, b) <==> a <= k < b
  {
    if a <= k < b {
      assert Range(a, b)[k - a] == k;
    }
  }

  /** The source's scan, by bar index. */
  method NewScaleIslands(win: seq<Session>, ratio: real) returns (islands: seq<nat>)
    ensures forall k: nat :: k in islands <==> OnIsland(win, ratio, k)
  {
    hide Match, Enters, Leaves, BothPositive, IslandBefore, OpenRun;
    islands := [];
    var start: nat := 0; // 0 while no run is open
    var i := 1;
    NoIslandYet(win, ratio);
    while i < |win|
      invariant 1 <= i && (i <= |win| || (|win| == 0 && i == 1))
      invariant i <= |win| ==> start < i && OpenRun(win, ratio, start, i)
      invariant forall k: nat :: k in islands <==> IslandBefore(win, ratio, k, i)
    {
      ghost var before := islands;
      OpenRunStep(win, ratio, start, i);
      if !BothPositive(win, i) {
        StepAll(win, ratio, start, i, before, islands);
        start := 0;
      } else if Enters(win, ratio, i) {
        StepAll(win, ratio, start, i, before, islands);
        start := i;
      } else if start != 0 && Leaves(win, ratio, i) {
        if i - start <= NEAR_SESSIONS {
          islands := islands + Range(start, i);
        }
        StepAll(win, ratio, start, i, before, islands);
        start := 0;
      } else {
        StepAll(win, ratio, start, i, before, islands);
      }
      i := i + 1;
    }
    AllIslands(win, ratio, i);
  }

  lemma StepAll(win: seq<Session>, ratio: real, start: nat, i: nat, before: seq<nat>, after: seq<nat>)
    requires 1 <= i < |win| && start < i && OpenRun(win, ratio, start, i)
    requires forall k: nat :: k in before <==> IslandBefore(win, ratio, k, i)
    requires after == if IsIsland(win, ratio, start, i) then before + Range(start, i) else before
    ensures forall k: nat :: k in after <==> IslandBefore(win, ratio, k, i + 1)
  {
    hide IsIsland, OpenRun, IslandBefore;
    forall k: nat
      ensures k in after <==> IslandBefore(win, ratio, k, i + 1)
    {
      IslandStep(win, ratio, start, i, k);
      RangeHas(start, i, k);
    }
  }

  lemma NoIslandYet(win: seq<Session>, ratio: real)
    ensures forall k: nat :: !IslandBefore(win, ratio, k, 1)
    ensures 1 <= |win| ==> OpenRun(win, ratio, 0, 1)
  {
  }

  lemma AllIslands(win: seq<Session>, ratio: real, n: int)
    requires n >= |win|
    ensures forall k: nat :: IslandBefore(win, ratio, k, n) <==> OnIsland(win, ratio, k)
  {
  }

  // ----- adjudication -----

  datatype Outcome =
    | Applied | NoopRestated | NoopPreHistory | SkippedAmbiguous | SkippedNoBars | SkippedSanity
    | SkippedNoBreakNearEx | SkippedAlreadyAdjusted

  datatype Verdict = Verdict(outcome: Outcome, breakDate: Option<int>, observed: Option<real>, keep: seq<int>)

  /** How many sessions lie before the date. */
  function CountBefore(series: seq<Session>, ex: int): (n: nat)
    ensures n <= |series|
    ensures n < |series| ==> series[n].date >= ex
    ensures forall i | 0 <= i < n :: series[i].date < ex
  {
    if series == [] || series[0].date >= ex then 0 else
    var n := 1 + CountBefore(series[1..], ex);
    assert forall i | 1 <= i < n :: series[i] == series[1..][i - 1];
    n
  }

  function CountFrom(rows: seq<Bar>, ex: int): nat {
    if rows == [] then 0 else CountFrom(rows[..|rows| - 1], ex) + if rows[|rows| - 1].date >= ex then 1 else 0
  }

  lemma {:induction false} CountFromIs(rows: seq<Bar>, ex: int)
    ensures CountFrom(rows, ex) == |set i | 0 <= i < |rows| && ex <= rows[i].date|
  {
    var all := set i | 0 <= i < |rows| && ex <= rows[i].date;
    if rows != [] {
      var n := |rows| - 1;
      CountFromIs(rows[..n], ex);
      var before := set i | 0 <= i < n && ex <= rows[..n][i].date;
      assert all == before + if ex <= rows[n].date then {n} else {};
    }
  }

  function WindowStart(series: seq<Session>, ex: int): (lo: nat)
    ensures lo <= CountBefore(series, ex)
  {
    var b := CountBefore(series, ex);
    if b < SEARCH_BEFORE then 0 else b - SEARCH_BEFORE
  }

  /** The sessions searched: at most 15 before the date and 10 from it on. */
  function Window(series: seq<Session>, ex: int): seq<Session> {
    var b := CountBefore(series, ex);
    series[WindowStart(series, ex)..if b + SEARCH_AFTER < |series| then b + SEARCH_AFTER else |series|]
  }

  function Distance(i: int, x: int): nat {
    if i < x then x - i else i - x
  }

  /** At most five sessions from the ex session, or anywhere after a recent one. */
  predicate WellPlaced(x: int, recent: bool, i: int): (ok: bool)
    ensures ok <==> x - 5 <= i <= x + 5 || (recent && x < i)
  {
    Distance(i, x) <= NEAR_SESSIONS || (recent && i > x)
  }

  predicate Candidate(win: seq<Session>, ratio: real, x: int, recent: bool, placed: bool, i: int) {
    1 <= i < |win| && Enters(win, ratio, i) && WellPlaced(x, recent, i) == placed
  }

  /** `best` is the matching jump nearest the ex session before bar `n`, the earlier on a tie. */
  ghost predicate BestOf(win: seq<Session>, ratio: real, x: int, recent: bool, placed: bool, n: int, best: Option<nat>) {
    && (best.Some? ==> best.value < n && Candidate(win, ratio, x, recent, placed, best.value))
    && forall j | j < n && Candidate(win, ratio, x, recent, placed, j) ::
      best.Some? && (Distance(best.value, x) < Distance(j, x) || (Distance(best.value, x) == Distance(j, x) && best.value <= j))
  }

  /** The size of a one-session move, in either direction. */
  function Move(win: seq<Session>, i: int): (size: real)
    requires 1 <= i < |win| && BothPositive(win, i)
    ensures size >= 1.0 && (size * win[i].close == win[i - 1].close || size * win[i - 1].close == win[i].close)
  {
    var up := win[i - 1].close / win[i].close;
    var down := win[i].close / win[i - 1].close;
    QuotientsInverse(win[i - 1].close, win[i].close);
    if up > down then up else down
  }

  lemma QuotientsInverse(a: real, b: real)
    requires a > 0.0 && b > 0.0
    ensures a / b * b == a && b / a * a == b && (a / b >= 1.0 || b / a >= 1.0)
  {
    var p, q := a / b, b / a;
    assert p * b == a && q * a == b;
    if a >= b {
      assert (p - 1.0) * b >= 0.0;
    } else {
      assert (q - 1.0) * a >= 0.0;
    }
  }

  predicate Adjacent(win: seq<Session>, x: int, i: int) {
    1 <= i < |win| && BothPositive(win, i) && Distance(i, x) <= 4
  }

  ghost predicate WorstMove(win: seq<Session>, x: int, n: int, worst: real) {
    && (forall i | i < n && Adjacent(win, x, i) :: Move(win, i) <= worst)
    && (worst == 1.0 || exists i | i < n && Adjacent(win, x, i) :: Move(win, i) == worst)
    && worst >= 1.0
  }

  lemma ScanStart(win: seq<Session>, ratio: real, x: int, recent: bool)
    ensures BestOf(win, ratio, x, recent, true, 1, None) && BestOf(win, ratio, x, recent, false, 1, None) && WorstMove(win, x, 1, 1.0)
    ensures |win| == 0 ==> BestOf(win, ratio, x, recent, true, 0, None) && BestOf(win, ratio, x, recent, false, 0, None) && WorstMove(win, x, 0, 1.0)
  {
  }

  lemma BestStep(win: seq<Session>, ratio: real, x: int, recent: bool, placed: bool, i: nat, best: Option<nat>)
    requires BestOf(win, ratio, x, recent, placed, i, best)
    ensures Candidate(win, ratio, x, recent, placed, i) && (best.None? || Distance(i, x) < Distance(best.value, x))
      ==> BestOf(win, ratio, x, recent, placed, i + 1, Some(i))
    ensures !(Candidate(win, ratio, x, recent, placed, i) && (best.None? || Distance(i, x) < Distance(best.value, x)))
      ==> BestOf(win, ratio, x, recent, placed, i + 1, best)
  {
    hide Enters, WellPlaced;
  }

  lemma WorstStep(win: seq<Session>, x: int, i: nat, worst: real)
    requires WorstMove(win, x, i, worst) && 1 <= i < |win|
    ensures Adjacent(win, x, i) && Move(win, i) > worst ==> WorstMove(win, x, i + 1, Move(win, i))
    ensures !(Adjacent(win, x, i) && Move(win, i) > worst) ==> WorstMove(win, x, i + 1, worst)
  {
    hide Move, BothPositive;
  }

  /** One pass over the window for the best placed jump, the best misplaced one and the worst
      move beside the ex session. */
  method ScanWindow(win: seq<Session>, ratio: real, x: int, recent: bool) returns (near: Option<nat>, far: Option<nat>, worst: real)
    ensures BestOf(win, ratio, x, recent, true, |win|, near) && BestOf(win, ratio, x, recent, false, |win|, far)
    ensures WorstMove(win, x, |win|, worst)
  {
    hide Match, BestOf, WorstMove, Enters, Move, BothPositive;
    near, far, worst := None, None, 1.0;
    ScanStart(win, ratio, x, recent);
    if win == [] {
      return;
    }
    var i := 1;
    while i < |win|
      invariant 1 <= i <= |win|
      invariant BestOf(win, ratio, x, recent, true, i, near) && BestOf(win, ratio, x, recent, false, i, far)
      invariant WorstMove(win, x, i, worst)
    {
      MatchPositive(win, ratio, i);
      BestStep(win, ratio, x, recent, true, i, near);
      BestStep(win, ratio, x, recent, false, i, far);
      WorstStep(win, x, i, worst);
      if BothPositive(win, i) {
        if Distance(i, x) <= 4 && Move(win, i) > worst {
          worst := Move(win, i);
        }
        if Enters(win, ratio, i) {
          if WellPlaced(x, recent, i) {
            if near.None? || Distance(i, x) < Distance(near.value, x) {
              near := Some(i);
            }
          } else if far.None? || Distance(i, x) < Distance(far.value, x) {
            far := Some(i);
          }
        }
      }
      i := i + 1;
    }
  }

  /** A bar on the old scale whose first storing is not before the ex-date. */
  ghost predicate StoredLate(win: seq<Session>, ratio: real, i: nat, ex: int)
    requires i <= |win|
  {
    exists k | 0 <= k < i :: !OnIsland(win[..i], ratio, k) && win[k].first.Some? && win[k].first.value >= ex
  }

  ghost predicate OldFetched(win: seq<Session>, ratio: real, i: nat, k: int)
    requires i <= |win|
  {
    0 <= k < i && !OnIsland(win[..i], ratio, k) && win[k].fetched.Some?
  }

  /** A recorded rewrite explains the latest fetch of the old-scale bars. */
  ghost predicate Explained(win: seq<Session>, ratio: real, i: nat, rewrite: (int, int) -> bool)
    requires i < |win|
  {
    exists k :: OldFetched(win, ratio, i, k) && rewrite(win[i].date, win[k].fetched.value)
      && forall m | OldFetched(win, ratio, i, m) :: win[m].fetched.value <= win[k].fetched.value
  }

  /** The dates kept are those of the new-scale bars before the break. */
  ghost predicate Keeps(win: seq<Session>, ratio: real, i: nat, keep: seq<int>)
    requires i <= |win|
  {
    forall d :: d in keep <==> exists k | 0 <= k < i :: OnIsland(win[..i], ratio, k) && win[k].date == d
  }

  ghost predicate Ruled(win: seq<Session>, ex: int, ratio: real, rewrite: (int, int) -> bool, i: nat, v: Verdict)
    requires 1 <= i < |win| && BothPositive(win, i)
  {
    && v.breakDate == Some(win[i].date) && v.observed == Some(win[i - 1].close / win[i].close)
    && if StoredLate(win, ratio, i, ex) && !Explained(win, ratio, i, rewrite)
       then v.outcome.SkippedAlreadyAdjusted? && v.keep == []
       else v.outcome.Applied? && Keeps(win, ratio, i, v.keep)
  }

  ghost predicate ListsIslands(win: seq<Session>, ratio: real, i: nat, islands: seq<nat>)
    requires i <= |win|
  {
    forall k: nat :: k in islands <==> OnIsland(win[..i], ratio, k)
  }

  method AnyStoredLate(win: seq<Session>, ratio: real, i: nat, islands: seq<nat>, ex: int) returns (late: bool)
    requires i <= |win| && ListsIslands(win, ratio, i, islands)
    ensures late <==> StoredLate(win, ratio, i, ex)
  {
    hide OnIsland;
    late := false;
    for k := 0 to i
      invariant late <==> exists m | 0 <= m < k :: !OnIsland(win[..i], ratio, m) && win[m].first.Some? && win[m].first.value >= ex
    {
      late := late || (k !in islands && win[k].first.Some? && win[k].first.value >= ex);
    }
  }

  method LatestFetched(win: seq<Session>, ratio: real, i: nat, islands: seq<nat>) returns (latest: Option<nat>)
    requires i <= |win| && ListsIslands(win, ratio, i, islands)
    ensures latest.Some? ==> OldFetched(win, ratio, i, latest.value)
    ensures forall m | OldFetched(win, ratio, i, m) :: latest.Some? && win[m].fetched.value <= win[latest.value].fetched.value
  {
    hide OnIsland;
    latest := None;
    for k := 0 to i
      invariant latest.Some? ==> OldFetched(win, ratio, i, latest.value)
      invariant forall m | m < k && OldFetched(win, ratio, i, m) :: latest.Some? && win[m].fetched.value <= win[latest.value].fetched.value
    {
      if k !in islands && win[k].fetched.Some? && (latest.None? || win[latest.value].fetched.value < win[k].fetched.value) {
        latest := Some(k);
      }
    }
  }

  method KeptDates(win: seq<Session>, ratio: real, i: nat, islands: seq<nat>) returns (keep: seq<int>)
    requires i <= |win| && ListsIslands(win, ratio, i, islands)
    ensures Keeps(win, ratio, i, keep)
  {
    hide OnIsland;
    keep := [];
    for k := 0 to i
      invariant forall d :: d in keep <==> exists m | 0 <= m < k :: OnIsland(win[..i], ratio, m) && win[m].date == d
    {
      if k in islands {
        keep := keep + [win[k].date];
      }
    }
  }

  /** Apply the provenance rule to the break at bar `i`. */
  method Rule(win: seq<Session>, ex: int, ratio: real, rewrite: (int, int) -> bool, i: nat) returns (v: Verdict)
    requires 1 <= i < |win| && BothPositive(win, i)
    ensures Ruled(win, ex, ratio, rewrite, i, v)
  {
    hide OnIsland, Keeps, StoredLate, Explained, OldFetched;
    var islands := NewScaleIslands(win[..i], ratio);
    var late := AnyStoredLate(win, ratio, i, islands, ex);
    var latest := LatestFetched(win, ratio, i, islands);
    FetchedAt(win, ratio, i, latest);
    LatestExplains(win, ratio, i, rewrite, latest);
    var observed := Some(win[i - 1].close / win[i].close);
    if late && !(latest.Some? && rewrite(win[i].date, win[latest.value].fetched.value)) {
      v := Verdict(SkippedAlreadyAdjusted, Some(win[i].date), observed, []);
    } else {
      var keep := KeptDates(win, ratio, i, islands);
      v := Verdict(Applied, Some(win[i].date), observed, keep);
    }
  }

  lemma FetchedAt(win: seq<Session>, ratio: real, i: nat, k: Option<nat>)
    requires i <= |win| && (k.Some? ==> OldFetched(win, ratio, i, k.value))
    ensures k.Some? ==> k.value < i && win[k.value].fetched.Some?
  {
  }

  lemma LatestExplains(win: seq<Session>, ratio: real, i: nat, rewrite: (int, int) -> bool, latest: Option<nat>)
    requires i < |win| && (latest.Some? ==> OldFetched(win, ratio, i, latest.value))
    requires forall m | OldFetched(win, ratio, i, m) :: latest.Some? && win[m].fetched.value <= win[latest.value].fetched.value
    ensures (latest.Some? && rewrite(win[i].date, win[latest.value].fetched.value)) <==> Explained(win, ratio, i, rewrite)
  {
    hide OnIsland;
  }

  ghost predicate Concludes(win: seq<Session>, ex: int, ratio: real, rewrite: (int, int) -> bool, near: Option<nat>, far: Option<nat>, worst: real, v: Verdict) {
    if near.Some? then 1 <= near.value < |win| && BothPositive(win, near.value) && Ruled(win, ex, ratio, rewrite, near.value, v)
    else if far.Some? then
      && 1 <= far.value < |win| && BothPositive(win, far.value)
      && v == Verdict(SkippedNoBreakNearEx, Some(win[far.value].date), Some(win[far.value - 1].close / win[far.value].close), [])
    else if worst > 1.44 then v == Verdict(SkippedSanity, None, Some(worst), [])
    else v == Verdict(NoopRestated, None, None, [])
  }

  ghost predicate Scanned(win: seq<Session>, ratio: real, x: int, recent: bool, near: Option<nat>, far: Option<nat>, worst: real) {
    && BestOf(win, ratio, x, recent, true, |win|, near) && BestOf(win, ratio, x, recent, false, |win|, far)
    && WorstMove(win, x, |win|, worst)
  }

  /** What the stored series says about a split. */
  ghost predicate Decides(rows: seq<Bar>, ex: int, ratio: real, rewrite: (int, int) -> bool, v: Verdict) {
    if ratio <= 0.0 then v == Verdict(SkippedSanity, None, None, [])
    else if 1.0 < 1.44 * ratio && ratio < 1.44 then v == Verdict(SkippedAmbiguous, None, None, [])
    else if rows == [] then v == Verdict(SkippedNoBars, None, None, [])
    else if rows[0].date >= ex then v == Verdict(NoopPreHistory, None, None, [])
    else
      var series := Sessions(rows);
      var win, x := Window(series, ex), CountBefore(series, ex) - WindowStart(series, ex);
      if |win| < 2 || x >= |win| then v == Verdict(SkippedNoBars, None, None, [])
      else exists near, far, worst ::
        Scanned(win, ratio, x, CountFrom(rows, ex) <= RECENT_SESSIONS, near, far, worst)
        && Concludes(win, ex, ratio, rewrite, near, far, worst, v)
  }

  method Adjudicate(rows: seq<Bar>, ex: int, ratio: real, rewrite: (int, int) -> bool) returns (v: Verdict)
    ensures Decides(rows, ex, ratio, rewrite, v)
  {
    hide Ruled, BestOf, WorstMove;
    if ratio <= 0.0 {
      return Verdict(SkippedSanity, None, None, []);
    }
    if 1.0 < 1.44 * ratio && ratio < 1.44 {
      return Verdict(SkippedAmbiguous, None, None, []);
    }
    if rows == [] {
      return Verdict(SkippedNoBars, None, None, []);
    }
    if rows[0].date >= ex {
      return Verdict(NoopPreHistory, None, None, []);
    }
    var series := Sessions(rows);
    var win, x := Window(series, ex), CountBefore(series, ex) - WindowStart(series, ex);
    if |win| < 2 || x >= |win| {
      return Verdict(SkippedNoBars, None, None, []);
    }
    var recent := CountFrom(rows, ex) <= RECENT_SESSIONS;
    var near, far, worst := ScanWindow(win, ratio, x, recent);
    assert Scanned(win, ratio, x, recent, near, far, worst);
    BestIsCandidate(win, ratio, x, recent, true, near);
    BestIsCandidate(win, ratio, x, recent, false, far);
    if near.Some? {
      v := Rule(win, ex, ratio, rewrite, near.value);
    } else if far.Some? {
      v := Verdict(SkippedNoBreakNearEx, Some(win[far.value].date), Some(win[far.value - 1].close / win[far.value].close), []);
    } else if worst > 1.44 {
      v := Verdict(SkippedSanity, None, Some(worst), []);
    } else {
      v := Verdict(NoopRestated, None, None, []);
    }
    assert Concludes(win, ex, ratio, rewrite, near, far, worst, v);
  }

  lemma BestIsCandidate(win: seq<Session>, ratio: real, x: int, recent: bool, placed: bool, best: Option<nat>)
    requires BestOf(win, ratio, x, recent, placed, |win|, best)
    ensures best.Some? ==> 1 <= best.value < |win| && BothPositive(win, best.value) && Enters(win, ratio, best.value)
  {
  }

  // ----- restatement -----

  function Scaled(date: int, close: real, ratio: real, brk: int, keep: seq<int>): real
    requires ratio != 0.0
  {
    if date < brk && date !in keep then close / ratio else close
  }

  function Divided(price: Option<real>, ratio: real): Option<real>
    requires ratio != 0.0
  {
    if price.None? then None else Some(price.value / ratio)
  }

  /** SQL's ROUND: halves away from zero. */
  function Rounded(x: real): int {
    if x >= 0.0 then (x + 0.5).Floor else -((0.5 - x).Floor)
  }

  predicate Restates(bar: Bar, brk: int, keep: seq<int>) {
    bar.date < brk && bar.date !in keep
  }

  /** Prices divided, volume multiplied. */
  function RestatedBar(bar: Bar, ratio: real, brk: int, keep: seq<int>): Bar
    requires ratio != 0.0
  {
    if !Restates(bar, brk, keep) then bar else
    bar.(open := Divided(bar.open, ratio), high := Divided(bar.high, ratio), low := Divided(bar.low, ratio),
         close := Divided(bar.close, ratio),
         volume := if bar.volume.None? then None else Some(Rounded(bar.volume.value as real * ratio)))
  }

  /** A bar whose low, open, close and high are in order. */
  predicate InRange(bar: Bar) {
    && bar.open.Some? && bar.high.Some? && bar.low.Some? && bar.close.Some?
    && bar.low.value <= bar.open.value <= bar.high.value && bar.low.value <= bar.close.value <= bar.high.value
  }

  /** Restating keeps a bar's range in order and turns no bar into an ordered one. */
  lemma RestatedInRange(bar: Bar, ratio: real, brk: int, keep: seq<int>)
    requires ratio > 0.0
    ensures InRange(RestatedBar(bar, ratio, brk, keep)) <==> InRange(bar)
  {
    if bar.open.Some? && bar.high.Some? && bar.low.Some? && bar.close.Some? {
      QuotientOrder(bar.low.value, bar.open.value, ratio);
      QuotientOrder(bar.open.value, bar.high.value, ratio);
      QuotientOrder(bar.low.value, bar.close.value, ratio);
      QuotientOrder(bar.close.value, bar.high.value, ratio);
    }
  }

  lemma QuotientOrder(a: real, b: real, ratio: real)
    requires ratio > 0.0
    ensures a / ratio <= b / ratio <==> a <= b
  {
    var p, q := a / ratio, b / ratio;
    assert p * ratio == a && q * ratio == b;
    if a <= b {
      DivideThrough(ratio, p, q);
    }
    if p <= q {
      assert (q - p) * ratio >= 0.0;
    }
  }

  function RestatedBars(rows: seq<Bar>, ratio: real, brk: int, keep: seq<int>): (r: seq<Bar>)
    requires ratio != 0.0
    ensures |r| == |rows| && forall i | 0 <= i < |r| :: r[i] == RestatedBar(rows[i], ratio, brk, keep)
  {
    seq(|rows|, i requires 0 <= i < |rows| => RestatedBar(rows[i], ratio, brk, keep))
  }

  /** A price over the ratio, or still none. */
  ghost predicate OverRatio(price: Option<real>, now: Option<real>, ratio: real) {
    (now.None? <==> price.None?) && (price.Some? ==> now.value * ratio == price.value)
  }

  /** What restating does to one bar: before the break and not kept, every price is over the ratio
      and the volume is the nearest whole number to its product with it; otherwise nothing. */
  ghost predicate Rewritten(bar: Bar, now: Bar, ratio: real, brk: int, keep: seq<int>) {
    if bar.date >= brk || bar.date in keep then now == bar
    else
      && OverRatio(bar.open, now.open, ratio) && OverRatio(bar.high, now.high, ratio)
      && OverRatio(bar.low, now.low, ratio) && OverRatio(bar.close, now.close, ratio)
      && now == bar.(open := now.open, high := now.high, low := now.low, close := now.close, volume := now.volume)
      && (now.volume.None? <==> bar.volume.None?)
      && (bar.volume.Some? ==> -0.5 <= now.volume.value as real - bar.volume.value as real * ratio <= 0.5)
  }

  lemma RestatedIsRewritten(bar: Bar, ratio: real, brk: int, keep: seq<int>)
    requires ratio != 0.0
    ensures Rewritten(bar, RestatedBar(bar, ratio, brk, keep), ratio, brk, keep)
  {
    if Restates(bar, brk, keep) {
      QuotientTimes(bar.open, ratio);
      QuotientTimes(bar.high, ratio);
      QuotientTimes(bar.low, ratio);
      QuotientTimes(bar.close, ratio);
      if bar.volume.Some? {
        NearestWhole(bar.volume.value as real * ratio);
      }
    }
  }

  lemma QuotientTimes(price: Option<real>, ratio: real)
    requires ratio != 0.0
    ensures OverRatio(price, Divided(price, ratio), ratio)
  {
  }

  /** Rounding goes to the nearest whole number, halves away from zero. */
  lemma NearestWhole(x: real)
    ensures -0.5 <= Rounded(x) as real - x <= 0.5
    ensures (Rounded(x) as real - x == 0.5 ==> x > 0.0) && (Rounded(x) as real - x == -0.5 ==> x < 0.0)
  {
  }

  /** A restated bar's turnover is its old one, within half of one share at the new price. */
  lemma TurnoverKept(bar: Bar, ratio: real, brk: int, keep: seq<int>)
    requires ratio > 0.0 && bar.close.Some? && bar.close.value >= 0.0 && bar.volume.Some?
    ensures var now := RestatedBar(bar, ratio, brk, keep);
      && now.close.Some? && now.volume.Some?
      && var drift := now.close.value * now.volume.value as real - bar.close.value * bar.volume.value as real;
         -now.close.value / 2.0 <= drift <= now.close.value / 2.0
  {
    RestatedIsRewritten(bar, ratio, brk, keep);
    var now := RestatedBar(bar, ratio, brk, keep);
    var close, volume := bar.close.value, bar.volume.value as real;
    if Restates(bar, brk, keep) {
      hide RestatedBar;
      NonNegativeQuotient(now.close.value, ratio, close);
      TurnoverDrift(now.close.value, now.volume.value as real, ratio, close, volume);
    }
  }

  lemma NonNegativeQuotient(p: real, ratio: real, close: real)
    requires p * ratio == close && ratio > 0.0 && close >= 0.0
    ensures p >= 0.0
  {
    if p < 0.0 {
      PositiveProduct(0.0 - p, ratio, 0.0 - close);
    }
  }

  lemma TurnoverDrift(p: real, v: real, ratio: real, close: real, volume: real)
    requires p >= 0.0 && p * ratio == close && -0.5 <= v - volume * ratio <= 0.5
    ensures -p / 2.0 <= p * v - close * volume <= p / 2.0
  {
    var d := v - volume * ratio;
    assert p * (volume * ratio) == close * volume;
    assert p * v - close * volume == p * d;
    NonNegativeProduct(p, 0.5 - d);
    NonNegativeProduct(p, 0.5 + d);
  }

  lemma {:induction false} RestatedSessions(rows: seq<Bar>, ratio: real, brk: int, keep: seq<int>)
    requires ratio != 0.0
    ensures var s, r := Sessions(rows), Sessions(RestatedBars(rows, ratio, brk, keep));
      |r| == |s| && forall m | 0 <= m < |s| :: r[m].date == s[m].date && r[m].close == Scaled(s[m].date, s[m].close, ratio, brk, keep)
  {
    if rows != [] {
      var before := rows[..|rows| - 1];
      RestatedSessions(before, ratio, brk, keep);
      assert RestatedBars(rows, ratio, brk, keep)[..|rows| - 1] == RestatedBars(before, ratio, brk, keep);
    }
  }

  lemma {:induction false} SessionsDated(rows: seq<Bar>)
    requires Dated(rows)
    ensures DatedSessions(Sessions(rows))
    ensures rows != [] ==> forall m | 0 <= m < |Sessions(rows)| :: Sessions(rows)[m].date <= rows[|rows| - 1].date
  {
    if rows != [] {
      SessionsDated(rows[..|rows| - 1]);
    }
  }

  predicate SameRatio(a: real, b: real, c: real, d: real) {
    c * b == a * d
  }

  /** Step `m` of the series crosses the edge of a kept bar. */
  predicate Edge(series: seq<Session>, keep: seq<int>, m: int)
    requires 1 <= m < |series|
  {
    (series[m - 1].date in keep) != (series[m].date in keep)
  }

  /** The break, seen in the whole series: the window's bar `i` after `lo` bars. */
  ghost predicate BreakAt(series: seq<Session>, ratio: real, lo: nat, hi: nat, i: nat, keep: seq<int>) {
    && lo + i < hi <= |series| && 1 <= i
    && Match(series[lo + i - 1].close, series[lo + i].close, ratio)
    && Keeps(series[lo..hi], ratio, i, keep)
  }

  /** A verdict to apply names a matching break. */
  lemma AppliedHasBreak(rows: seq<Bar>, ex: int, ratio: real, rewrite: (int, int) -> bool, v: Verdict) returns (lo: nat, hi: nat, i: nat)
    requires Decides(rows, ex, ratio, rewrite, v) && v.outcome.Applied?
    ensures ratio > 0.0 && (ratio >= 1.44 || 1.44 * ratio <= 1.0)
    ensures BreakAt(Sessions(rows), ratio, lo, hi, i, v.keep) && v.breakDate == Some(Sessions(rows)[lo + i].date)
  {
    hide Keeps, Match, Window, WindowStart, Decides;
    var series := Sessions(rows);
    var b := CountBefore(series, ex);
    lo, hi := WindowStart(series, ex), if b + SEARCH_AFTER < |series| then b + SEARCH_AFTER else |series|;
    i := AppliedInSeries(rows, ex, ratio, rewrite, v);
    WindowIs(series, ex, lo, hi);
    InWindow(series, Window(series, ex), lo, hi, i);
  }

  lemma AppliedInSeries(rows: seq<Bar>, ex: int, ratio: real, rewrite: (int, int) -> bool, v: Verdict) returns (i: nat)
    requires Decides(rows, ex, ratio, rewrite, v) && v.outcome.Applied?
    ensures ratio > 0.0 && (ratio >= 1.44 || 1.44 * ratio <= 1.0)
    ensures var win := Window(Sessions(rows), ex);
      && 1 <= i < |win| && Match(win[i - 1].close, win[i].close, ratio)
      && v.breakDate == Some(win[i].date) && Keeps(win, ratio, i, v.keep)
  {
    hide Scanned, Concludes, Keeps, Match, Window, WindowStart, Sessions, CountBefore, CountFrom;
    var series := Sessions(rows);
    var win, x, recent := Window(series, ex), CountBefore(series, ex) - WindowStart(series, ex), CountFrom(rows, ex) <= RECENT_SESSIONS;
    var near, far, worst :| Scanned(win, ratio, x, recent, near, far, worst) && Concludes(win, ex, ratio, rewrite, near, far, worst, v);
    AppliedInWindow(win, ex, ratio, rewrite, x, recent, near, far, worst, v);
    i := near.value;
  }

  lemma WindowIs(series: seq<Session>, ex: int, lo: nat, hi: nat)
    requires lo == WindowStart(series, ex)
    requires hi == if CountBefore(series, ex) + SEARCH_AFTER < |series| then CountBefore(series, ex) + SEARCH_AFTER else |series|
    ensures lo <= hi <= |series| && Window(series, ex) == series[lo..hi]
  {
  }

  lemma InWindow(series: seq<Session>, win: seq<Session>, lo: nat, hi: nat, i: nat)
    requires lo <= hi <= |series| && win == series[lo..hi] && 1 <= i < |win|
    ensures lo + i < hi && win[i] == series[lo + i] && win[i - 1] == series[lo + i - 1]
  {
  }

  lemma AppliedInWindow(win: seq<Session>, ex: int, ratio: real, rewrite: (int, int) -> bool, x: int, recent: bool,
                        near: Option<nat>, far: Option<nat>, worst: real, v: Verdict)
    requires Scanned(win, ratio, x, recent, near, far, worst) && Concludes(win, ex, ratio, rewrite, near, far, worst, v)
    requires v.outcome.Applied?
    ensures near.Some? && 1 <= near.value < |win| && Match(win[near.value - 1].close, win[near.value].close, ratio)
    ensures v.breakDate == Some(win[near.value].date) && Keeps(win, ratio, near.value, v.keep)
  {
    hide Keeps, StoredLate, Explained, WorstMove, BestOf, Match;
    BestIsCandidate(win, ratio, x, recent, true, near);
  }

  /** A kept date is an island bar of the window, so it lies before the bar before the break. */
  lemma KeptIsIsland(series: seq<Session>, ratio: real, lo: nat, hi: nat, i: nat, keep: seq<int>, m: nat)
    requires DatedSessions(series) && BreakAt(series, ratio, lo, hi, i, keep) && m < |series|
    ensures series[m].date in keep <==> lo <= m < lo + i && OnIsland(series[lo..hi][..i], ratio, m - lo)
  {
    hide OnIsland, Match;
    var win := series[lo..hi];
    if series[m].date in keep {
      var k :| 0 <= k < i && OnIsland(win[..i], ratio, k) && win[k].date == series[m].date;
      assert win[k] == series[lo + k];
      assert lo + k == m;
    }
    if lo <= m < lo + i && OnIsland(win[..i], ratio, m - lo) {
      assert win[m - lo] == series[m];
    }
  }

  lemma IslandShape(win: seq<Session>, ratio: real, k: int)
    requires OnIsland(win, ratio, k)
    ensures 1 <= k < |win| - 1
    ensures !OnIsland(win, ratio, k - 1) ==> Enters(win, ratio, k)
    ensures !OnIsland(win, ratio, k + 1) ==> Leaves(win, ratio, k + 1)
  {
    hide Match, Enters, Leaves, Inside;
    var s, e :| Island(win, ratio, s, e) && s <= k < e;
    IslandEnds(win, ratio, s, e);
    if k > s {
      assert Island(win, ratio, s, e) && s <= k - 1 < e;
    }
    if k + 1 < e {
      assert Island(win, ratio, s, e) && s <= k + 1 < e;
    }
  }

  lemma IslandEnds(win: seq<Session>, ratio: real, s: int, e: int)
    requires Island(win, ratio, s, e)
    ensures Enters(win, ratio, s) && Leaves(win, ratio, e)
  {
  }

  lemma ScaleCommutes(a: real, b: real, ratio: real)
    requires ratio != 0.0
    ensures SameRatio(a, b, a / ratio, b / ratio)
  {
    var p, q := a / ratio, b / ratio;
    assert p * ratio == a && q * ratio == b;
    assert p * b == p * (q * ratio) == (p * ratio) * q;
  }

  /** One step before the break: across an edge it becomes continuous, elsewhere it is unchanged. */
  lemma StepBeforeBreak(series: seq<Session>, ratio: real, lo: nat, hi: nat, i: nat, keep: seq<int>, m: nat)
    requires ratio > 0.0 && DatedSessions(series) && BreakAt(series, ratio, lo, hi, i, keep) && 1 <= m < lo + i
    ensures var brk := series[lo + i].date;
      var p, q := Scaled(series[m - 1].date, series[m - 1].close, ratio, brk, keep), Scaled(series[m].date, series[m].close, ratio, brk, keep);
      if Edge(series, keep, m) then Continuous(p, q) else SameRatio(series[m - 1].close, series[m].close, p, q)
  {
    hide OnIsland, Match, Keeps;
    var win, a, b := series[lo..hi][..i], series[m - 1].close, series[m].close;
    KeptIsIsland(series, ratio, lo, hi, i, keep, m - 1);
    KeptIsIsland(series, ratio, lo, hi, i, keep, m);
    ScaleCommutes(a, b, ratio);
    if Edge(series, keep, m) {
      if series[m].date in keep {
        IslandShape(win, ratio, m - lo);
        assert win[m - lo] == series[m] && win[m - lo - 1] == series[m - 1];
        MatchedContinuous(a, b, ratio);
      } else {
        IslandShape(win, ratio, m - 1 - lo);
        assert win[m - lo] == series[m] && win[m - lo - 1] == series[m - 1];
        MatchedContinuous(b, a, ratio);
      }
    }
  }

  /** Whenever a split is applied: the bar before the break is not kept; after restating, the
      step at the break and at every edge of a kept island is within 8% of no move; every other
      step keeps its ratio exactly; and the break no longer matches the split. */
  lemma AppliedRestoresContinuity(rows: seq<Bar>, ex: int, ratio: real, rewrite: (int, int) -> bool, v: Verdict) returns (b: nat)
    requires Dated(rows) && Decides(rows, ex, ratio, rewrite, v) && v.outcome.Applied?
    ensures ratio > 0.0 && v.breakDate.Some?
    ensures var s, r := Sessions(rows), Sessions(RestatedBars(rows, ratio, v.breakDate.value, v.keep));
      && |r| == |s| && 1 <= b < |s| && s[b].date == v.breakDate.value && s[b - 1].date !in v.keep
      && Continuous(r[b - 1].close, r[b].close) && !Match(r[b - 1].close, r[b].close, ratio)
      && (forall m | 1 <= m < b :: if Edge(s, v.keep, m) then Continuous(r[m - 1].close, r[m].close)
                                   else SameRatio(s[m - 1].close, s[m].close, r[m - 1].close, r[m].close))
      && (forall m | b <= m < |s| :: r[m].date == s[m].date && r[m].close == s[m].close)
  {
    hide OnIsland, Match, Keeps, Decides, Continuous, SameRatio;
    var lo, hi, i := AppliedHasBreak(rows, ex, ratio, rewrite, v);
    b := lo + i;
    var s, brk := Sessions(rows), v.breakDate.value;
    SessionsDated(rows);
    RestatedSessions(rows, ratio, brk, v.keep);
    KeptIsIsland(s, ratio, lo, hi, i, v.keep, b - 1);
    if s[b - 1].date in v.keep {
      IslandShape(s[lo..hi][..i], ratio, i - 1);
    }
    MatchedContinuous(s[b - 1].close, s[b].close, ratio);
    ContinuousNoMatch(s[b - 1].close / ratio, s[b].close, ratio);
    forall m | 1 <= m < b
      ensures var p, q := Scaled(s[m - 1].date, s[m - 1].close, ratio, brk, v.keep), Scaled(s[m].date, s[m].close, ratio, brk, v.keep);
        if Edge(s, v.keep, m) then Continuous(p, q) else SameRatio(s[m - 1].close, s[m].close, p, q)
    {
      StepBeforeBreak(s, ratio, lo, hi, i, v.keep, m);
    }
  }

  /** Outside the ambiguous band no move at all is mistaken for the split. */
  lemma ContinuousNoMatch(prev: real, cur: real, ratio: real)
    requires Continuous(prev, cur) && (ratio >= 1.44 || 1.44 * ratio <= 1.0)
    ensures !Match(prev, cur, ratio)
  {
    var scaled := ratio * cur;
    if ratio >= 1.44 {
      assert (ratio - 1.44) * cur >= 0.0;
      assert scaled >= 1.44 * cur;
    } else {
      assert (1.0 - 1.44 * ratio) * cur >= 0.0;
      assert 1.44 * scaled <= cur;
    }
  }

  // ----- the store -----

  datatype Order = Order(pending: bool, signal: int, qty: real)

  datatype Mark = Mark(ratio: real, outcome: Outcome, observed: Option<real>, breakDate: Option<int>, rows: nat)

  datatype Split = Split(ex: int, ratio: real)

  function RescaledOrder(order: Order, ex: int, ratio: real): Order {
    if order.pending && order.signal < ex then order.(qty := order.qty * ratio) else order
  }

  function RescaledOrders(orders: seq<Order>, ex: int, ratio: real): (r: seq<Order>)
    ensures |r| == |orders| && forall i | 0 <= i < |r| :: r[i] == RescaledOrder(orders[i], ex, ratio)
  {
    seq(|orders|, i requires 0 <= i < |orders| => RescaledOrder(orders[i], ex, ratio))
  }

  /** A rescaled order is worth at a restated close what it was worth before. */
  lemma RescaledNotional(order: Order, ex: int, ratio: real, date: int, close: real, brk: int, keep: seq<int>)
    requires ratio > 0.0 && order.pending && order.signal < ex && date < brk && date !in keep
    ensures RescaledOrder(order, ex, ratio).qty * Scaled(date, close, ratio, brk, keep) == order.qty * close
  {
    var q := close / ratio;
    assert q * ratio == close;
    assert (order.qty * ratio) * q == order.qty * (q * ratio);
  }

  function CountRestated(rows: seq<Bar>, brk: int, keep: seq<int>): nat {
    if rows == [] then 0 else
    CountRestated(rows[..|rows| - 1], brk, keep) + if Restates(rows[|rows| - 1], brk, keep) then 1 else 0
  }

  lemma AllRewritten(rows: seq<Bar>, ratio: real, brk: int, keep: seq<int>)
    requires ratio != 0.0
    ensures var now := RestatedBars(rows, ratio, brk, keep);
      && (forall k | 0 <= k < |rows| :: Rewritten(rows[k], now[k], ratio, brk, keep))
      && CountRestated(now, brk, keep) == CountRestated(rows, brk, keep)
  {
    var now := RestatedBars(rows, ratio, brk, keep);
    forall k | 0 <= k < |rows|
      ensures Rewritten(rows[k], now[k], ratio, brk, keep) && now[k].date == rows[k].date
    {
      RestatedIsRewritten(rows[k], ratio, brk, keep);
    }
    SameDatesCount(rows, now, brk, keep);
  }

  lemma {:induction false} SameDatesCount(rows: seq<Bar>, now: seq<Bar>, brk: int, keep: seq<int>)
    requires |rows| == |now| && forall k | 0 <= k < |rows| :: now[k].date == rows[k].date
    ensures CountRestated(now, brk, keep) == CountRestated(rows, brk, keep)
  {
    if rows != [] {
      SameDatesCount(rows[..|rows| - 1], now[..|rows| - 1], brk, keep);
    }
  }

  lemma {:induction false} CountIs(rows: seq<Bar>, brk: int, keep: seq<int>)
    ensures CountRestated(rows, brk, keep) == |set k | 0 <= k < |rows| && rows[k].date < brk && rows[k].date !in keep|
  {
    var all := set k | 0 <= k < |rows| && rows[k].date < brk && rows[k].date !in keep;
    if rows != [] {
      var rest, n := rows[..|rows| - 1], |rows| - 1;
      CountIs(rest, brk, keep);
      var before := set k | 0 <= k < |rest| && rest[k].date < brk && rest[k].date !in keep;
      assert all == before + if Restates(rows[n], brk, keep) then {n} else {};
    }
  }

  /** The splits not yet decided, in order. */
  function Undecided(splits: seq<Split>, latest: int, marks: map<int, Mark>): seq<Split> {
    if splits == [] then [] else
    var last := splits[|splits| - 1];
    Undecided(splits[..|splits| - 1], latest, marks) + if last.ex <= latest && last.ex !in marks then [last] else []
  }

  lemma {:induction false} UndecidedHas(splits: seq<Split>, latest: int, marks: map<int, Mark>, split: Split)
    ensures split in Undecided(splits, latest, marks) <==> split in splits && split.ex <= latest && split.ex !in marks
  {
    if splits != [] {
      UndecidedHas(splits[..|splits| - 1], latest, marks, split);
      assert splits == splits[..|splits| - 1] + [splits[|splits| - 1]];
    }
  }

  /** Some restated bar fails the store's checks. */
  ghost predicate Refused(rows: seq<Bar>, ratio: real, brk: int, keep: seq<int>, valid: Bar -> bool)
    requires ratio != 0.0
  {
    exists k | 0 <= k < |rows| :: Restates(rows[k], brk, keep) && !valid(RestatedBar(rows[k], ratio, brk, keep))
  }

  /** The bars and orders between two decisions. */
  datatype Book = Book(bars: seq<Bar>, orders: seq<Order>)

  /** One split decided: the verdict is the adjudication of the bars as they stood, and bars and
      pending orders change only when it is applied. */
  ghost predicate Turn(before: Book, split: Split, rewrite: (int, int) -> bool, v: Verdict, after: Book) {
    && Decides(before.bars, split.ex, split.ratio, rewrite, v)
    && if v.outcome.Applied?
       then split.ratio > 0.0 && v.breakDate.Some?
         && after == Book(RestatedBars(before.bars, split.ratio, v.breakDate.value, v.keep), RescaledOrders(before.orders, split.ex, split.ratio))
       else after == before
  }

  /** The decisions taken so far: each turn starts from the bars the one before left, and a
      split's mark is the verdict of its last turn. */
  ghost predicate Decided(done: seq<Split>, rewrite: (int, int) -> bool, books: seq<Book>, verdicts: seq<Verdict>,
                          before: map<int, Mark>, marks: map<int, Mark>) {
    && |books| == |done| + 1 && |verdicts| == |done|
    && (forall i | 0 <= i < |done| :: Turn(books[i], done[i], rewrite, verdicts[i], books[i + 1]))
    && (forall i | 0 <= i < |done| :: done[i].ex in marks && done[i].ex !in before)
    && (forall i | 0 <= i < |done| && (forall j | i < j < |done| :: done[j].ex != done[i].ex) ::
          marks[done[i].ex].outcome == verdicts[i].outcome)
    && (forall d | d in before :: d in marks && marks[d] == before[d])
  }

  lemma DecidedStep(done: seq<Split>, rewrite: (int, int) -> bool, books: seq<Book>, verdicts: seq<Verdict>,
                    before: map<int, Mark>, was: map<int, Mark>, split: Split, v: Verdict, now: Book, marks: map<int, Mark>)
    requires Decided(done, rewrite, books, verdicts, before, was) && split.ex !in before
    requires Turn(books[|done|], split, rewrite, v, now)
    requires marks.Keys == was.Keys + {split.ex} && marks[split.ex].outcome == v.outcome
    requires forall d | d in was && d != split.ex :: marks[d] == was[d]
    ensures Decided(done + [split], rewrite, books + [now], verdicts + [v], before, marks)
  {
    hide Turn;
    var all := done + [split];
    forall i | 0 <= i < |all| && (forall j | i < j < |all| :: all[j].ex != all[i].ex)
      ensures all[i].ex in marks && marks[all[i].ex].outcome == (verdicts + [v])[i].outcome
    {
      if i < |done| {
        assert all[|done|].ex != all[i].ex;
        assert forall j | i < j < |done| :: all[j] == done[j];
      }
    }
    forall i | 0 <= i < |all|
      ensures all[i].ex in marks
    {
      if i < |done| {
        assert all[i] == done[i];
      }
    }
  }

  class SplitStore {
    var bars: seq<Bar>
    var orders: seq<Order>
    var marks: map<int, Mark>

    /** Check every restated bar, then change prices, pending orders and the watermark together;
        an invalid bar changes nothing. */
    method Restate(ex: int, ratio: real, brk: int, keep: seq<int>, valid: Bar -> bool) returns (n: Option<nat>)
      requires ratio != 0.0
      modifies this
      ensures n.None? <==> Refused(old(bars), ratio, brk, keep, valid)
      ensures n.None? ==> bars == old(bars) && orders == old(orders) && marks == old(marks)
      ensures n.Some? ==>
        && |bars| == |old(bars)| && (forall k | 0 <= k < |bars| :: Rewritten(old(bars)[k], bars[k], ratio, brk, keep))
        && |orders| == |old(orders)|
        && (forall k | 0 <= k < |orders| :: orders[k] ==
              if old(orders)[k].pending && old(orders)[k].signal < ex then old(orders)[k].(qty := old(orders)[k].qty * ratio) else old(orders)[k])
        && n.value == |set k | 0 <= k < |bars| && bars[k].date < brk && bars[k].date !in keep|
        && bars == RestatedBars(old(bars), ratio, brk, keep)
        && orders == RescaledOrders(old(orders), ex, ratio)
        && n.value == CountRestated(old(bars), brk, keep)
        && marks == old(marks)[ex := Mark(ratio, Applied, Some(ratio), Some(brk), n.value)]
    {
      hide RestatedBar, Rewritten;
      var count, i := 0, 0;
      var now: seq<Bar> := [];
      while i < |bars|
        invariant 0 <= i <= |bars| && bars == old(bars) && |now| == i
        invariant forall k | 0 <= k < i :: now[k] == RestatedBar(bars[k], ratio, brk, keep)
        invariant forall k | 0 <= k < i :: !(Restates(bars[k], brk, keep) && !valid(RestatedBar(bars[k], ratio, brk, keep)))
        invariant count == CountRestated(bars[..i], brk, keep)
      {
        assert bars[..i + 1][..i] == bars[..i];
        var candidate := RestatedBar(bars[i], ratio, brk, keep);
        if Restates(bars[i], brk, keep) {
          if !valid(candidate) {
            return None;
          }
          count := count + 1;
        }
        now := now + [candidate];
        i := i + 1;
      }
      assert bars[..i] == bars;
      bars := now;
      assert bars == RestatedBars(old(bars), ratio, brk, keep);
      AllRewritten(old(bars), ratio, brk, keep);
      CountIs(bars, brk, keep);
      RescaleOrders(ex, ratio);
      marks := marks[ex := Mark(ratio, Applied, Some(ratio), Some(brk), count)];
      n := Some(count);
    }

    /** Rescale the pending orders signalled before the ex-date. */
    method RescaleOrders(ex: int, ratio: real)
      modifies this`orders
      ensures orders == RescaledOrders(old(orders), ex, ratio)
    {
      var i := 0;
      while i < |orders|
        invariant 0 <= i <= |orders| == |old(orders)|
        invariant forall k | 0 <= k < i :: orders[k] == RescaledOrder(old(orders)[k], ex, ratio)
        invariant forall k | i <= k < |orders| :: orders[k] == old(orders)[k]
      {
        if orders[i].pending && orders[i].signal < ex {
          orders := orders[i := orders[i].(qty := orders[i].qty * ratio)];
        }
        i := i + 1;
      }
    }

    /** Adjudicate one split and act on the verdict; an invalid restatement changes nothing. */
    method DecideSplit(split: Split, rewrite: (int, int) -> bool, valid: Bar -> bool) returns (r: Result<Verdict>)
      modifies this
      ensures r.Ok? ==>
        && Turn(Book(old(bars), old(orders)), split, rewrite, r.value, Book(bars, orders))
        && marks.Keys == old(marks).Keys + {split.ex} && marks[split.ex].outcome == r.value.outcome
        && forall d | d in old(marks) && d != split.ex :: marks[d] == old(marks)[d]
      ensures r.Err? ==>
        && bars == old(bars) && orders == old(orders) && marks == old(marks)
        && exists v :: Decides(bars, split.ex, split.ratio, rewrite, v) && v.outcome.Applied? && v.breakDate.Some?
             && split.ratio > 0.0 && Refused(bars, split.ratio, v.breakDate.value, v.keep, valid)
    {
      hide Decides, Refused;
      var v := Adjudicate(bars, split.ex, split.ratio, rewrite);
      if v.outcome.Applied? {
        ghost var lo, hi, i := AppliedHasBreak(bars, split.ex, split.ratio, rewrite, v);
        var n := Restate(split.ex, split.ratio, v.breakDate.value, v.keep, valid);
        if n.None? {
          return Err;
        }
      } else {
        marks := marks[split.ex := Mark(split.ratio, v.outcome, v.observed, v.breakDate, 0)];
      }
      r := Ok(v);
    }

    /** Decide the unmarked splits in order, each on the bars the ones before it left, until one
        is refused. Once finished, a second run over the same splits decides nothing. */
    method Reconcile(splits: seq<Split>, latest: int, rewrite: (int, int) -> bool, valid: Bar -> bool)
        returns (decided: seq<Split>, finished: bool, ghost books: seq<Book>, ghost verdicts: seq<Verdict>)
      modifies this
      ensures decided <= Undecided(splits, latest, old(marks)) && (finished <==> decided == Undecided(splits, latest, old(marks)))
      ensures Decided(decided, rewrite, books, verdicts, old(marks), marks) && books[0] == Book(old(bars), old(orders)) && books[|decided|] == Book(bars, orders)
      ensures decided == [] ==> bars == old(bars) && orders == old(orders) && marks == old(marks)
      ensures finished ==> Undecided(splits, latest, marks) == []
    {
      hide Decided, Turn, Decides, Refused;
      var todo := Undecided(splits, latest, marks);
      ghost var before := marks;
      books, verdicts, finished := [Book(bars, orders)], [], true;
      NothingDecided(rewrite, Book(bars, orders), marks);
      var i := 0;
      assert todo[..0] == [];
      while i < |todo|
        invariant 0 <= i <= |todo| && |books| == i + 1 && books[0] == Book(old(bars), old(orders)) && books[i] == Book(bars, orders)
        invariant Decided(todo[..i], rewrite, books, verdicts, before, marks)
        invariant i == 0 ==> bars == old(bars) && orders == old(orders) && marks == before
      {
        UndecidedHas(splits, latest, before, todo[i]);
        ghost var was := marks;
        var r := DecideSplit(todo[i], rewrite, valid);
        if r.Err? {
          return todo[..i], false, books, verdicts;
        }
        DecidedStep(todo[..i], rewrite, books, verdicts, before, was, todo[i], r.value, Book(bars, orders), marks);
        assert todo[..i + 1] == todo[..i] + [todo[i]];
        books, verdicts := books + [Book(bars, orders)], verdicts + [r.value];
        i := i + 1;
      }
      assert todo[..i] == todo;
      decided := todo;
      NoneLeft(splits, latest, before, marks, rewrite, books, verdicts);
    }
  }

  lemma NothingDecided(rewrite: (int, int) -> bool, now: Book, marks: map<int, Mark>)
    ensures Decided([], rewrite, [now], [], marks, marks)
  {
  }

  lemma NoneLeft(splits: seq<Split>, latest: int, before: map<int, Mark>, marks: map<int, Mark>,
                 rewrite: (int, int) -> bool, books: seq<Book>, verdicts: seq<Verdict>)
    requires Decided(Undecided(splits, latest, before), rewrite, books, verdicts, before, marks)
    ensures Undecided(splits, latest, marks) == []
  {
    var left := Undecided(splits, latest, marks);
    if left != [] {
      UndecidedHas(splits, latest, marks, left[0]);
      UndecidedHas(splits, latest, before, left[0]);
    }
  }

  /** A break of the split's size at the ex-date, on a series that goes back before it, is taken as
      the break. It is applied, keeping the island bars, exactly when no old-scale bar before it
      was first stored from the ex-date on, or a recorded rewrite explains that. */
  lemma PlainBreakIsApplied(rows: seq<Bar>, ex: int, ratio: real, rewrite: (int, int) -> bool, v: Verdict)
    requires Decides(rows, ex, ratio, rewrite, v)
    requires ratio > 0.0 && (ratio >= 1.44 || 1.44 * ratio <= 1.0) && rows != [] && rows[0].date < ex
    requires BreaksAt(Sessions(rows), ex, ratio)
    ensures var series := Sessions(rows);
      var win, x := Window(series, ex), CountBefore(series, ex) - WindowStart(series, ex);
      && 0 <= x < |win| && win[x] == series[CountBefore(series, ex)] && v.breakDate == Some(win[x].date)
      && (v.outcome.Applied? <==> !StoredLate(win, ratio, x, ex) || Explained(win, ratio, x, rewrite))
      && (v.outcome.Applied? || v.outcome.SkippedAlreadyAdjusted?)
      && (v.outcome.Applied? ==> Keeps(win, ratio, x, v.keep))
  {
    hide Scanned, Concludes, Match, StoredLate, Explained, Keeps, Window, WindowStart;
    var series := Sessions(rows);
    var b, lo := CountBefore(series, ex), WindowStart(series, ex);
    var hi := if b + SEARCH_AFTER < |series| then b + SEARCH_AFTER else |series|;
    var win, x, recent := Window(series, ex), b - lo, CountFrom(rows, ex) <= RECENT_SESSIONS;
    WindowIs(series, ex, lo, hi);
    WindowReachesBack(series, ex);
    InWindow(series, win, lo, hi, x);
    var near, far, worst :| Scanned(win, ratio, x, recent, near, far, worst) && Concludes(win, ex, ratio, rewrite, near, far, worst, v);
    NearestIsEx(win, ex, ratio, rewrite, x, recent, near, far, worst, v);
  }

  /** The first session on or after the date matches the ratio with the one before it. */
  predicate BreaksAt(series: seq<Session>, ex: int, ratio: real) {
    var b := CountBefore(series, ex);
    1 <= b < |series| && Match(series[b - 1].close, series[b].close, ratio)
  }

  lemma WindowReachesBack(series: seq<Session>, ex: int)
    ensures CountBefore(series, ex) >= 1 ==> WindowStart(series, ex) < CountBefore(series, ex)
  {
  }

  lemma NearestIsEx(win: seq<Session>, ex: int, ratio: real, rewrite: (int, int) -> bool, x: nat, recent: bool,
                    near: Option<nat>, far: Option<nat>, worst: real, v: Verdict)
    requires 1 <= x < |win| && Match(win[x - 1].close, win[x].close, ratio)
    requires Scanned(win, ratio, x, recent, near, far, worst) && Concludes(win, ex, ratio, rewrite, near, far, worst, v)
    ensures BothPositive(win, x) && Ruled(win, ex, ratio, rewrite, x, v)
  {
    hide WorstMove, Ruled;
    assert Candidate(win, ratio, x, recent, true, x);
    assert near == Some(x);
  }
}
