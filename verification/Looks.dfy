/** The three pre-registered sequential looks over the origin grid. */
module Looks {
  import LRV = LongRunVariance
  import opened Arithmetic
  import opened Moments
  import opened Options

  const ORIGIN_EPOCH := 739888 // ordinal of 2026-09-29
  const LOOK_SIZES: seq<nat> := [60, 90, 120]

  /** The exchange calendar: the next session after a date. */
  type Calendar = next: int -> int | forall d :: next(d) > d witness (d => d + 1)

  datatype Status = Eligible | Pending | Invalid | Skip | Scored
  datatype Reason = FewerThan20Candidates | ConstantScores | OtherReason(text: string)

  /** The fields of an origin row that enter the source prefix. */
  datatype Row = Row(
    originIndex: int, marketDate: int, status: Status, reason: Option<Reason>, skipReason: Option<Reason>,
    skipDecidedAt: Option<int>, forwardEntryAt: Option<int>, eligibilitySha: Option<string>,
    evaluatedAt: Option<int>, outcomeSha: Option<string>, pairCount: Option<int>,
    modelIc: Option<real>, baselineIc: Option<real>, deltaIc: Option<real>)

  datatype SkipNote = SkipNote(originIndex: int, marketDate: int, reason: Reason, decidedAt: int)
  datatype BlockNote = BlockNote(originIndex: int, marketDate: int, reason: Option<Reason>, status: Status)

  /** Student-t interval; the standard error is the root of variance / n, absent at zero variance. */
  datatype Interval = Interval(n: nat, mean: real, variance: real, critical: real)

  datatype Verdict = Continue | ZeroVariance | Pass | Kill

  datatype Core = Core(
    look: nat, verdict: Verdict, retained: seq<int>, skipped: seq<SkipNote>, blocked: Option<BlockNote>,
    meanChampion: real, meanRule: real, lag1: Option<real>, delta: Interval, through: int, evaluatedAt: int)

  datatype LookResult =
    | Collecting(look: nat, origins: seq<int>, skips: seq<SkipNote>, block: Option<BlockNote>)
    | Reached(core: Core, diagnostic: LRV.PrimaryEstimate)
  {
    predicate Terminal() {
      Reached? && (core.verdict.Pass? || core.verdict.Kill?)
    }
  }

  function RetainedDates(r: LookResult): seq<int> {
    if r.Reached? then r.core.retained else r.origins
  }

  function Target(size: nat): (n: nat)
    ensures n >= 2
  {
    if size == 60 then 12 else if size == 90 then 18 else 24
  }

  function Critical(size: nat): real {
    if size == 60 then 2.431291192871 else if size == 90 then 2.315573401153 else 2.263728355255
  }

  function Day(cal: Calendar, k: nat): int {
    if k == 0 then ORIGIN_EPOCH else cal(Day(cal, k - 1))
  }

  predicate ValidGrid(cal: Calendar, grid: seq<Row>) {
    forall i | 0 <= i < |grid| :: grid[i].originIndex == i && grid[i].marketDate == Day(cal, i)
  }

  method ValidateGrid(cal: Calendar, grid: seq<Row>) returns (ok: bool)
    ensures ok == ValidGrid(cal, grid)
  {
    var expected := ORIGIN_EPOCH;
    var index := 0;
    while index < |grid|
      invariant 0 <= index <= |grid| && expected == Day(cal, index)
      invariant forall i | 0 <= i < index :: grid[i].originIndex == i && grid[i].marketDate == Day(cal, i)
    {
      if grid[index].originIndex != index || grid[index].marketDate != expected {
        return false;
      }
      expected := cal(expected);
      index := index + 1;
    }
    return true;
  }

  // ----- the scan over primary origins -----

  /** Primary origins have stride five and offset zero. */
  predicate Primary(index: int) {
    index % 5 == 0
  }

  datatype Scan = Scan(retained: seq<Row>, skipped: seq<SkipNote>, blocked: Option<BlockNote>)

  predicate GoodSkip(row: Row) {
    && row.reason == row.skipReason
    && (row.skipReason == Some(FewerThan20Candidates) || row.skipReason == Some(ConstantScores))
    && row.skipDecidedAt.Some? && row.forwardEntryAt.Some?
    && row.skipDecidedAt.value < row.forwardEntryAt.value
  }

  function NoteOf(i: int, row: Row): SkipNote
    requires GoodSkip(row)
  {
    SkipNote(i, row.marketDate, row.skipReason.value, row.skipDecidedAt.value)
  }

  predicate GoodScore(row: Row) {
    row.status.Scored? && row.deltaIc.Some? && row.modelIc.Some? && row.baselineIc.Some?
  }

  predicate Blocks(row: Row) {
    row.status.Pending? || row.status.Invalid?
  }

  function ScanFrom(grid: seq<Row>, target: nat, i: nat, retained: seq<Row>, skipped: seq<SkipNote>): Result<Scan>
    requires i <= |grid|
    decreases |grid| - i
  {
    if i == |grid| then Ok(Scan(retained, skipped, None))
    else
      var row := grid[i];
      if !Primary(i) then ScanFrom(grid, target, i + 1, retained, skipped)
      else if row.status.Skip? then
        if !GoodSkip(row) then Err
        else
          ScanFrom(grid, target, i + 1, retained, skipped + [NoteOf(i, row)])
      else if row.skipReason.Some? then Err
      else if Blocks(row) then Ok(Scan(retained, skipped, Some(BlockNote(i, row.marketDate, row.reason, row.status))))
      else if !GoodScore(row) then Err
      else if |retained| + 1 == target then Ok(Scan(retained + [row], skipped, None))
      else ScanFrom(grid, target, i + 1, retained + [row], skipped)
  }

  function LagOne(xs: seq<real>): Option<real>
    requires xs != []
  {
    var d := SquaredDeviations(xs, Mean(xs));
    if d == 0.0 then None else Some(LagOneProducts(xs, Mean(xs)) / d)
  }

  function PrimaryInterval(xs: seq<real>, size: nat): Interval
    requires |xs| >= 2
  {
    Interval(|xs|, Mean(xs), SquaredDeviations(xs, Mean(xs)) / (|xs| - 1) as real, Critical(size))
  }

  predicate HasError(v: Interval) {
    v.variance > 0.0
  }

  /** mean^2 > critical^2 * variance / n: zero lies outside the interval. */
  predicate ExcludesZero(v: Interval) {
    HasError(v) && v.mean * v.mean * v.n as real > v.critical * v.critical * v.variance
  }

  function Decide(size: nat, v: Interval, meanChampion: real): Verdict {
    if !HasError(v) then if size == 120 then Kill else ZeroVariance
    else if v.mean > 0.0 && ExcludesZero(v) && meanChampion > 0.0 then Pass
    else if v.mean < 0.0 && ExcludesZero(v) then Kill
    else if size == 120 then Kill
    else Continue
  }

  predicate AllGood(rows: seq<Row>) {
    forall i | 0 <= i < |rows| :: GoodScore(rows[i])
  }

  function Deltas(rows: seq<Row>): (xs: seq<real>)
    requires AllGood(rows)
    ensures |xs| == |rows|
  {
    seq(|rows|, i requires 0 <= i < |rows| => rows[i].deltaIc.value)
  }

  function ModelIcs(rows: seq<Row>): (xs: seq<real>)
    requires AllGood(rows)
    ensures |xs| == |rows|
  {
    seq(|rows|, i requires 0 <= i < |rows| => rows[i].modelIc.value)
  }

  function BaselineIcs(rows: seq<Row>): (xs: seq<real>)
    requires AllGood(rows)
    ensures |xs| == |rows|
  {
    seq(|rows|, i requires 0 <= i < |rows| => rows[i].baselineIc.value)
  }

  function Dates(rows: seq<Row>): seq<int> {
    seq(|rows|, i requires 0 <= i < |rows| => rows[i].marketDate)
  }

  /** The latest evaluation stamp; comparing a missing stamp raises. */
  function LatestStamp(rows: seq<Row>): Option<int> {
    if rows == [] then None
    else
      var last := rows[|rows| - 1].evaluatedAt;
      if |rows| == 1 || last.None? then last
      else
        var before := LatestStamp(rows[..|rows| - 1]);
        if before.None? then None else if before.value > last.value then before else last
  }

  /** Every scored delta of the grid up to and including index n - 1, on any stride. */
  function DailyDeltas(grid: seq<Row>, n: nat): seq<real>
    requires n <= |grid|
  {
    if n == 0 then []
    else
      var row := grid[n - 1];
      DailyDeltas(grid, n - 1) + if row.status.Scored? && row.deltaIc.Some? then [row.deltaIc.value] else []
  }

  function Finish(grid: seq<Row>, size: nat, s: Scan): Result<LookResult> {
    if |s.retained| < Target(size) || !AllGood(s.retained) then
      Ok(Collecting(size, Dates(s.retained), s.skipped, s.blocked))
    else
      var last := s.retained[|s.retained| - 1];
      var stamp := LatestStamp(s.retained);
      if stamp.None? || !(0 <= last.originIndex < |grid|) then Err
      else
        var delta := PrimaryInterval(Deltas(s.retained), size);
        var champion := Mean(ModelIcs(s.retained));
        var core := Core(
          size, Decide(size, delta, champion), Dates(s.retained), s.skipped, s.blocked, champion,
          Mean(BaselineIcs(s.retained)), LagOne(Deltas(s.retained)), delta, last.marketDate, stamp.value);
        Ok(Reached(core, LRV.PrimaryStandardError(DailyDeltas(grid, last.originIndex + 1))))
  }

  function Look(cal: Calendar, grid: seq<Row>, size: nat): Result<LookResult> {
    if !ValidGrid(cal, grid) then Err
    else
      match ScanFrom(grid, Target(size), 0, [], [])
      case Err => Err
      case Ok(s) => Finish(grid, size, s)
  }

  /** The loop computes the recursive specification. */
  method RunLook(cal: Calendar, grid: seq<Row>, size: nat) returns (r: Result<LookResult>)
    ensures r == Look(cal, grid, size)
    ensures r.Ok? && r.value.Reached? && size in LOOK_SIZES ==>
      exists t: nat, xs, ms, bs :: Concludes(grid, size, r.value.core, t, xs, ms, bs)
    ensures r.Ok? && r.value.Collecting? && size in LOOK_SIZES ==> exists n: nat :: Waits(grid, size, r.value, n)
    ensures r.Err? && size in LOOK_SIZES ==>
      !ValidGrid(cal, grid) || exists n: nat | n < |grid| && n % 5 == 0 :: Malformed(grid[n]) || grid[n].evaluatedAt.None?
  {
    hide Concludes, Waits, Malformed, Finish;
    ReachedConcludes(cal, grid, size);
    OtherwiseWaits(cal, grid, size);
    var valid := ValidateGrid(cal, grid);
    if !valid {
      return Err;
    }
    var retained, skipped, blocked := [], [], None;
    var target := Target(size);
    var index := 0;
    var scanning := true;
    while index < |grid| && scanning
      invariant 0 <= index <= |grid|
      invariant scanning ==> blocked.None?
      invariant ScanFrom(grid, target, 0, [], []) ==
                if scanning then ScanFrom(grid, target, index, retained, skipped) else Ok(Scan(retained, skipped, blocked))
      decreases |grid| - index, scanning
    {
      var row := grid[index];
      if Primary(index) {
        if row.status.Skip? {
          if !GoodSkip(row) {
            return Err;
          }
          skipped := skipped + [NoteOf(index, row)];
        } else if row.skipReason.Some? {
          return Err;
        } else if Blocks(row) {
          blocked := Some(BlockNote(index, row.marketDate, row.reason, row.status));
          scanning := false;
        } else if !GoodScore(row) {
          return Err;
        } else {
          retained := retained + [row];
          if |retained| == target {
            scanning := false;
          }
        }
      }
      if scanning {
        index := index + 1;
      }
    }
    r := Finish(grid, size, Scan(retained, skipped, blocked));
  }

  // ----- evaluate_looks -----

  datatype Evaluation = Evaluation(terminal: Option<Verdict>, looks: seq<LookResult>, nextLook: Option<nat>)

  function EvaluateFrom(cal: Calendar, grid: seq<Row>, looks: seq<LookResult>): Result<Evaluation>
    decreases |LOOK_SIZES| - |looks|
  {
    if looks != [] && looks[|looks| - 1].Terminal() then
      Ok(Evaluation(Some(looks[|looks| - 1].core.verdict), looks, None))
    else if |looks| >= |LOOK_SIZES| then Ok(Evaluation(None, looks, None))
    else
      match Look(cal, grid, LOOK_SIZES[|looks|])
      case Err => Err
      case Ok(item) =>
        if item.Collecting? then Ok(Evaluation(None, looks, Some(LOOK_SIZES[|looks|])))
        else EvaluateFrom(cal, grid, looks + [item])
  }

  method EvaluateLooks(cal: Calendar, grid: seq<Row>) returns (r: Result<Evaluation>)
    ensures r == EvaluateFrom(cal, grid, [])
    ensures r.Ok? ==> Sequential(cal, grid, r.value)
    ensures r.Err? ==> exists k | 0 <= k < 3 :: Look(cal, grid, LOOK_SIZES[k]).Err?
  {
    hide Concludes, Look, Waits, Malformed, Sequential;
    EvaluationIsSequential(cal, grid, []);
    var looks: seq<LookResult>, terminal: Option<Verdict> := [], None;
    var k := 0;
    while k < |LOOK_SIZES|
      invariant 0 <= k <= |LOOK_SIZES| && |looks| == k
      invariant terminal == if looks != [] && looks[|looks| - 1].Terminal() then Some(looks[|looks| - 1].core.verdict) else None
      invariant EvaluateFrom(cal, grid, []) == EvaluateFrom(cal, grid, looks)
    {
      if terminal.Some? {
        return Ok(Evaluation(terminal, looks, None));
      }
      var item := RunLook(cal, grid, LOOK_SIZES[k]);
      if item.Err? {
        return Err;
      }
      if item.value.Collecting? {
        return Ok(Evaluation(None, looks, Some(LOOK_SIZES[k])));
      }
      looks := looks + [item.value];
      terminal := if item.value.Terminal() then Some(item.value.core.verdict) else None;
      k := k + 1;
    }
    r := Ok(Evaluation(terminal, looks, None));
  }

  /** The looks are the reached ones in order of size; only the last may pass or kill, which ends
      the evaluation, and otherwise the next size is still collecting. */
  ghost predicate Sequential(cal: Calendar, grid: seq<Row>, e: Evaluation) {
    && Taken(cal, grid, e.looks) && |e.looks| <= 3
    && (forall k | 0 <= k < |e.looks| - 1 :: !Decided(e.looks[k]))
    && if e.looks != [] && Decided(e.looks[|e.looks| - 1]) then
         e.terminal == Some(e.looks[|e.looks| - 1].core.verdict) && e.nextLook.None?
       else
         && |e.looks| < 3 && e.terminal.None? && e.nextLook == Some(LOOK_SIZES[|e.looks|])
         && Look(cal, grid, LOOK_SIZES[|e.looks|]).Ok? && Look(cal, grid, LOOK_SIZES[|e.looks|]).value.Collecting?
  }

  ghost predicate Taken(cal: Calendar, grid: seq<Row>, looks: seq<LookResult>) {
    |looks| <= 3 && forall k | 0 <= k < |looks| :: looks[k].Reached? && Look(cal, grid, LOOK_SIZES[k]) == Ok(looks[k])
  }

  ghost predicate Decided(look: LookResult)
    requires look.Reached?
  {
    look.core.verdict == Pass || look.core.verdict == Kill
  }

  lemma {:induction false} EvaluationIsSequential(cal: Calendar, grid: seq<Row>, looks: seq<LookResult>)
    requires Taken(cal, grid, looks) && forall k | 0 <= k < |looks| - 1 :: !Decided(looks[k])
    ensures var r := EvaluateFrom(cal, grid, looks);
      if r.Ok? then Sequential(cal, grid, r.value) else exists k | 0 <= k < 3 :: Look(cal, grid, LOOK_SIZES[k]).Err?
    decreases 3 - |looks|
  {
    hide Look, EvaluateFrom;
    EvaluateStep(cal, grid, looks);
    if looks != [] && looks[|looks| - 1].Terminal() {
      assert Decided(looks[|looks| - 1]);
    } else if |looks| == 3 {
      LastLookDecides(cal, grid, looks[2]);
    } else {
      var next := Look(cal, grid, LOOK_SIZES[|looks|]);
      if next.Ok? && next.value.Reached? {
        TakenNext(cal, grid, looks, next.value);
        EvaluationIsSequential(cal, grid, looks + [next.value]);
      }
    }
  }

  lemma {:induction false} EvaluateStep(cal: Calendar, grid: seq<Row>, looks: seq<LookResult>)
    requires |looks| <= 3 && forall k | 0 <= k < |looks| :: looks[k].Reached?
    ensures var r := EvaluateFrom(cal, grid, looks);
      if looks != [] && looks[|looks| - 1].Terminal() then
        r == Ok(Evaluation(Some(looks[|looks| - 1].core.verdict), looks, None))
      else if |looks| == 3 then r == Ok(Evaluation(None, looks, None))
      else
        var next := Look(cal, grid, LOOK_SIZES[|looks|]);
        if next.Err? then r == Err
        else if next.value.Collecting? then r == Ok(Evaluation(None, looks, Some(LOOK_SIZES[|looks|])))
        else r == EvaluateFrom(cal, grid, looks + [next.value])
  {
    hide Look;
  }

  lemma TakenNext(cal: Calendar, grid: seq<Row>, looks: seq<LookResult>, next: LookResult)
    requires Taken(cal, grid, looks) && |looks| < 3 && next.Reached? && Look(cal, grid, LOOK_SIZES[|looks|]) == Ok(next)
    requires forall k | 0 <= k < |looks| - 1 :: !Decided(looks[k])
    requires looks == [] || !looks[|looks| - 1].Terminal()
    ensures Taken(cal, grid, looks + [next]) && forall k | 0 <= k < |looks| :: !Decided((looks + [next])[k])
  {
    hide Look;
  }

  lemma {:induction false} LastLookDecides(cal: Calendar, grid: seq<Row>, look: LookResult)
    requires look.Reached? && Look(cal, grid, 120) == Ok(look)
    ensures look.Terminal()
  {
    FinalLookDecides(cal, grid);
  }

  // ----- what a scan keeps -----

  ghost predicate IsPrefix<T>(a: seq<T>, b: seq<T>) {
    |a| <= |b| && b[..|a|] == a
  }

  lemma {:induction false} ScanGrows(grid: seq<Row>, target: nat, i: nat, retained: seq<Row>, skipped: seq<SkipNote>)
    requires i <= |grid| && ScanFrom(grid, target, i, retained, skipped).Ok?
    ensures var s := ScanFrom(grid, target, i, retained, skipped).value;
      IsPrefix(retained, s.retained) && IsPrefix(skipped, s.skipped)
    decreases |grid| - i
  {
    if i < |grid| {
      var row := grid[i];
      if !Primary(i) {
        ScanGrows(grid, target, i + 1, retained, skipped);
      } else if row.status.Skip? {
        ScanGrows(grid, target, i + 1, retained, skipped + [NoteOf(i, row)]);
      } else if GoodScore(row) && |retained| + 1 != target {
        ScanGrows(grid, target, i + 1, retained + [row], skipped);
      }
    }
  }

  /** A smaller target scans a prefix of what a larger one scans. */
  lemma {:induction false} ScanNested(grid: seq<Row>, small: nat, large: nat, i: nat, retained: seq<Row>, skipped: seq<SkipNote>)
    requires i <= |grid| && |retained| < small <= large
    requires ScanFrom(grid, large, i, retained, skipped).Ok?
    ensures ScanFrom(grid, small, i, retained, skipped).Ok?
    ensures var a, b := ScanFrom(grid, small, i, retained, skipped).value, ScanFrom(grid, large, i, retained, skipped).value;
      IsPrefix(a.retained, b.retained) && IsPrefix(a.skipped, b.skipped)
    decreases |grid| - i
  {
    if i < |grid| {
      var row := grid[i];
      if !Primary(i) {
        ScanNested(grid, small, large, i + 1, retained, skipped);
      } else if row.status.Skip? {
        ScanNested(grid, small, large, i + 1, retained, skipped + [NoteOf(i, row)]);
      } else if GoodScore(row) {
        if |retained| + 1 != small {
          ScanNested(grid, small, large, i + 1, retained + [row], skipped);
        } else if small != large {
          ScanGrows(grid, large, i + 1, retained + [row], skipped);
        }
      }
    }
  }

  ghost predicate Clear(grid: seq<Row>, n: nat)
    requires n <= |grid|
  {
    forall j | 0 <= j < n && Primary(j) :: grid[j].status.Skip? || GoodScore(grid[j])
  }

  /** Retained rows are primary grid rows, and everything before them was a skip or a score. */
  ghost predicate Unblocked(grid: seq<Row>, rows: seq<Row>) {
    forall k | 0 <= k < |rows| ::
      && 0 <= rows[k].originIndex < |grid| && Primary(rows[k].originIndex)
      && grid[rows[k].originIndex] == rows[k] && GoodScore(rows[k])
      && Clear(grid, rows[k].originIndex)
  }

  lemma ClearNext(grid: seq<Row>, i: nat)
    requires i < |grid| && Clear(grid, i) && (Primary(i) ==> grid[i].status.Skip? || GoodScore(grid[i]))
    ensures Clear(grid, i + 1)
  {
  }

  lemma UnblockedNext(cal: Calendar, grid: seq<Row>, rows: seq<Row>, i: nat)
    requires ValidGrid(cal, grid) && i < |grid| && Primary(i) && Clear(grid, i) && GoodScore(grid[i])
    requires Unblocked(grid, rows)
    ensures Unblocked(grid, rows + [grid[i]])
  {
    hide Clear, Day, GoodScore;
  }

  lemma UnblockedGood(grid: seq<Row>, rows: seq<Row>)
    requires Unblocked(grid, rows)
    ensures AllGood(rows)
  {
  }

  lemma UnblockedInRange(grid: seq<Row>, rows: seq<Row>)
    requires Unblocked(grid, rows) && rows != []
    ensures 0 <= rows[|rows| - 1].originIndex < |grid|
  {
  }

  lemma NothingScanned(grid: seq<Row>)
    ensures Clear(grid, 0) && Unblocked(grid, [])
  {
  }

  lemma {:induction false} ScanUnblocked(cal: Calendar, grid: seq<Row>, target: nat, i: nat, retained: seq<Row>, skipped: seq<SkipNote>)
    requires ValidGrid(cal, grid) && i <= |grid| && Clear(grid, i) && Unblocked(grid, retained)
    requires |retained| < target && ScanFrom(grid, target, i, retained, skipped).Ok?
    ensures var s := ScanFrom(grid, target, i, retained, skipped).value;
      && Unblocked(grid, s.retained)
      && |s.retained| <= target
      && (|s.retained| > |retained| ==> s.retained[|s.retained| - 1].originIndex >= i)
    decreases |grid| - i
  {
    hide Clear, Unblocked, Primary, Day;
    if i < |grid| {
      var row := grid[i];
      if !Primary(i) {
        ClearNext(grid, i);
        ScanUnblocked(cal, grid, target, i + 1, retained, skipped);
      } else if row.status.Skip? {
        ClearNext(grid, i);
        ScanUnblocked(cal, grid, target, i + 1, retained, skipped + [NoteOf(i, row)]);
      } else if GoodScore(row) {
        UnblockedNext(cal, grid, retained, i);
        if |retained| + 1 != target {
          ClearNext(grid, i);
          ScanGrows(grid, target, i + 1, retained + [row], skipped);
          ScanUnblocked(cal, grid, target, i + 1, retained + [row], skipped);
        }
      }
    }
  }

  /** Two grids that agree on the primary rows up to the last retained one scan alike. */
  lemma {:induction false} ScanAgrees(cal: Calendar, g: seq<Row>, h: seq<Row>, target: nat, t: nat, i: nat, retained: seq<Row>, skipped: seq<SkipNote>)
    requires ValidGrid(cal, g) && t < |g| && t < |h| && i <= t + 1
    requires forall j | 0 <= j <= t && Primary(j) :: g[j] == h[j]
    requires |retained| < target && ScanFrom(g, target, i, retained, skipped).Ok?
    requires var s := ScanFrom(g, target, i, retained, skipped).value;
      |s.retained| == target && s.retained[target - 1].originIndex == t
    requires Clear(g, i) && Unblocked(g, retained)
    ensures ScanFrom(h, target, i, retained, skipped) == ScanFrom(g, target, i, retained, skipped)
    decreases |g| - i
  {
    hide Clear, Unblocked, Primary, Day;
    ScanUnblocked(cal, g, target, i, retained, skipped);
    if i < |g| {
      var row := g[i];
      if !Primary(i) {
        ClearNext(g, i);
        ScanAgrees(cal, g, h, target, t, i + 1, retained, skipped);
      } else if row.status.Skip? {
        ClearNext(g, i);
        ScanAgrees(cal, g, h, target, t, i + 1, retained, skipped + [NoteOf(i, row)]);
      } else if GoodScore(row) && |retained| + 1 != target {
        ClearNext(g, i);
        UnblockedNext(cal, g, retained, i);
        ScanAgrees(cal, g, h, target, t, i + 1, retained + [row], skipped);
      }
    }
  }

  // ----- the source prefix -----

  lemma {:induction false} DaysIncrease(cal: Calendar, a: nat, b: nat)
    requires a < b
    ensures Day(cal, a) < Day(cal, b)
    decreases b
  {
    if a < b - 1 {
      DaysIncrease(cal, a, b - 1);
    }
  }

  /** What the source-prefix digest covers: the primary rows dated no later than `through`. */
  function SourcePrefix(grid: seq<Row>, through: int): seq<Row> {
    if grid == [] then []
    else
      var row := grid[|grid| - 1];
      SourcePrefix(grid[..|grid| - 1], through) + if row.marketDate <= through && Primary(row.originIndex) then [row] else []
  }

  lemma {:induction false} PrefixIs(cal: Calendar, grid: seq<Row>, n: nat, t: nat)
    requires ValidGrid(cal, grid) && n <= |grid|
    ensures var p := SourcePrefix(grid[..n], Day(cal, t));
      var m := if n <= t then n else t + 1;
      && |p| == (m + 4) / 5
      && forall j | 0 <= j < |p| :: 5 * j < n && p[j] == grid[5 * j]
    decreases n
  {
    hide Day, ValidGrid, SourcePrefix;
    if n == 0 {
      EmptyPrefix(Day(cal, t));
      assert grid[..0] == [];
    } else {
      PrefixIs(cal, grid, n - 1, t);
      PrefixNext(cal, grid, n, t);
    }
  }

  lemma EmptyPrefix(through: int)
    ensures SourcePrefix([], through) == []
  {
  }

  lemma PrefixNext(cal: Calendar, grid: seq<Row>, n: nat, t: nat)
    requires ValidGrid(cal, grid) && 0 < n <= |grid|
    ensures SourcePrefix(grid[..n], Day(cal, t))
         == SourcePrefix(grid[..n - 1], Day(cal, t)) + if n - 1 <= t && Primary(n - 1) then [grid[n - 1]] else []
  {
    hide Day;
    assert grid[..n][..n - 1] == grid[..n - 1];
    if n - 1 < t {
      DaysIncrease(cal, n - 1, t);
    } else if t < n - 1 {
      DaysIncrease(cal, t, n - 1);
    }
  }

  lemma PrefixDetermines(cal: Calendar, g: seq<Row>, h: seq<Row>, t: nat)
    requires ValidGrid(cal, g) && ValidGrid(cal, h) && t < |g| && Primary(t)
    requires SourcePrefix(g, Day(cal, t)) == SourcePrefix(h, Day(cal, t))
    ensures t < |h| && forall j | 0 <= j <= t && Primary(j) :: g[j] == h[j]
  {
    hide Day, SourcePrefix;
    PrefixIs(cal, g, |g|, t);
    PrefixIs(cal, h, |h|, t);
    assert g[..|g|] == g && h[..|h|] == h;
    var p := SourcePrefix(g, Day(cal, t));
    forall j | 0 <= j <= t && Primary(j)
      ensures j < |h| && g[j] == h[j]
    {
      var q := j / 5;
      assert q < |p| && 5 * q == j;
      assert p[q] == g[5 * q] == h[5 * q];
    }
  }

  // ----- what a reached look concludes -----

  /** The scored rows on every fifth index below `n`. */
  function Scores(grid: seq<Row>, n: nat): seq<Row>
    requires n <= |grid|
  {
    if n == 0 then [] else
    Scores(grid, n - 1) + if (n - 1) % 5 == 0 && grid[n - 1].status.Scored? then [grid[n - 1]] else []
  }

  /** Notes of the skipped rows on every fifth index below `n`. */
  function Skips(grid: seq<Row>, n: nat): seq<SkipNote>
    requires n <= |grid|
  {
    if n == 0 then [] else
    var row := grid[n - 1];
    Skips(grid, n - 1) + if (n - 1) % 5 == 0 && row.status.Skip? && row.skipReason.Some? && row.skipDecidedAt.Some?
                         then [SkipNote(n - 1, row.marketDate, row.skipReason.value, row.skipDecidedAt.value)] else []
  }

  /** The rows' delta, model and baseline figures. */
  ghost predicate Carry(rows: seq<Row>, xs: seq<real>, ms: seq<real>, bs: seq<real>) {
    && |rows| == |xs| == |ms| == |bs|
    && forall i | 0 <= i < |rows| ::
         rows[i].deltaIc == Some(xs[i]) && rows[i].modelIc == Some(ms[i]) && rows[i].baselineIc == Some(bs[i])
  }

  /** What a look of this size rests on and says: `t` is the index it ran to. */
  ghost predicate Concludes(grid: seq<Row>, size: nat, core: Core, t: nat, xs: seq<real>, ms: seq<real>, bs: seq<real>) {
    && t < |grid| && core.look == size && core.through == grid[t].marketDate && WellFormed(grid, t + 1)
    && Rests(core, size, Scores(grid, t + 1)) && core.skipped == Skips(grid, t + 1) && core.blocked.None?
    && Carry(Scores(grid, t + 1), xs, ms, bs)
    && Measures(core, xs, ms, bs)
    && (forall se | StandardError(core.delta, se) :: Judges(core, size, xs, ms, se))
  }

  /** The look retains its target number of rows, and is as recent as the latest of them. */
  ghost predicate Rests(core: Core, size: nat, rows: seq<Row>) {
    && |rows| == |core.retained| == (if size == 60 then 12 else if size == 90 then 18 else 24)
    && (forall i | 0 <= i < |rows| :: core.retained[i] == rows[i].marketDate)
    && (forall i | 0 <= i < |rows| :: rows[i].evaluatedAt.Some? && rows[i].evaluatedAt.value <= core.evaluatedAt)
    && (exists i | 0 <= i < |rows| :: rows[i].evaluatedAt == Some(core.evaluatedAt))
    && core.delta.critical == (if size == 60 then 2.431291192871 else if size == 90 then 2.315573401153 else 2.263728355255)
  }

  /** The figures are the means, the sample variance and the lag-one autocorrelation of the rows'
      values, stated without division. */
  ghost predicate Measures(core: Core, xs: seq<real>, ms: seq<real>, bs: seq<real>) {
    var n, spread := |xs| as real, |xs| as real * TotalSquares(xs) - Total(xs) * Total(xs);
    && core.delta.n == |xs| == |ms| == |bs| >= 2
    && core.delta.mean * n == Total(xs) && core.meanChampion * n == Total(ms) && core.meanRule * n == Total(bs)
    && core.delta.variance * (n * (n - 1.0)) == spread
    && core.delta.variance >= 0.0 && (core.delta.variance == 0.0 <==> Flat(xs)) && (core.lag1.None? <==> Flat(xs))
    && (core.lag1.Some? ==>
         core.lag1.value * (n * spread) == Centred(TotalNeighbours(xs), 2.0 * Total(xs) - xs[0] - xs[|xs| - 1], n, Total(xs)))
  }

  ghost predicate StandardError(v: Interval, se: real) {
    se >= 0.0 && se * se * v.n as real == v.variance
  }

  /** The verdict by the interval's two ends: equal values give none, a pass needs the lower end and
      the mean model figure above zero, a kill the upper end below; the last size always decides. */
  ghost predicate Judges(core: Core, size: nat, xs: seq<real>, ms: seq<real>, se: real) {
    var lower, upper := core.delta.mean - core.delta.critical * se, core.delta.mean + core.delta.critical * se;
    && (core.verdict.Pass? <==> !Flat(xs) && lower > 0.0 && Total(ms) > 0.0)
    && (core.verdict.ZeroVariance? <==> Flat(xs) && size != 120)
    && (core.verdict.Kill? <==>
         if Flat(xs) then size == 120 else upper < 0.0 || (size == 120 && !(lower > 0.0 && Total(ms) > 0.0)))
    && (core.verdict.Continue? <==> !Flat(xs) && size != 120 && !(upper < 0.0) && !(lower > 0.0 && Total(ms) > 0.0))
  }

  /** A row that a look refuses to read. */
  ghost predicate Malformed(row: Row) {
    if row.status.Skip? then
      || row.reason != row.skipReason || row.skipDecidedAt.None? || row.forwardEntryAt.None?
      || (row.skipReason != Some(FewerThan20Candidates) && row.skipReason != Some(ConstantScores))
      || row.skipDecidedAt.value >= row.forwardEntryAt.value
    else
      || row.skipReason.Some?
      || (!row.status.Pending? && !row.status.Invalid?
          && (!row.status.Scored? || row.deltaIc.None? || row.modelIc.None? || row.baselineIc.None?))
  }

  /** No row on every fifth index below `n` is malformed. */
  ghost predicate WellFormed(grid: seq<Row>, n: nat)
    requires n <= |grid|
  {
    forall j | 0 <= j < n && j % 5 == 0 :: !Malformed(grid[j])
  }

  /** A scan of the rows below `n` ended at its target, at the end of the grid, or at a row that
      blocks it. */
  ghost predicate Ends(grid: seq<Row>, target: nat, s: Scan, n: nat)
    requires target > 0
  {
    && n <= |grid| && s.retained == Scores(grid, n) && s.skipped == Skips(grid, n) && WellFormed(grid, n)
    && if |s.retained| >= target then
         |s.retained| == target && s.blocked.None? && n > 0 && s.retained[|s.retained| - 1] == grid[n - 1]
       else if n == |grid| then s.blocked.None?
       else
         && n % 5 == 0 && (grid[n].status.Pending? || grid[n].status.Invalid?)
         && s.blocked == Some(BlockNote(n, grid[n].marketDate, grid[n].reason, grid[n].status))
  }

  /** A scan retains exactly the scores before it ends, and fails only at a malformed row. */
  lemma {:induction false} ScanEnds(grid: seq<Row>, target: nat, i: nat, retained: seq<Row>, skipped: seq<SkipNote>) returns (n: nat)
    requires i <= |grid| && |retained| < target && retained == Scores(grid, i) && skipped == Skips(grid, i) && WellFormed(grid, i)
    ensures var r := ScanFrom(grid, target, i, retained, skipped);
      if r.Ok? then Ends(grid, target, r.value, n) else n < |grid| && n % 5 == 0 && Malformed(grid[n])
    decreases |grid| - i
  {
    n := i;
    if i < |grid| {
      var row := grid[i];
      if !Primary(i) {
        n := ScanEnds(grid, target, i + 1, retained, skipped);
      } else if row.status.Skip? {
        if GoodSkip(row) {
          n := ScanEnds(grid, target, i + 1, retained, skipped + [NoteOf(i, row)]);
        }
      } else if row.skipReason.None? && GoodScore(row) {
        if |retained| + 1 != target {
          n := ScanEnds(grid, target, i + 1, retained + [row], skipped);
        } else {
          n := i + 1;
        }
      }
    }
  }

  lemma ScanIsScores(grid: seq<Row>, target: nat) returns (t: nat)
    requires target > 0 && ScanFrom(grid, target, 0, [], []).Ok? && |ScanFrom(grid, target, 0, [], []).value.retained| >= target
    ensures var s := ScanFrom(grid, target, 0, [], []).value;
      && t < |grid| && s.retained == Scores(grid, t + 1) && s.skipped == Skips(grid, t + 1) && s.blocked.None?
      && |s.retained| == target && s.retained[target - 1] == grid[t] && WellFormed(grid, t + 1)
  {
    hide ScanFrom, Malformed;
    var n := ScanEnds(grid, target, 0, [], []);
    t := n - 1;
  }

  /** The dates of too few rows. */
  ghost predicate Awaits(rows: seq<Row>, dates: seq<int>, target: nat) {
    |rows| == |dates| < target && forall i | 0 <= i < |rows| :: dates[i] == rows[i].marketDate
  }

  /** Why a look is still collecting: the scores before `n` are too few, and `n` is the end of the
      grid or a row that blocks. */
  ghost predicate Waits(grid: seq<Row>, size: nat, look: LookResult, n: nat) {
    && look.Collecting? && look.look == size && n <= |grid| && WellFormed(grid, n)
    && Awaits(Scores(grid, n), look.origins, if size == 60 then 12 else if size == 90 then 18 else 24)
    && look.skips == Skips(grid, n)
    && if n == |grid| then look.block.None?
       else n % 5 == 0 && (grid[n].status.Pending? || grid[n].status.Invalid?)
            && look.block == Some(BlockNote(n, grid[n].marketDate, grid[n].reason, grid[n].status))
  }

  /** Every look that is neither reached nor waiting failed on the grid, a malformed row, or a
      missing stamp. */
  lemma LookWaits(cal: Calendar, grid: seq<Row>, size: nat) returns (n: nat)
    requires size in LOOK_SIZES && (Look(cal, grid, size).Err? || Look(cal, grid, size).value.Collecting?)
    ensures var r := Look(cal, grid, size);
      if r.Ok? then Waits(grid, size, r.value, n)
      else !ValidGrid(cal, grid) || (n < |grid| && n % 5 == 0 && (Malformed(grid[n]) || grid[n].evaluatedAt.None?))
  {
    hide ScanFrom, Day;
    n := ScanEnds(grid, Target(size), 0, [], []);
    var r := ScanFrom(grid, Target(size), 0, [], []);
    if ValidGrid(cal, grid) && r.Ok? {
      NothingScanned(grid);
      ScanUnblocked(cal, grid, Target(size), 0, [], []);
      UnblockedGood(grid, r.value.retained);
      n := FinishWaits(grid, size, r.value, n);
    }
  }

  lemma FinishWaits(grid: seq<Row>, size: nat, s: Scan, n: nat) returns (m: nat)
    requires size in LOOK_SIZES && Ends(grid, Target(size), s, n) && Unblocked(grid, s.retained) && AllGood(s.retained)
    requires Finish(grid, size, s).Err? || Finish(grid, size, s).value.Collecting?
    ensures if Finish(grid, size, s).Ok? then Waits(grid, size, Finish(grid, size, s).value, m)
      else m < |grid| && m % 5 == 0 && grid[m].evaluatedAt.None?
  {
    m := n;
    if Finish(grid, size, s).Err? {
      hide Ends;
      UnblockedInRange(grid, s.retained);
      var i := MissingStamp(s.retained);
      m := s.retained[i].originIndex;
    }
  }

  lemma {:induction false} MissingStamp(rows: seq<Row>) returns (i: nat)
    requires rows != [] && LatestStamp(rows).None?
    ensures i < |rows| && rows[i].evaluatedAt.None?
  {
    i := |rows| - 1;
    if rows[i].evaluatedAt.Some? {
      i := MissingStamp(rows[..i]);
    }
  }

  lemma {:induction false} StampIsLatest(rows: seq<Row>)
    requires LatestStamp(rows).Some?
    ensures forall i | 0 <= i < |rows| :: rows[i].evaluatedAt.Some? && rows[i].evaluatedAt.value <= LatestStamp(rows).value
    ensures exists i | 0 <= i < |rows| :: rows[i].evaluatedAt == LatestStamp(rows)
  {
    if |rows| > 1 {
      var rest := rows[..|rows| - 1];
      StampIsLatest(rest);
      assert forall i | 0 <= i < |rest| :: rest[i] == rows[i];
      var i :| 0 <= i < |rest| && rest[i].evaluatedAt == LatestStamp(rest);
      assert rows[i].evaluatedAt == LatestStamp(rest) && rows[|rows| - 1] == rows[|rows| - 1];
    } else {
      assert rows[0].evaluatedAt == LatestStamp(rows);
    }
  }

  /** Every reached look rests on the scores up to an index of the grid, and concludes from their
      own values. */
  lemma LookConcludes(cal: Calendar, grid: seq<Row>, size: nat) returns (t: nat, xs: seq<real>, ms: seq<real>, bs: seq<real>)
    requires size in LOOK_SIZES && Look(cal, grid, size).Ok? && Look(cal, grid, size).value.Reached?
    ensures Concludes(grid, size, Look(cal, grid, size).value.core, t, xs, ms, bs)
  {
    hide Finish, Rests, Measures, Judges, Carry, StandardError;
    var s := ScanFrom(grid, Target(size), 0, [], []).value;
    FinishReached(grid, size, s);
    t := ScanIsScores(grid, Target(size));
    FinishRests(grid, size, s);
    xs, ms, bs := FinishMeasures(grid, size, s);
    forall se | StandardError(Finish(grid, size, s).value.core.delta, se)
      ensures Judges(Finish(grid, size, s).value.core, size, xs, ms, se)
    {
      FinishJudges(grid, size, s, xs, ms, bs, se);
    }
  }

  lemma ReachedConcludes(cal: Calendar, grid: seq<Row>, size: nat)
    ensures var r := Look(cal, grid, size);
      r.Ok? && r.value.Reached? && size in LOOK_SIZES ==> exists t: nat, xs, ms, bs :: Concludes(grid, size, r.value.core, t, xs, ms, bs)
  {
    hide Concludes, Look;
    if Look(cal, grid, size).Ok? && Look(cal, grid, size).value.Reached? && size in LOOK_SIZES {
      var t, xs, ms, bs := LookConcludes(cal, grid, size);
    }
  }

  lemma OtherwiseWaits(cal: Calendar, grid: seq<Row>, size: nat)
    ensures var r := Look(cal, grid, size);
      r.Ok? && r.value.Collecting? && size in LOOK_SIZES ==> exists n: nat :: Waits(grid, size, r.value, n)
    ensures Look(cal, grid, size).Err? && size in LOOK_SIZES ==>
      !ValidGrid(cal, grid) || exists n: nat | n < |grid| && n % 5 == 0 :: Malformed(grid[n]) || grid[n].evaluatedAt.None?
  {
    hide Waits, Malformed, Look, ValidGrid;
    if size in LOOK_SIZES && (Look(cal, grid, size).Err? || Look(cal, grid, size).value.Collecting?) {
      var n := LookWaits(cal, grid, size);
    }
  }

  lemma FinishRests(grid: seq<Row>, size: nat, s: Scan)
    requires size in LOOK_SIZES && Finish(grid, size, s).Ok? && Finish(grid, size, s).value.Reached? && |s.retained| == Target(size)
    ensures var core := Finish(grid, size, s).value.core;
      Rests(core, size, s.retained) && core.skipped == s.skipped && core.blocked == s.blocked
  {
    hide Decide, LagOne, Mean;
    StampIsLatest(s.retained);
  }

  lemma FinishIs(grid: seq<Row>, size: nat, s: Scan)
    requires Finish(grid, size, s).Ok? && Finish(grid, size, s).value.Reached?
    ensures AllGood(s.retained) && |s.retained| >= 2
    ensures var core, rows := Finish(grid, size, s).value.core, s.retained;
      && core.delta == PrimaryInterval(Deltas(rows), size) && core.meanChampion == Mean(ModelIcs(rows))
      && core.meanRule == Mean(BaselineIcs(rows)) && core.lag1 == LagOne(Deltas(rows))
      && core.verdict == Decide(size, core.delta, core.meanChampion)
  {
    hide PrimaryInterval, Decide, LagOne, Mean, LatestStamp;
  }

  lemma FinishMeasures(grid: seq<Row>, size: nat, s: Scan) returns (xs: seq<real>, ms: seq<real>, bs: seq<real>)
    requires Finish(grid, size, s).Ok? && Finish(grid, size, s).value.Reached?
    ensures Carry(s.retained, xs, ms, bs) && Measures(Finish(grid, size, s).value.core, xs, ms, bs)
  {
    FinishIs(grid, size, s);
    xs, ms, bs := Deltas(s.retained), ModelIcs(s.retained), BaselineIcs(s.retained);
    hide *;
    RowsCarry(s.retained);
    FiguresMeasure(Finish(grid, size, s).value.core, size, xs, ms, bs);
  }

  lemma RowsCarry(rows: seq<Row>)
    requires AllGood(rows)
    ensures Carry(rows, Deltas(rows), ModelIcs(rows), BaselineIcs(rows))
  {
  }

  lemma FiguresMeasure(core: Core, size: nat, xs: seq<real>, ms: seq<real>, bs: seq<real>)
    requires |xs| == |ms| == |bs| >= 2 && core.delta == PrimaryInterval(xs, size)
    requires core.meanChampion == Mean(ms) && core.meanRule == Mean(bs) && core.lag1 == LagOne(xs)
    ensures Measures(core, xs, ms, bs)
  {
    hide PrimaryInterval, LagOne, Mean, TotalSquares, TotalNeighbours, Total, Centred, Flat;
    MeanIs(xs);
    MeanIs(ms);
    MeanIs(bs);
    VarianceIs(xs, size);
    LagOneIs(xs);
  }

  lemma VarianceIs(xs: seq<real>, size: nat)
    requires |xs| >= 2
    ensures var n, v := |xs| as real, PrimaryInterval(xs, size);
      && v.n == |xs| && v.mean == Mean(xs) && v.variance >= 0.0 && (v.variance == 0.0 <==> Flat(xs))
      && v.variance * (n * (n - 1.0)) == n * TotalSquares(xs) - Total(xs) * Total(xs)
  {
    hide Mean, TotalSquares, Total, SquaredDeviations;
    MeanIs(xs);
    DeviationsAre(xs, Mean(xs));
    FlatIff(xs, Mean(xs));
    OverOne(SquaredDeviations(xs, Mean(xs)), |xs| as real);
  }

  lemma OverOne(d: real, n: real)
    requires n >= 2.0 && d >= 0.0
    ensures d / (n - 1.0) * (n * (n - 1.0)) == n * d && d / (n - 1.0) >= 0.0 && (d / (n - 1.0) == 0.0 <==> d == 0.0)
  {
    var v := d / (n - 1.0);
    assert v * (n - 1.0) == d;
  }

  lemma LagOneIs(xs: seq<real>)
    requires |xs| >= 2
    ensures LagOne(xs).None? <==> Flat(xs)
    ensures LagOne(xs).Some? ==>
      var n := |xs| as real;
      LagOne(xs).value * (n * (n * TotalSquares(xs) - Total(xs) * Total(xs)))
      == Centred(TotalNeighbours(xs), 2.0 * Total(xs) - xs[0] - xs[|xs| - 1], n, Total(xs))
  {
    hide Mean, TotalSquares, Total, TotalNeighbours, SquaredDeviations, LagOneProducts, Centred;
    var m, n := Mean(xs), |xs| as real;
    MeanIs(xs);
    DeviationsAre(xs, m);
    NeighboursAre(xs, m);
    FlatIff(xs, m);
    if LagOne(xs).Some? {
      QuotientTimes(LagOneProducts(xs, m), SquaredDeviations(xs, m), n);
    }
  }

  lemma QuotientTimes(p: real, d: real, n: real)
    requires d != 0.0
    ensures p / d * (n * (n * d)) == n * n * p
  {
    var v := p / d;
    assert v * d == p;
    assert v * (n * (n * d)) == n * n * (v * d);
  }

  lemma FinishJudges(grid: seq<Row>, size: nat, s: Scan, xs: seq<real>, ms: seq<real>, bs: seq<real>, se: real)
    requires Finish(grid, size, s).Ok? && Finish(grid, size, s).value.Reached?
    requires Measures(Finish(grid, size, s).value.core, xs, ms, bs) && StandardError(Finish(grid, size, s).value.core.delta, se)
    ensures Judges(Finish(grid, size, s).value.core, size, xs, ms, se)
  {
    FinishIs(grid, size, s);
    var core := Finish(grid, size, s).value.core;
    assert core.delta.critical == Critical(size);
    hide Finish, Decide, Critical, Judges;
    VerdictJudges(core, size, xs, ms, bs, se);
  }

  lemma VerdictJudges(core: Core, size: nat, xs: seq<real>, ms: seq<real>, bs: seq<real>, se: real)
    requires Measures(core, xs, ms, bs) && StandardError(core.delta, se)
    requires core.verdict == Decide(size, core.delta, core.meanChampion) && core.delta.critical >= 0.0
    ensures Judges(core, size, xs, ms, se)
  {
    MeasuresAt(core, xs, ms, bs);
    hide Measures, Flat, Total, StandardError, ExcludesZero;
    ErrorBounds(core.delta, se);
    SameSign(core.meanChampion, |xs| as real, Total(ms));
    var lower, upper := core.delta.mean - core.delta.critical * se, core.delta.mean + core.delta.critical * se;
    assert core.delta.critical * se >= 0.0 by {
      ErrorNonNegative(core.delta, se);
    }
  }

  lemma ErrorNonNegative(v: Interval, se: real)
    requires StandardError(v, se) && v.critical >= 0.0
    ensures v.critical * se >= 0.0
  {
    NonNegativeProduct(v.critical, se);
  }

  lemma MeasuresAt(core: Core, xs: seq<real>, ms: seq<real>, bs: seq<real>)
    requires Measures(core, xs, ms, bs)
    ensures core.delta.n == |xs| >= 2 && core.meanChampion * |xs| as real == Total(ms)
    ensures core.delta.variance >= 0.0 && (core.delta.variance == 0.0 <==> Flat(xs))
  {
    hide TotalSquares, Total, TotalNeighbours, Centred, Flat;
  }

  lemma SameSign(m: real, n: real, s: real)
    requires n > 0.0 && m * n == s
    ensures m > 0.0 <==> s > 0.0
  {
  }

  /** The ends of the interval, with and without the root. */
  lemma ErrorBounds(v: Interval, se: real)
    requires StandardError(v, se) && v.n > 0 && v.critical >= 0.0 && v.variance >= 0.0
    ensures HasError(v) ==> (v.mean - v.critical * se > 0.0 <==> v.mean > 0.0 && ExcludesZero(v))
    ensures HasError(v) ==> (v.mean + v.critical * se < 0.0 <==> v.mean < 0.0 && ExcludesZero(v))
    ensures HasError(v) <==> v.variance != 0.0
  {
    var w, n := v.critical * se, v.n as real;
    NonNegativeProduct(v.critical, se);
    BeyondZero(v.mean, w);
    assert w * w * n == v.critical * v.critical * v.variance by {
      assert w * w * n == v.critical * v.critical * (se * se * n);
    }
    ScaledOrder(v.mean * v.mean, w * w, n);
  }

  lemma ScaledOrder(a: real, b: real, n: real)
    requires n > 0.0
    ensures a > b <==> a * n > b * n
  {
    var d := a - b;
    assert a * n - b * n == d * n;
  }

  // ----- the main results -----

  /** What a reached look was computed from. */
  lemma ReachedScan(cal: Calendar, g: seq<Row>, size: nat)
    requires size in LOOK_SIZES && Look(cal, g, size).Ok? && Look(cal, g, size).value.Reached?
    ensures ValidGrid(cal, g) && ScanFrom(g, Target(size), 0, [], []).Ok?
    ensures var s := ScanFrom(g, Target(size), 0, [], []).value;
      && Unblocked(g, s.retained) && |s.retained| == Target(size)
      && var t := s.retained[|s.retained| - 1].originIndex;
         0 <= t < |g| && Primary(t) && Look(cal, g, size).value.core.through == Day(cal, t)
  {
    hide Finish;
    assert ValidGrid(cal, g);
    ScanUnblocked(cal, g, Target(size), 0, [], []);
    FinishReached(g, size, ScanFrom(g, Target(size), 0, [], []).value);
  }

  lemma FinishReached(g: seq<Row>, size: nat, s: Scan)
    requires Finish(g, size, s).Ok? && Finish(g, size, s).value.Reached?
    ensures |s.retained| >= Target(size)
    ensures Finish(g, size, s).value.core.through == s.retained[|s.retained| - 1].marketDate
    ensures Finish(g, size, s).value.core.look == size
  {
  }

  lemma FinishIgnoresGrid(g: seq<Row>, h: seq<Row>, size: nat, s: Scan)
    requires Finish(g, size, s).Ok? && Finish(g, size, s).value.Reached?
    requires s.retained != [] && s.retained[|s.retained| - 1].originIndex < |h|
    ensures Finish(h, size, s).Ok? && Finish(h, size, s).value.Reached?
    ensures Finish(h, size, s).value.core == Finish(g, size, s).value.core
  {
  }

  /** A reached look is frozen: any valid grid with the same source prefix reaches the same
      look, and only the diagnostic can differ. */
  lemma FrozenLook(cal: Calendar, g: seq<Row>, h: seq<Row>, size: nat)
    requires size in LOOK_SIZES && Look(cal, g, size).Ok? && Look(cal, g, size).value.Reached?
    requires ValidGrid(cal, h)
    requires var through := Look(cal, g, size).value.core.through; SourcePrefix(g, through) == SourcePrefix(h, through)
    ensures Look(cal, h, size).Ok? && Look(cal, h, size).value.Reached?
    ensures Look(cal, h, size).value.core == Look(cal, g, size).value.core
  {
    hide Finish, SourcePrefix;
    ReachedScan(cal, g, size);
    var s := ScanFrom(g, Target(size), 0, [], []).value;
    var t := s.retained[|s.retained| - 1].originIndex;
    PrefixDetermines(cal, g, h, t);
    ScanAgrees(cal, g, h, Target(size), t, 0, [], []);
    FinishIgnoresGrid(g, h, size, s);
  }

  /** In particular, appending rows to the grid never changes a reached look. */
  lemma FrozenUnderExtension(cal: Calendar, g: seq<Row>, more: seq<Row>, size: nat)
    requires size in LOOK_SIZES && Look(cal, g, size).Ok? && Look(cal, g, size).value.Reached?
    requires ValidGrid(cal, g + more)
    ensures Look(cal, g + more, size).Ok? && Look(cal, g + more, size).value.Reached?
    ensures Look(cal, g + more, size).value.core == Look(cal, g, size).value.core
  {
    hide Finish;
    ReachedScan(cal, g, size);
    var s := ScanFrom(g, Target(size), 0, [], []).value;
    var t := s.retained[|s.retained| - 1].originIndex;
    forall j | 0 <= j <= t && Primary(j)
      ensures g[j] == (g + more)[j]
    {
    }
    ScanAgrees(cal, g, g + more, Target(size), t, 0, [], []);
    FinishIgnoresGrid(g, g + more, size, s);
  }

  /** The origins of the 60, 90 and 120 looks are nested prefixes, retained and skipped alike. */
  lemma LooksNested(cal: Calendar, g: seq<Row>, small: nat, large: nat)
    requires small in LOOK_SIZES && large in LOOK_SIZES && small <= large
    requires Look(cal, g, large).Ok? && Look(cal, g, large).value.Reached?
    ensures Look(cal, g, small).Ok? && Look(cal, g, small).value.Reached?
    ensures var a, b := Look(cal, g, small).value.core, Look(cal, g, large).value.core;
      IsPrefix(a.retained, b.retained) && IsPrefix(a.skipped, b.skipped)
  {
    hide Finish, ScanFrom, ValidGrid, Unblocked;
    ReachedScan(cal, g, large);
    NestedScans(cal, g, Target(small), Target(large));
    var a, b := ScanFrom(g, Target(small), 0, [], []).value, ScanFrom(g, Target(large), 0, [], []).value;
    FinishPrefix(g, small, large, a, b);
    FinishDates(g, small, a);
    FinishDates(g, large, b);
  }

  lemma {:induction false} StampOfPrefix(rows: seq<Row>, k: nat)
    requires 1 <= k <= |rows| && LatestStamp(rows).Some?
    ensures LatestStamp(rows[..k]).Some?
    decreases |rows|
  {
    if k < |rows| {
      StampOfPrefix(rows[..|rows| - 1], k);
      assert rows[..|rows| - 1][..k] == rows[..k];
    } else {
      assert rows[..k] == rows;
    }
  }

  lemma FinishPrefix(g: seq<Row>, small: nat, large: nat, a: Scan, b: Scan)
    requires Finish(g, large, b).Ok? && Finish(g, large, b).value.Reached?
    requires |a.retained| >= Target(small) && IsPrefix(a.retained, b.retained)
    requires 0 <= a.retained[|a.retained| - 1].originIndex < |g|
    ensures Finish(g, small, a).Ok?
  {
    hide PrimaryInterval, Mean, LagOne, DailyDeltas, LatestStamp;
    StampOfPrefix(b.retained, |a.retained|);
  }

  lemma NestedScans(cal: Calendar, g: seq<Row>, small: nat, large: nat)
    requires ValidGrid(cal, g) && 0 < small <= large && ScanFrom(g, large, 0, [], []).Ok?
    requires |ScanFrom(g, large, 0, [], []).value.retained| == large
    ensures ScanFrom(g, small, 0, [], []).Ok?
    ensures var a, b := ScanFrom(g, small, 0, [], []).value, ScanFrom(g, large, 0, [], []).value;
      && |a.retained| == small && AllGood(a.retained) && AllGood(b.retained)
      && IsPrefix(a.retained, b.retained) && 0 <= a.retained[small - 1].originIndex < |g|
      && IsPrefix(Dates(a.retained), Dates(b.retained)) && IsPrefix(a.skipped, b.skipped)
  {
    hide ScanFrom, Unblocked, Clear, ValidGrid;
    ScanNested(g, small, large, 0, [], []);
    SmallIsFull(g, small, large, 0, [], []);
    NothingScanned(g);
    ScanUnblocked(cal, g, small, 0, [], []);
    ScanUnblocked(cal, g, large, 0, [], []);
    var a, b := ScanFrom(g, small, 0, [], []).value, ScanFrom(g, large, 0, [], []).value;
    UnblockedGood(g, a.retained);
    UnblockedGood(g, b.retained);
    UnblockedInRange(g, a.retained);
    assert Dates(a.retained) == Dates(b.retained)[..|a.retained|];
  }

  lemma {:induction false} SmallIsFull(grid: seq<Row>, small: nat, large: nat, i: nat, retained: seq<Row>, skipped: seq<SkipNote>)
    requires i <= |grid| && |retained| < small <= large && ScanFrom(grid, large, i, retained, skipped).Ok?
    requires |ScanFrom(grid, large, i, retained, skipped).value.retained| >= large
    ensures ScanFrom(grid, small, i, retained, skipped).Ok?
    ensures |ScanFrom(grid, small, i, retained, skipped).value.retained| == small
    decreases |grid| - i
  {
    if i < |grid| {
      var row := grid[i];
      if !Primary(i) {
        SmallIsFull(grid, small, large, i + 1, retained, skipped);
      } else if row.status.Skip? {
        SmallIsFull(grid, small, large, i + 1, retained, skipped + [NoteOf(i, row)]);
      } else if GoodScore(row) && |retained| + 1 != small {
        SmallIsFull(grid, small, large, i + 1, retained + [row], skipped);
      }
    }
  }

  lemma FinishDates(g: seq<Row>, size: nat, s: Scan)
    requires Finish(g, size, s).Ok? && |s.retained| >= Target(size) && AllGood(s.retained)
    ensures Finish(g, size, s).value.Reached?
    ensures Finish(g, size, s).value.core.retained == Dates(s.retained)
    ensures Finish(g, size, s).value.core.skipped == s.skipped
  {
  }

  /** No origin at or after a pending or invalid primary origin is ever retained. */
  lemma NothingAfterABlock(cal: Calendar, g: seq<Row>, size: nat, b: nat)
    requires size in LOOK_SIZES && Look(cal, g, size).Ok?
    requires b < |g| && Primary(b) && Blocks(g[b])
    ensures var dates := RetainedDates(Look(cal, g, size).value);
      forall k | 0 <= k < |dates| :: dates[k] < Day(cal, b)
  {
    hide Day, Finish;
    ScanUnblocked(cal, g, Target(size), 0, [], []);
    var s := ScanFrom(g, Target(size), 0, [], []).value;
    FinishRetains(g, size, s);
    var dates := Dates(s.retained);
    forall k | 0 <= k < |dates|
      ensures dates[k] < Day(cal, b)
    {
      var index := s.retained[k].originIndex;
      assert Clear(g, index) && g[index] == s.retained[k];
      assert !(b < index) && index != b;
      DaysIncrease(cal, index, b);
    }
  }

  lemma FinishRetains(g: seq<Row>, size: nat, s: Scan)
    requires Finish(g, size, s).Ok?
    ensures RetainedDates(Finish(g, size, s).value) == Dates(s.retained)
  {
  }

  /** The final look always decides. */
  lemma FinalLookDecides(cal: Calendar, g: seq<Row>)
    requires Look(cal, g, 120).Ok? && Look(cal, g, 120).value.Reached?
    ensures Look(cal, g, 120).value.Terminal()
  {
    hide PrimaryInterval, Mean, LagOne;
  }

  // ----- when a look is reached -----

  /** A primary row that a look can pass or retain. */
  predicate Plain(row: Row) {
    if row.status.Skip? then GoodSkip(row) else GoodScore(row) && row.skipReason.None? && row.evaluatedAt.Some?
  }

  ghost predicate PlainFrom(grid: seq<Row>, i: nat, n: nat)
    requires n <= |grid|
  {
    forall j | i <= j < n && Primary(j) :: Plain(grid[j])
  }

  function ScoreCount(grid: seq<Row>, i: nat, n: nat): nat
    requires n <= |grid|
    decreases n - i
  {
    if i >= n then 0 else (if Primary(i) && grid[i].status.Scored? then 1 else 0) + ScoreCount(grid, i + 1, n)
  }

  ghost predicate Stamped(rows: seq<Row>) {
    forall k | 0 <= k < |rows| :: GoodScore(rows[k]) && rows[k].evaluatedAt.Some?
  }

  lemma {:induction false} StampedHasStamp(rows: seq<Row>)
    requires Stamped(rows) && rows != []
    ensures LatestStamp(rows).Some?
  {
    if |rows| > 1 {
      StampedHasStamp(rows[..|rows| - 1]);
    }
  }

  lemma {:induction false} ScanEnough(grid: seq<Row>, target: nat, n: nat, i: nat, retained: seq<Row>, skipped: seq<SkipNote>)
    requires i <= n <= |grid| && PlainFrom(grid, i, n) && Stamped(retained)
    requires |retained| < target <= |retained| + ScoreCount(grid, i, n)
    ensures ScanFrom(grid, target, i, retained, skipped).Ok?
    ensures var s := ScanFrom(grid, target, i, retained, skipped).value; |s.retained| == target && Stamped(s.retained)
    decreases n - i
  {
    hide Primary, GoodSkip;
    if i < n {
      var row := grid[i];
      assert Primary(i) ==> Plain(row);
      if !Primary(i) {
        ScanEnough(grid, target, n, i + 1, retained, skipped);
      } else if row.status.Skip? {
        ScanEnough(grid, target, n, i + 1, retained, skipped + [NoteOf(i, row)]);
      } else if |retained| + 1 != target {
        ScanEnough(grid, target, n, i + 1, retained + [row], skipped);
      }
    }
  }

  /** Enough scored primary origins before any blocked one reach the look. */
  lemma EnoughScoresReach(cal: Calendar, grid: seq<Row>, size: nat, n: nat)
    requires ValidGrid(cal, grid) && n <= |grid| && PlainFrom(grid, 0, n) && ScoreCount(grid, 0, n) >= Target(size)
    ensures Look(cal, grid, size).Ok? && Look(cal, grid, size).value.Reached?
    ensures |Look(cal, grid, size).value.core.retained| == Target(size)
  {
    hide ValidGrid, PrimaryInterval, Mean, LagOne, Decide, PlainFrom;
    ScanEnough(grid, Target(size), n, 0, [], []);
    var s := ScanFrom(grid, Target(size), 0, [], []).value;
    NothingScanned(grid);
    ScanUnblocked(cal, grid, Target(size), 0, [], []);
    UnblockedInRange(grid, s.retained);
    StampedHasStamp(s.retained);
  }

  function ScoredRow(cal: Calendar, k: nat): Row {
    Row(k, Day(cal, k), Scored, None, None, None, None, None, Some(0), None, None, Some(0.0), Some(0.0), Some(0.0))
  }

  lemma {:induction false} AllScored(cal: Calendar, grid: seq<Row>, m: nat, p: nat)
    requires m <= p && 5 * p < |grid| && forall k | 0 <= k < |grid| :: grid[k] == ScoredRow(cal, k)
    ensures ScoreCount(grid, 5 * m, 5 * p + 1) == p - m + 1
    decreases p - m
  {
    hide ScoredRow;
    ScoredStatus(cal, 5 * m);
    if m < p {
      AllScored(cal, grid, m + 1, p);
      assert ScoreCount(grid, 5 * m + 1, 5 * p + 1) == ScoreCount(grid, 5 * m + 2, 5 * p + 1);
      assert ScoreCount(grid, 5 * m + 2, 5 * p + 1) == ScoreCount(grid, 5 * m + 3, 5 * p + 1);
      assert ScoreCount(grid, 5 * m + 3, 5 * p + 1) == ScoreCount(grid, 5 * m + 4, 5 * p + 1);
      assert ScoreCount(grid, 5 * m + 4, 5 * p + 1) == ScoreCount(grid, 5 * (m + 1), 5 * p + 1);
    } else {
      assert ScoreCount(grid, 5 * m + 1, 5 * p + 1) == 0;
    }
  }

  lemma ScoredStatus(cal: Calendar, k: nat)
    ensures ScoredRow(cal, k).status.Scored?
  {
  }

  /** Under every calendar each look can be reached. */
  lemma LooksAreReachable(cal: Calendar, size: nat) returns (grid: seq<Row>)
    requires size in LOOK_SIZES
    ensures Look(cal, grid, size).Ok? && Look(cal, grid, size).value.Reached?
  {
    hide Look;
    var p := Target(size) - 1;
    grid := seq(5 * p + 1, (k: nat) => ScoredRow(cal, k));
    AllScored(cal, grid, 0, p);
    EnoughScoresReach(cal, grid, size, 5 * p + 1);
  }
}
