/** The persisted looks, their database anchors and the external anchor file.
    Digests are symbolic: a digest is the canonical body it was taken of, so equal digests
    mean equal bodies; `Foreign` digests stand for any other recorded text. */
module LookLedger {
  import opened Options
  import opened Arithmetic
  import opened Looks

  /** `P15Scoring` is the registered policy id; the shared file may hold others. */
  datatype Policy = P15Scoring | OtherPolicy(id: string)

  datatype PrefixHash = PrefixDigest(rows: seq<Row>) | ForeignPrefix(text: string)

  datatype LookBody = LookBody(
    schema: int, policy: Policy, registration: string, look: nat, through: int, evaluatedAt: int,
    prefix: PrefixHash, previous: Option<LookHash>, result: LookResult)
  datatype LookHash = LookDigest(body: LookBody) | ForeignLook(text: string)
  datatype LookRecord = LookRecord(body: LookBody, sha: LookHash)

  datatype AnchorBody = AnchorBody(
    schema: int, policy: Policy, registration: string, look: nat, lookSha: LookHash, previous: Option<AnchorHash>)
  datatype AnchorHash = AnchorDigest(body: AnchorBody) | ForeignAnchor(text: string)
  datatype AnchorItem = AnchorItem(body: AnchorBody, sha: AnchorHash)
  datatype Line = Item(item: AnchorItem) | Malformed

  datatype DbAnchor = DbAnchor(look: nat, sha: LookHash, published: Option<AnchorHash>)
  datatype Tables = Tables(looks: seq<LookRecord>, anchors: seq<DbAnchor>)
  datatype Database = Database(initialised: bool, byRegistration: map<string, Tables>)

  function TablesOf(db: Database, reg: string): Tables {
    if reg in db.byRegistration then db.byRegistration[reg] else Tables([], [])
  }

  // ----- the anchor file -----

  function LastSha(items: seq<AnchorItem>): Option<AnchorHash> {
    if items == [] then None else Some(items[|items| - 1].sha)
  }

  predicate GoodItem(item: AnchorItem, previous: Option<AnchorHash>) {
    item.body.schema == 1 && item.body.previous == previous && item.sha == AnchorDigest(item.body)
  }

  /** The anchors of a file that is a valid hash chain. */
  function ReadExternal(file: seq<Line>): Result<seq<AnchorItem>> {
    if file == [] then Ok([])
    else
      match ReadExternal(file[..|file| - 1])
      case Err => Err
      case Ok(items) =>
        var line := file[|file| - 1];
        if line.Item? && GoodItem(line.item, LastSha(items)) then Ok(items + [line.item]) else Err
  }

  function Matching(items: seq<AnchorItem>, reg: string): seq<AnchorItem> {
    if items == [] then []
    else
      var last := items[|items| - 1];
      Matching(items[..|items| - 1], reg) + if last.body.policy == P15Scoring && last.body.registration == reg then [last] else []
  }

  function Lines(items: seq<AnchorItem>): (r: seq<Line>)
    ensures |r| == |items|
  {
    seq(|items|, i requires 0 <= i < |items| => Item(items[i]))
  }

  lemma {:induction false} ReadErrSticks(file: seq<Line>, n: nat)
    requires n <= |file| && ReadExternal(file[..n]).Err?
    ensures ReadExternal(file).Err?
    decreases |file| - n
  {
    if n < |file| {
      assert file[..n + 1][..n] == file[..n];
      ReadErrSticks(file, n + 1);
    } else {
      assert file[..n] == file;
    }
  }

  lemma ReadAppend(file: seq<Line>, item: AnchorItem)
    requires ReadExternal(file).Ok? && GoodItem(item, LastSha(ReadExternal(file).value))
    ensures ReadExternal(file + [Item(item)]) == Ok(ReadExternal(file).value + [item])
  {
    assert (file + [Item(item)])[..|file|] == file;
  }

  lemma MatchingAppend(items: seq<AnchorItem>, item: AnchorItem, reg: string)
    ensures Matching(items + [item], reg) ==
            Matching(items, reg) + if item.body.policy == P15Scoring && item.body.registration == reg then [item] else []
  {
    assert (items + [item])[..|items|] == items;
  }

  ghost predicate IsChain(items: seq<AnchorItem>) {
    forall i | 0 <= i < |items| :: GoodItem(items[i], LastSha(items[..i]))
  }

  /** What reading accepts is a hash chain; `ChainReads` is the converse. */
  lemma {:induction false} ReadIsChain(file: seq<Line>)
    requires ReadExternal(file).Ok?
    ensures IsChain(ReadExternal(file).value) && file == Lines(ReadExternal(file).value)
  {
    if file != [] {
      var front, item := file[..|file| - 1], file[|file| - 1].item;
      ReadIsChain(front);
      ChainNext(ReadExternal(front).value, item);
      assert file == front + [Item(item)];
    }
  }

  lemma ChainNext(items: seq<AnchorItem>, item: AnchorItem)
    requires IsChain(items) && GoodItem(item, LastSha(items))
    ensures IsChain(items + [item])
  {
    hide GoodItem;
    var all := items + [item];
    forall i | 0 <= i < |all|
      ensures GoodItem(all[i], LastSha(all[..i]))
    {
      if i < |items| {
        assert all[..i] == items[..i];
      } else {
        assert all[..i] == items;
      }
    }
  }

  lemma {:induction false} ChainReads(items: seq<AnchorItem>, n: nat)
    requires IsChain(items) && n <= |items|
    ensures ReadExternal(Lines(items)[..n]) == Ok(items[..n])
    decreases n
  {
    if n > 0 {
      ChainReads(items, n - 1);
      assert Lines(items)[..n][..n - 1] == Lines(items)[..n - 1];
      assert items[..n] == items[..n - 1] + [items[n - 1]];
    }
  }

  lemma ChainFront(a: seq<AnchorItem>)
    requires a != [] && IsChain(a)
    ensures IsChain(a[..|a| - 1])
  {
    assert forall i | 0 <= i < |a| - 1 :: a[..|a| - 1][..i] == a[..i];
  }

  /** Tamper evidence: two valid chains of equal last digest are the same chain. */
  lemma {:induction false} HeadDeterminesChain(a: seq<AnchorItem>, b: seq<AnchorItem>)
    requires IsChain(a) && IsChain(b) && LastSha(a) == LastSha(b)
    ensures a == b
    decreases |a|
  {
    if a != [] {
      var x, y := a[..|a| - 1], b[..|b| - 1];
      ChainFront(a);
      ChainFront(b);
      assert GoodItem(a[|a| - 1], LastSha(x)) && GoodItem(b[|b| - 1], LastSha(y));
      HeadDeterminesChain(x, y);
      assert a == x + [a[|a| - 1]] && b == y + [b[|b| - 1]];
    }
  }

  // ----- publishing -----

  predicate MatchOk(anchors: seq<DbAnchor>, m: seq<AnchorItem>) {
    && |m| <= |anchors|
    && forall i | 0 <= i < |m| ::
         && m[i].body.look == anchors[i].look && m[i].body.lookSha == anchors[i].sha
         && (anchors[i].published.None? || anchors[i].published == Some(m[i].sha))
  }

  function Stamp(reg: string, anchor: DbAnchor, previous: Option<AnchorHash>): AnchorItem {
    var body := AnchorBody(1, P15Scoring, reg, anchor.look, anchor.sha, previous);
    AnchorItem(body, AnchorDigest(body))
  }

  /** The anchors appended from row i on, up to the first row already marked published. */
  function NewItems(reg: string, anchors: seq<DbAnchor>, i: nat, last: Option<AnchorHash>): seq<AnchorItem>
    decreases |anchors| - i
  {
    if i >= |anchors| || anchors[i].published.Some? then []
    else
      var item := Stamp(reg, anchors[i], last);
      [item] + NewItems(reg, anchors, i + 1, Some(item.sha))
  }

  function Marked(anchors: seq<DbAnchor>, items: seq<AnchorItem>): (r: seq<DbAnchor>)
    requires |items| <= |anchors|
    ensures |r| == |anchors|
  {
    seq(|anchors|, i requires 0 <= i < |anchors| =>
      if i < |items| && anchors[i].published.None? then anchors[i].(published := Some(items[i].sha)) else anchors[i])
  }

  function SetAnchors(db: Database, reg: string, anchors: seq<DbAnchor>): Database {
    if reg in db.byRegistration then
      db.(byRegistration := db.byRegistration[reg := db.byRegistration[reg].(anchors := anchors)])
    else db
  }

  /** The database changes commit only if the count is present; file lines stay either way. */
  datatype Published = Published(db: Database, file: seq<Line>, count: Option<nat>)

  function Publish(db: Database, file: seq<Line>, reg: string): Published {
    match ReadExternal(file)
    case Err => Published(db, file, None)
    case Ok(items) =>
      var anchors, m := TablesOf(db, reg).anchors, Matching(items, reg);
      if !MatchOk(anchors, m) then Published(db, file, None)
      else
        var added := NewItems(reg, anchors, |m|, LastSha(items));
        if |m| + |added| != |anchors| then Published(db, file + Lines(added), None)
        else Published(SetAnchors(db, reg, Marked(anchors, m + added)), file + Lines(added), Some(|anchors|))
  }

  /** The file after a publisher died having appended `written` of its lines. */
  function CrashedFile(db: Database, file: seq<Line>, reg: string, written: nat): seq<Line> {
    match ReadExternal(file)
    case Err => file
    case Ok(items) =>
      var anchors, m := TablesOf(db, reg).anchors, Matching(items, reg);
      if !MatchOk(anchors, m) then file
      else
        var added := NewItems(reg, anchors, |m|, LastSha(items));
        file + Lines(added[..if written < |added| then written else |added|])
  }

  // ----- loading -----

  function PreviousSha(looks: seq<LookRecord>): Option<LookHash> {
    if looks == [] then None else Some(looks[|looks| - 1].sha)
  }

  predicate RowOk(cal: Calendar, grid: seq<Row>, reg: string, row: LookRecord, index: nat, previous: Option<LookHash>) {
    && index < |LOOK_SIZES| && row.body.look == LOOK_SIZES[index]
    && var recomputed := Look(cal, grid, LOOK_SIZES[index]);
       && recomputed.Ok? && recomputed.value.Reached?
       && row.body.schema == 1 && row.body.policy == P15Scoring && row.body.registration == reg
       && row.body.prefix == PrefixDigest(SourcePrefix(grid, recomputed.value.core.through))
       && row.body.previous == previous && row.sha == LookDigest(row.body)
       && row.body.result.Reached? && row.body.result.core == recomputed.value.core
       && row.body.result.core.look == LOOK_SIZES[index]
       && row.body.result.core.through == row.body.through
  }

  predicate Ended(looks: seq<LookResult>) {
    looks != [] && looks[|looks| - 1].Terminal()
  }

  function LoadRows(cal: Calendar, grid: seq<Row>, reg: string, rows: seq<LookRecord>): Result<seq<LookResult>> {
    if rows == [] then Ok([])
    else
      var front := rows[..|rows| - 1];
      match LoadRows(cal, grid, reg, front)
      case Err => Err
      case Ok(retained) =>
        var row := rows[|rows| - 1];
        if Ended(retained) || !RowOk(cal, grid, reg, row, |front|, PreviousSha(front)) then Err
        else Ok(retained + [row.body.result])
  }

  predicate SameKeys(t: Tables) {
    && |t.looks| == |t.anchors|
    && forall i | 0 <= i < |t.looks| :: t.anchors[i].look == t.looks[i].body.look && t.anchors[i].sha == t.looks[i].sha
  }

  predicate FullyPublished(anchors: seq<DbAnchor>, m: seq<AnchorItem>) {
    && |anchors| == |m|
    && forall i | 0 <= i < |m| ::
         m[i].body.look == anchors[i].look && m[i].body.lookSha == anchors[i].sha && anchors[i].published == Some(m[i].sha)
  }

  predicate StillCollecting(cal: Calendar, grid: seq<Row>, size: nat) {
    Look(cal, grid, size).Ok? && Look(cal, grid, size).value.Collecting?
  }

  predicate NoneMissed(cal: Calendar, grid: seq<Row>, retained: seq<LookResult>) {
    Ended(retained) || |retained| >= |LOOK_SIZES| || StillCollecting(cal, grid, LOOK_SIZES[|retained|])
  }

  function Load(cal: Calendar, db: Database, file: seq<Line>, grid: seq<Row>, reg: string, requireReached: bool): Result<seq<LookResult>> {
    if !db.initialised then if requireReached && !StillCollecting(cal, grid, LOOK_SIZES[0]) then Err else Ok([])
    else
      var t := TablesOf(db, reg);
      if !SameKeys(t) then Err
      else
        match ReadExternal(file)
        case Err => Err
        case Ok(items) =>
          if !FullyPublished(t.anchors, Matching(items, reg)) then Err
          else
            match LoadRows(cal, grid, reg, t.looks)
            case Err => Err
            case Ok(retained) => if requireReached && !NoneMissed(cal, grid, retained) then Err else Ok(retained)
  }

  // ----- persisting -----

  function NewRecord(grid: seq<Row>, reg: string, at: int, size: nat, previous: Option<LookHash>, item: LookResult): LookRecord
    requires item.Reached?
  {
    var through := item.core.through;
    var body := LookBody(1, P15Scoring, reg, size, through, at, PrefixDigest(SourcePrefix(grid, through)), previous, item);
    LookRecord(body, LookDigest(body))
  }

  function PersistFrom(cal: Calendar, grid: seq<Row>, reg: string, at: int, t: Tables, retained: seq<LookResult>): Result<(Tables, seq<LookResult>)>
    decreases |LOOK_SIZES| - |retained|
  {
    if Ended(retained) || |retained| >= |LOOK_SIZES| then Ok((t, retained))
    else
      match Look(cal, grid, LOOK_SIZES[|retained|])
      case Err => Err
      case Ok(item) =>
        if item.Collecting? then Ok((t, retained))
        else
          var record := NewRecord(grid, reg, at, LOOK_SIZES[|retained|], PreviousSha(t.looks), item);
          var t' := Tables(t.looks + [record], t.anchors + [DbAnchor(LOOK_SIZES[|retained|], record.sha, None)]);
          PersistFrom(cal, grid, reg, at, t', retained + [item])
  }

  function Persist(cal: Calendar, db: Database, file: seq<Line>, grid: seq<Row>, reg: string, at: int): Result<(Database, seq<LookResult>)> {
    var ready := db.(initialised := true);
    match Load(cal, ready, file, grid, reg, false)
    case Err => Err
    case Ok(retained) =>
      match PersistFrom(cal, grid, reg, at, TablesOf(ready, reg), retained)
      case Err => Err
      case Ok(r) => Ok((ready.(byRegistration := ready.byRegistration[reg := r.0]), r.1))
  }

  // ----- every run of the two-store protocol -----

  datatype Store = Store(db: Database, file: seq<Line>)

  datatype Step =
    | PublishStep(reg: string)
    | CrashStep(reg: string, written: nat)
    | PersistStep(reg: string, grid: seq<Row>, at: int)

  const EMPTY := Store(Database(false, map[]), [])

  function Next(cal: Calendar, s: Store, step: Step): Store {
    match step
    case PublishStep(reg) => var o := Publish(s.db, s.file, reg); Store(o.db, o.file)
    case CrashStep(reg, written) => Store(s.db, CrashedFile(s.db, s.file, reg, written))
    case PersistStep(reg, grid, at) =>
      match Persist(cal, s.db, s.file, grid, reg, at)
      case Err => s
      case Ok(r) => Store(r.0, s.file)
  }

  function Run(cal: Calendar, s: Store, steps: seq<Step>): Store
    decreases |steps|
  {
    if steps == [] then s else Run(cal, Next(cal, s, steps[0]), steps[1..])
  }

  /** The file's anchors are a prefix of the database anchors, and only those may carry a mark. */
  ghost predicate Follows(anchors: seq<DbAnchor>, m: seq<AnchorItem>) {
    MatchOk(anchors, m) && forall i | |m| <= i < |anchors| :: anchors[i].published.None?
  }

  ghost predicate Coherent(t: Tables, m: seq<AnchorItem>) {
    SameKeys(t) && Follows(t.anchors, m)
  }

  ghost predicate Sound(s: Store) {
    && ReadExternal(s.file).Ok?
    && forall reg :: Coherent(TablesOf(s.db, reg), Matching(ReadExternal(s.file).value, reg))
  }

  // ----- the added anchors -----

  ghost function Before(last: Option<AnchorHash>, more: seq<AnchorItem>, k: nat): Option<AnchorHash>
    requires k < |more|
  {
    if k == 0 then last else Some(more[k - 1].sha)
  }

  lemma {:induction false} NewItemsShape(reg: string, anchors: seq<DbAnchor>, i: nat, last: Option<AnchorHash>)
    requires i <= |anchors|
    ensures var f := NewItems(reg, anchors, i, last);
      && i + |f| <= |anchors|
      && (forall k | 0 <= k < |f| :: f[k] == Stamp(reg, anchors[i + k], Before(last, f, k)))
      && ((forall j | i <= j < |anchors| :: anchors[j].published.None?) ==> i + |f| == |anchors|)
    decreases |anchors| - i
  {
    hide Stamp;
    if i < |anchors| && anchors[i].published.None? {
      var item := Stamp(reg, anchors[i], last);
      NewItemsShape(reg, anchors, i + 1, Some(item.sha));
      var rest := NewItems(reg, anchors, i + 1, Some(item.sha));
      var f := [item] + rest;
      forall k | 0 <= k < |f|
        ensures f[k] == Stamp(reg, anchors[i + k], Before(last, f, k))
      {
        if k > 0 {
          assert rest[k - 1] == Stamp(reg, anchors[i + 1 + (k - 1)], Before(Some(item.sha), rest, k - 1));
        }
      }
    }
  }

  lemma {:induction false} NewItemsDrop(reg: string, anchors: seq<DbAnchor>, i: nat, last: Option<AnchorHash>, k: nat)
    requires i <= |anchors| && k <= |NewItems(reg, anchors, i, last)|
    ensures var f := NewItems(reg, anchors, i, last);
      NewItems(reg, anchors, i + k, if k == 0 then last else Some(f[k - 1].sha)) == f[k..]
    decreases k
  {
    if k > 0 {
      var item := Stamp(reg, anchors[i], last);
      var rest := NewItems(reg, anchors, i + 1, Some(item.sha));
      NewItemsDrop(reg, anchors, i + 1, Some(item.sha), k - 1);
      assert NewItems(reg, anchors, i, last) == [item] + rest;
      assert ([item] + rest)[k..] == rest[k - 1..];
    }
  }

  ghost predicate ChainsFrom(last: Option<AnchorHash>, more: seq<AnchorItem>) {
    forall k | 0 <= k < |more| :: GoodItem(more[k], Before(last, more, k))
  }

  ghost predicate AllOf(reg: string, more: seq<AnchorItem>) {
    forall k | 0 <= k < |more| :: more[k].body.policy == P15Scoring && more[k].body.registration == reg
  }

  lemma {:induction false} ExtendReads(file: seq<Line>, items: seq<AnchorItem>, more: seq<AnchorItem>, k: nat)
    requires ReadExternal(file) == Ok(items) && ChainsFrom(LastSha(items), more) && k <= |more|
    ensures ReadExternal(file + Lines(more[..k])) == Ok(items + more[..k])
    decreases k
  {
    hide GoodItem, Before, LastSha, Lines;
    if k == 0 {
      assert file + Lines(more[..k]) == file && items + more[..k] == items;
    } else {
      ExtendReads(file, items, more, k - 1);
      assert GoodItem(more[k - 1], Before(LastSha(items), more, k - 1));
      TakeNext(file, items, more, k);
      ReadAppend(file + Lines(more[..k - 1]), more[k - 1]);
    }
  }

  lemma TakeNext(file: seq<Line>, items: seq<AnchorItem>, more: seq<AnchorItem>, k: nat)
    requires 1 <= k <= |more|
    ensures file + Lines(more[..k]) == (file + Lines(more[..k - 1])) + [Item(more[k - 1])]
    ensures items + more[..k] == (items + more[..k - 1]) + [more[k - 1]]
    ensures LastSha(items + more[..k - 1]) == Before(LastSha(items), more, k - 1)
  {
  }

  lemma {:induction false} ExtendMatching(items: seq<AnchorItem>, more: seq<AnchorItem>, owner: string, reg: string)
    requires AllOf(owner, more)
    ensures Matching(items + more, reg) == if reg == owner then Matching(items, reg) + more else Matching(items, reg)
    decreases |more|
  {
    if more == [] {
      assert items + more == items;
    } else {
      var front, last := more[..|more| - 1], more[|more| - 1];
      ExtendMatching(items, front, owner, reg);
      MatchingAppend(items + front, last, reg);
      assert items + more == (items + front) + [last];
    }
  }

  // ----- publication: progress, convergence, crash recovery -----

  /** What publication appends for this registration. */
  ghost function Added(db: Database, items: seq<AnchorItem>, reg: string): seq<AnchorItem> {
    NewItems(reg, TablesOf(db, reg).anchors, |Matching(items, reg)|, LastSha(items))
  }

  ghost predicate Restates(f: seq<AnchorItem>, anchors: seq<DbAnchor>, from: nat) {
    && from + |f| == |anchors|
    && forall k | 0 <= k < |f| :: f[k].body.look == anchors[from + k].look && f[k].body.lookSha == anchors[from + k].sha
  }

  lemma AddedFacts(db: Database, items: seq<AnchorItem>, reg: string)
    requires Follows(TablesOf(db, reg).anchors, Matching(items, reg))
    ensures var f := Added(db, items, reg);
      && Restates(f, TablesOf(db, reg).anchors, |Matching(items, reg)|)
      && ChainsFrom(LastSha(items), f) && AllOf(reg, f)
  {
    hide Restates, ChainsFrom, AllOf, Stamp;
    NewItemsFacts(reg, TablesOf(db, reg).anchors, |Matching(items, reg)|, LastSha(items));
  }

  lemma NewItemsFacts(reg: string, anchors: seq<DbAnchor>, i: nat, last: Option<AnchorHash>)
    requires i <= |anchors| && forall j | i <= j < |anchors| :: anchors[j].published.None?
    ensures var f := NewItems(reg, anchors, i, last); Restates(f, anchors, i) && ChainsFrom(last, f) && AllOf(reg, f)
  {
    hide Stamp, Before, AllOf, ChainsFrom;
    NewItemsShape(reg, anchors, i, last);
    StampsChain(reg, anchors, i, last, NewItems(reg, anchors, i, last));
  }

  lemma StampsChain(reg: string, anchors: seq<DbAnchor>, i: nat, last: Option<AnchorHash>, f: seq<AnchorItem>)
    requires i + |f| <= |anchors|
    requires forall k | 0 <= k < |f| :: f[k] == Stamp(reg, anchors[i + k], Before(last, f, k))
    ensures ChainsFrom(last, f) && AllOf(reg, f)
    ensures forall k | 0 <= k < |f| :: f[k].body.look == anchors[i + k].look && f[k].body.lookSha == anchors[i + k].sha
  {
    hide Before;
    forall k | 0 <= k < |f|
      ensures GoodItem(f[k], Before(last, f, k))
      ensures f[k].body.policy == P15Scoring && f[k].body.registration == reg
      ensures f[k].body.look == anchors[i + k].look && f[k].body.lookSha == anchors[i + k].sha
    {
      assert f[k] == Stamp(reg, anchors[i + k], Before(last, f, k));
    }
  }

  lemma AllOfPart(reg: string, f: seq<AnchorItem>, k: nat)
    requires AllOf(reg, f) && k <= |f|
    ensures AllOf(reg, f[..k])
  {
  }

  /** The store with some of the added anchors in the file. */
  lemma PartWritten(db: Database, file: seq<Line>, items: seq<AnchorItem>, reg: string, k: nat)
    requires ReadExternal(file) == Ok(items) && Sound(Store(db, file)) && k <= |Added(db, items, reg)|
    ensures var part := Added(db, items, reg)[..k];
      && ReadExternal(file + Lines(part)) == Ok(items + part)
      && Matching(items + part, reg) == Matching(items, reg) + part
      && (forall other | other != reg :: Matching(items + part, other) == Matching(items, other))
  {
    hide Added, GoodItem, Restates, SameKeys;
    assert Coherent(TablesOf(db, reg), Matching(items, reg));
    AddedFacts(db, items, reg);
    var part := Added(db, items, reg)[..k];
    AllOfPart(reg, Added(db, items, reg), k);
    ExtendReads(file, items, Added(db, items, reg), k);
    forall other
      ensures Matching(items + part, other) == if other == reg then Matching(items, other) + part else Matching(items, other)
    {
      ExtendMatching(items, part, reg, other);
    }
  }

  lemma PublishIs(db: Database, file: seq<Line>, items: seq<AnchorItem>, reg: string)
    requires ReadExternal(file) == Ok(items) && Sound(Store(db, file))
    ensures var anchors, m, f := TablesOf(db, reg).anchors, Matching(items, reg), Added(db, items, reg);
      && |m| + |f| == |anchors|
      && Publish(db, file, reg) == Published(SetAnchors(db, reg, Marked(anchors, m + f)), file + Lines(f), Some(|anchors|))
  {
    hide ChainsFrom, AllOf;
    assert Coherent(TablesOf(db, reg), Matching(items, reg));
    AddedFacts(db, items, reg);
  }

  lemma MarkedFacts(t: Tables, m: seq<AnchorItem>, f: seq<AnchorItem>)
    requires Coherent(t, m) && Restates(f, t.anchors, |m|)
    ensures FullyPublished(Marked(t.anchors, m + f), m + f)
    ensures SameKeys(t.(anchors := Marked(t.anchors, m + f)))
  {
  }

  /** From any sound store publication succeeds, makes the file and the database agree anchor
      by anchor, and leaves every other registration alone. */
  lemma PublishConverges(db: Database, file: seq<Line>, reg: string)
    requires Sound(Store(db, file))
    ensures var o := Publish(db, file, reg);
      && o.count == Some(|TablesOf(db, reg).anchors|)
      && ReadExternal(o.file).Ok?
      && FullyPublished(TablesOf(o.db, reg).anchors, Matching(ReadExternal(o.file).value, reg))
      && TablesOf(o.db, reg).looks == TablesOf(db, reg).looks
      && SameKeys(TablesOf(o.db, reg))
      && o.db.initialised == db.initialised
      && (forall other | other != reg ::
            && TablesOf(o.db, other) == TablesOf(db, other)
            && Matching(ReadExternal(o.file).value, other) == Matching(ReadExternal(file).value, other))
  {
    hide Added, Publish, FullyPublished, SameKeys, Restates, ChainsFrom, AllOf, Follows;
    var items := ReadExternal(file).value;
    var t, m, f := TablesOf(db, reg), Matching(items, reg), Added(db, items, reg);
    assert Coherent(t, m);
    PublishIs(db, file, items, reg);
    AddedFacts(db, items, reg);
    assert f[..|f|] == f;
    PartWritten(db, file, items, reg, |f|);
    MarkedFacts(t, m, f);
    SetAnchorsFacts(db, reg, Marked(t.anchors, m + f));
  }

  lemma SetAnchorsFacts(db: Database, reg: string, anchors: seq<DbAnchor>)
    requires |anchors| == |TablesOf(db, reg).anchors|
    ensures TablesOf(SetAnchors(db, reg, anchors), reg) == TablesOf(db, reg).(anchors := anchors)
    ensures forall other | other != reg :: TablesOf(SetAnchors(db, reg, anchors), other) == TablesOf(db, other)
    ensures SetAnchors(db, reg, anchors).initialised == db.initialised
  {
  }

  lemma PublishKeepsSound(db: Database, file: seq<Line>, reg: string)
    requires Sound(Store(db, file))
    ensures Sound(Store(Publish(db, file, reg).db, Publish(db, file, reg).file))
  {
    hide Matching, ReadExternal, NewItems, Publish;
    PublishConverges(db, file, reg);
    var o := Publish(db, file, reg);
    forall other
      ensures Coherent(TablesOf(o.db, other), Matching(ReadExternal(o.file).value, other))
    {
      assert Coherent(TablesOf(db, other), Matching(ReadExternal(file).value, other));
    }
  }

  /** Publishing again changes nothing. */
  lemma PublishIdempotent(db: Database, file: seq<Line>, reg: string)
    requires Sound(Store(db, file))
    ensures var o := Publish(db, file, reg); Publish(o.db, o.file, reg) == o
  {
    hide Matching, Publish;
    PublishConverges(db, file, reg);
    PublishKeepsSound(db, file, reg);
    var o := Publish(db, file, reg);
    var items := ReadExternal(o.file).value;
    PublishIs(o.db, o.file, items, reg);
    var a, m, f := TablesOf(o.db, reg).anchors, Matching(items, reg), Added(o.db, items, reg);
    assert f == [] && m + f == m;
    assert Marked(a, m) == a;
    assert o.file + Lines(f) == o.file;
  }

  /** A publisher that died after any number of lines leaves a sound store, and publishing
      again ends exactly where an uninterrupted publication would have. */
  lemma CrashRecovers(db: Database, file: seq<Line>, reg: string, written: nat)
    requires Sound(Store(db, file))
    ensures Sound(Store(db, CrashedFile(db, file, reg, written)))
    ensures Publish(db, CrashedFile(db, file, reg, written), reg) == Publish(db, file, reg)
  {
    hide Publish, MatchOk, SameKeys;
    var items := ReadExternal(file).value;
    var f := Added(db, items, reg);
    var k := if written < |f| then written else |f|;
    assert Coherent(TablesOf(db, reg), Matching(items, reg));
    CrashKeepsSound(db, file, items, reg, k);
    CrashThenPublish(db, file, items, reg, k);
  }

  lemma CrashKeepsSound(db: Database, file: seq<Line>, items: seq<AnchorItem>, reg: string, k: nat)
    requires ReadExternal(file) == Ok(items) && Sound(Store(db, file)) && k <= |Added(db, items, reg)|
    ensures Sound(Store(db, file + Lines(Added(db, items, reg)[..k])))
  {
    hide Added, ChainsFrom, AllOf, Coherent, Restates;
    var m, part := Matching(items, reg), Added(db, items, reg)[..k];
    assert Coherent(TablesOf(db, reg), m);
    CoherentFollows(TablesOf(db, reg), m);
    AddedFacts(db, items, reg);
    PartWritten(db, file, items, reg, k);
    CoherentPart(TablesOf(db, reg), m, Added(db, items, reg), k);
    forall other
      ensures Coherent(TablesOf(db, other), Matching(items + part, other))
    {
      assert Coherent(TablesOf(db, other), Matching(items, other));
    }
  }

  lemma CoherentFollows(t: Tables, m: seq<AnchorItem>)
    requires Coherent(t, m)
    ensures Follows(t.anchors, m)
  {
  }

  lemma CoherentPart(t: Tables, m: seq<AnchorItem>, f: seq<AnchorItem>, k: nat)
    requires Coherent(t, m) && Restates(f, t.anchors, |m|) && k <= |f|
    ensures Coherent(t, m + f[..k])
  {
  }

  lemma CrashThenPublish(db: Database, file: seq<Line>, items: seq<AnchorItem>, reg: string, k: nat)
    requires ReadExternal(file) == Ok(items) && Sound(Store(db, file)) && k <= |Added(db, items, reg)|
    ensures Publish(db, file + Lines(Added(db, items, reg)[..k]), reg) == Publish(db, file, reg)
  {
    hide Added, Publish, Coherent, Marked, SetAnchors;
    var anchors, m, f := TablesOf(db, reg).anchors, Matching(items, reg), Added(db, items, reg);
    CrashKeepsSound(db, file, items, reg, k);
    PartWritten(db, file, items, reg, k);
    PublishIs(db, file, items, reg);
    var crashed := file + Lines(f[..k]);
    PublishIs(db, crashed, items + f[..k], reg);
    AddedDrop(db, items, reg, k);
    Regroup(m, f, file, k);
  }

  lemma Regroup(m: seq<AnchorItem>, f: seq<AnchorItem>, file: seq<Line>, k: nat)
    requires k <= |f|
    ensures m + f == (m + f[..k]) + f[k..]
    ensures file + Lines(f) == (file + Lines(f[..k])) + Lines(f[k..])
  {
  }

  lemma AddedDrop(db: Database, items: seq<AnchorItem>, reg: string, k: nat)
    requires |Matching(items, reg)| <= |TablesOf(db, reg).anchors| && k <= |Added(db, items, reg)|
    requires Matching(items + Added(db, items, reg)[..k], reg) == Matching(items, reg) + Added(db, items, reg)[..k]
    ensures Added(db, items + Added(db, items, reg)[..k], reg) == Added(db, items, reg)[k..]
  {
    var f := Added(db, items, reg);
    NewItemsDrop(reg, TablesOf(db, reg).anchors, |Matching(items, reg)|, LastSha(items), k);
    assert LastSha(items + f[..k]) == if k == 0 then LastSha(items) else Some(f[k - 1].sha);
  }

  // ----- persistence -----

  lemma {:induction false} PersistFromFacts(cal: Calendar, grid: seq<Row>, reg: string, at: int, t: Tables, retained: seq<LookResult>)
    requires LoadRows(cal, grid, reg, t.looks) == Ok(retained) && |retained| == |t.looks| && SameKeys(t)
    requires PersistFrom(cal, grid, reg, at, t, retained).Ok?
    ensures var r := PersistFrom(cal, grid, reg, at, t, retained).value;
      && LoadRows(cal, grid, reg, r.0.looks) == Ok(r.1)
      && SameKeys(r.0) && NoneMissed(cal, grid, r.1)
      && IsPrefix(t.anchors, r.0.anchors) && IsPrefix(t.looks, r.0.looks)
      && (forall i | |t.anchors| <= i < |r.0.anchors| :: r.0.anchors[i].published.None?)
      && (forall i | |t.looks| <= i < |r.0.looks| :: r.0.looks[i].body.evaluatedAt == at)
    decreases |LOOK_SIZES| - |retained|
  {
    hide SourcePrefix, RowOk, LoadRows, Ended, Look, NewRecord, PreviousSha, SameKeys, StillCollecting;
    if |retained| < |LOOK_SIZES| {
      NextMissed(cal, grid, retained);
    }
    if !Ended(retained) && |retained| < |LOOK_SIZES| && Look(cal, grid, LOOK_SIZES[|retained|]).Ok? {
      var size := LOOK_SIZES[|retained|];
      var item := Look(cal, grid, size).value;
      if item.Reached? {
        var record := NewRecord(grid, reg, at, size, PreviousSha(t.looks), item);
        var t' := Tables(t.looks + [record], t.anchors + [DbAnchor(size, record.sha, None)]);
        NewRecordOk(cal, grid, reg, at, |retained|, PreviousSha(t.looks));
        LoadRowsAppend(cal, grid, reg, t.looks, record);
        KeysAppend(t, record, size);
        PersistFromFacts(cal, grid, reg, at, t', retained + [item]);
      }
    }
  }

  lemma NewRecordOk(cal: Calendar, grid: seq<Row>, reg: string, at: int, index: nat, previous: Option<LookHash>)
    requires index < |LOOK_SIZES| && Look(cal, grid, LOOK_SIZES[index]).Ok? && Look(cal, grid, LOOK_SIZES[index]).value.Reached?
    ensures RowOk(cal, grid, reg, NewRecord(grid, reg, at, LOOK_SIZES[index], previous, Look(cal, grid, LOOK_SIZES[index]).value), index, previous)
    ensures var record := NewRecord(grid, reg, at, LOOK_SIZES[index], previous, Look(cal, grid, LOOK_SIZES[index]).value);
      record.body.evaluatedAt == at && record.body.look == LOOK_SIZES[index] && record.body.result == Look(cal, grid, LOOK_SIZES[index]).value
  {
    hide Look, SourcePrefix;
    ReachedSize(cal, grid, LOOK_SIZES[index]);
  }

  lemma NextMissed(cal: Calendar, grid: seq<Row>, retained: seq<LookResult>)
    requires |retained| < |LOOK_SIZES|
    ensures var next := Look(cal, grid, LOOK_SIZES[|retained|]);
      StillCollecting(cal, grid, LOOK_SIZES[|retained|]) <==> next.Ok? && next.value.Collecting?
  {
  }

  lemma KeysAppend(t: Tables, record: LookRecord, size: nat)
    requires SameKeys(t) && record.body.look == size
    ensures SameKeys(Tables(t.looks + [record], t.anchors + [DbAnchor(size, record.sha, None)]))
  {
  }

  lemma LoadRowsAppend(cal: Calendar, grid: seq<Row>, reg: string, rows: seq<LookRecord>, row: LookRecord)
    requires LoadRows(cal, grid, reg, rows).Ok? && !Ended(LoadRows(cal, grid, reg, rows).value)
    requires RowOk(cal, grid, reg, row, |rows|, PreviousSha(rows))
    ensures LoadRows(cal, grid, reg, rows + [row]) == Ok(LoadRows(cal, grid, reg, rows).value + [row.body.result])
  {
    hide RowOk, Ended;
    assert (rows + [row])[..|rows|] == rows;
  }

  lemma ReachedSize(cal: Calendar, grid: seq<Row>, size: nat)
    requires Look(cal, grid, size).Ok? && Look(cal, grid, size).value.Reached?
    ensures Look(cal, grid, size).value.core.look == size
  {
    hide PrimaryInterval, Mean, LagOne, DailyDeltas, LatestStamp, ScanFrom;
  }

  lemma {:induction false} LoadedCount(cal: Calendar, grid: seq<Row>, reg: string, rows: seq<LookRecord>)
    requires LoadRows(cal, grid, reg, rows).Ok?
    ensures |LoadRows(cal, grid, reg, rows).value| == |rows| <= |LOOK_SIZES|
  {
    if rows != [] {
      LoadedCount(cal, grid, reg, rows[..|rows| - 1]);
    }
  }

  lemma PersistFacts(cal: Calendar, s: Store, grid: seq<Row>, reg: string, at: int)
    requires Sound(s) && Persist(cal, s.db, s.file, grid, reg, at).Ok?
    ensures var r := Persist(cal, s.db, s.file, grid, reg, at).value;
      && Sound(Store(r.0, s.file)) && r.0.initialised
      && LoadRows(cal, grid, reg, TablesOf(r.0, reg).looks) == Ok(r.1)
      && NoneMissed(cal, grid, r.1)
      && (forall other | other != reg :: TablesOf(r.0, other) == TablesOf(s.db, other))
      && var was, now := TablesOf(s.db, reg).looks, TablesOf(r.0, reg).looks;
         IsPrefix(was, now) && forall i | |was| <= i < |now| :: now[i].body.evaluatedAt == at
  {
    hide LoadRows, Matching, ReadExternal, PersistFrom, NoneMissed;
    var r := Persist(cal, s.db, s.file, grid, reg, at).value;
    var t := TablesOf(s.db, reg);
    var ready := s.db.(initialised := true);
    assert TablesOf(ready, reg) == t;
    var retained := LoadRows(cal, grid, reg, t.looks).value;
    LoadedCount(cal, grid, reg, t.looks);
    PersistFromFacts(cal, grid, reg, at, t, retained);
    var items := ReadExternal(s.file).value;
    forall other
      ensures Coherent(TablesOf(r.0, other), Matching(items, other))
    {
      assert Coherent(TablesOf(s.db, other), Matching(items, other));
    }
  }

  /** In every run of persists, publications and crashed publications, starting from nothing,
      the file stays a valid hash chain whose anchors are a prefix of the database anchors. */
  lemma {:induction false} RunStaysSound(cal: Calendar, s: Store, steps: seq<Step>)
    requires Sound(s)
    ensures Sound(Run(cal, s, steps))
    decreases |steps|
  {
    if steps != [] {
      match steps[0] {
        case PublishStep(reg) => PublishKeepsSound(s.db, s.file, reg);
        case CrashStep(reg, written) => CrashRecovers(s.db, s.file, reg, written);
        case PersistStep(reg, grid, at) =>
          if Persist(cal, s.db, s.file, grid, reg, at).Ok? {
            PersistFacts(cal, s, grid, reg, at);
          }
      }
      RunStaysSound(cal, Next(cal, s, steps[0]), steps[1..]);
    }
  }

  lemma EmptyIsSound()
    ensures Sound(EMPTY)
  {
  }

  /** Persisting reached looks, publishing, and loading them back with every reached look
      required returns exactly what was persisted. */
  lemma PersistPublishLoad(cal: Calendar, s: Store, grid: seq<Row>, reg: string, at: int)
    requires Sound(s) && Persist(cal, s.db, s.file, grid, reg, at).Ok?
    ensures var r := Persist(cal, s.db, s.file, grid, reg, at).value;
      var o := Publish(r.0, s.file, reg);
      Load(cal, o.db, o.file, grid, reg, true) == Ok(r.1)
  {
    hide Persist, Publish, LoadRows, Matching, ReadExternal, NoneMissed;
    PersistFacts(cal, s, grid, reg, at);
    var r := Persist(cal, s.db, s.file, grid, reg, at).value;
    PublishConverges(r.0, s.file, reg);
  }

  // ----- what a load vouches for -----

  /** The row is of its place: its digest is that of its body, it names the row before it and the
      grid's own prefix, and its figures are those the grid gives now. */
  ghost predicate RowVouched(cal: Calendar, grid: seq<Row>, reg: string, rows: seq<LookRecord>, i: nat)
    requires i < |rows| <= 3
  {
    var body, now := rows[i].body, Look(cal, grid, LOOK_SIZES[i]);
    && rows[i].sha == LookDigest(body) && body.previous == (if i == 0 then None else Some(rows[i - 1].sha))
    && body.schema == 1 && body.policy == P15Scoring && body.registration == reg && body.look == LOOK_SIZES[i]
    && now.Ok? && now.value.Reached? && body.result.Reached?
    && body.result.core == now.value.core && body.through == now.value.core.through
    && body.prefix == PrefixDigest(SourcePrefix(grid, body.through))
  }

  /** Every row is vouched for, and only the last may pass or kill. */
  ghost predicate Vouched(cal: Calendar, grid: seq<Row>, reg: string, rows: seq<LookRecord>) {
    && |rows| <= 3 && (forall i: nat | i < |rows| :: RowVouched(cal, grid, reg, rows, i))
    && forall i | 0 <= i < |rows| - 1 :: !Final(rows[i].body.result)
  }

  ghost predicate Final(look: LookResult) {
    look.Reached? && (look.core.verdict == Pass || look.core.verdict == Kill)
  }

  /** The rows load if and only if they are vouched for, and they load as stored. */
  lemma {:induction false} LoadsIffVouched(cal: Calendar, grid: seq<Row>, reg: string, rows: seq<LookRecord>)
    ensures LoadRows(cal, grid, reg, rows).Ok? <==> Vouched(cal, grid, reg, rows)
    ensures LoadRows(cal, grid, reg, rows).Ok? ==> AsStored(rows, LoadRows(cal, grid, reg, rows).value)
  {
    if rows != [] {
      hide *;
      var n := |rows| - 1;
      LoadsIffVouched(cal, grid, reg, rows[..n]);
      VouchedNext(cal, grid, reg, rows);
      LoadRowsNext(cal, grid, reg, rows);
      if LoadRows(cal, grid, reg, rows[..n]).Ok? {
        EndedIs(rows[..n], LoadRows(cal, grid, reg, rows[..n]).value);
        StoredNext(rows, LoadRows(cal, grid, reg, rows[..n]).value);
      }
    }
  }

  /** The looks loaded are the results stored. */
  ghost predicate AsStored(rows: seq<LookRecord>, looks: seq<LookResult>) {
    |looks| == |rows| && forall i | 0 <= i < |rows| :: looks[i] == rows[i].body.result
  }

  lemma StoredNext(rows: seq<LookRecord>, looks: seq<LookResult>)
    requires rows != [] && AsStored(rows[..|rows| - 1], looks)
    ensures AsStored(rows, looks + [rows[|rows| - 1].body.result])
  {
  }

  lemma {:induction false} LoadRowsNext(cal: Calendar, grid: seq<Row>, reg: string, rows: seq<LookRecord>)
    requires rows != []
    ensures var n, r := |rows| - 1, LoadRows(cal, grid, reg, rows);
      var before := LoadRows(cal, grid, reg, rows[..n]);
      && (r.Ok? <==> before.Ok? && !Ended(before.value) && RowOk(cal, grid, reg, rows[n], n, PreviousSha(rows[..n])))
      && (r.Ok? ==> r.value == before.value + [rows[n].body.result])
  {
    hide RowOk, Look, Ended;
  }

  lemma EndedIs(rows: seq<LookRecord>, retained: seq<LookResult>)
    requires AsStored(rows, retained)
    ensures Ended(retained) <==> rows != [] && rows[|rows| - 1].body.result.Terminal()
  {
  }

  lemma VouchedNext(cal: Calendar, grid: seq<Row>, reg: string, rows: seq<LookRecord>)
    requires rows != []
    ensures var n := |rows| - 1;
      Vouched(cal, grid, reg, rows) <==>
      && Vouched(cal, grid, reg, rows[..n]) && RowOk(cal, grid, reg, rows[n], n, PreviousSha(rows[..n]))
      && (n > 0 ==> !rows[n - 1].body.result.Terminal())
  {
    hide RowOk, RowVouched, Look;
    var n := |rows| - 1;
    if n < 3 {
      RowOkIff(cal, grid, reg, rows, n);
      forall i: nat | i < n
        ensures RowVouched(cal, grid, reg, rows, i) <==> RowVouched(cal, grid, reg, rows[..n], i)
      {
        SameVouch(cal, grid, reg, rows, n, i);
      }
      if n > 0 && RowVouched(cal, grid, reg, rows, n - 1) {
        VouchedReached(cal, grid, reg, rows, n - 1);
      }
    } else {
      TooMany(cal, grid, reg, rows[n], n, PreviousSha(rows[..n]));
    }
  }

  lemma RowOkIff(cal: Calendar, grid: seq<Row>, reg: string, rows: seq<LookRecord>, n: nat)
    requires n < |rows| <= 3
    ensures RowVouched(cal, grid, reg, rows, n) <==> RowOk(cal, grid, reg, rows[n], n, PreviousSha(rows[..n]))
  {
    hide Look, SourcePrefix;
    if Look(cal, grid, LOOK_SIZES[n]).Ok? && Look(cal, grid, LOOK_SIZES[n]).value.Reached? {
      ReachedSize(cal, grid, LOOK_SIZES[n]);
    }
  }

  lemma SameVouch(cal: Calendar, grid: seq<Row>, reg: string, rows: seq<LookRecord>, n: nat, i: nat)
    requires i < n <= |rows| <= 3
    ensures RowVouched(cal, grid, reg, rows, i) <==> RowVouched(cal, grid, reg, rows[..n], i)
  {
    hide Look, SourcePrefix;
  }

  lemma VouchedReached(cal: Calendar, grid: seq<Row>, reg: string, rows: seq<LookRecord>, i: nat)
    requires i < |rows| <= 3 && RowVouched(cal, grid, reg, rows, i)
    ensures rows[i].body.result.Reached?
  {
    hide Look, SourcePrefix;
  }

  lemma TooMany(cal: Calendar, grid: seq<Row>, reg: string, row: LookRecord, index: nat, previous: Option<LookHash>)
    requires index >= 3
    ensures !RowOk(cal, grid, reg, row, index, previous)
  {
  }

  /** A load from an initialised store succeeds if and only if the file is a hash chain, its anchors,
      the database's anchors and the rows name the same looks one by one, every anchor is marked with
      its line, the rows are vouched for, and, when asked, no reached look is missing. */
  lemma LoadIff(cal: Calendar, db: Database, file: seq<Line>, grid: seq<Row>, reg: string, requireReached: bool)
    requires db.initialised
    ensures var t, r := TablesOf(db, reg), Load(cal, db, file, grid, reg, requireReached);
      r.Ok? <==>
      && (exists items :: IsChain(items) && file == Lines(items) && Agree(t, Matching(items, reg)))
      && Vouched(cal, grid, reg, t.looks) && (requireReached ==> NothingMissing(cal, grid, t.looks))
    ensures Load(cal, db, file, grid, reg, requireReached).Ok? ==>
      var t, r := TablesOf(db, reg), Load(cal, db, file, grid, reg, requireReached).value;
      AsStored(t.looks, r)
  {
    hide LoadRows, Vouched, Look, IsChain, GoodItem, Matching;
    var t := TablesOf(db, reg);
    LoadsIffVouched(cal, grid, reg, t.looks);
    if ReadExternal(file).Ok? {
      ReadIsChain(file);
    }
    forall items | IsChain(items) && file == Lines(items)
      ensures ReadExternal(file) == Ok(items)
    {
      ChainReads(items, |items|);
      assert file[..|items|] == file && items[..|items|] == items;
    }
    if LoadRows(cal, grid, reg, t.looks).Ok? {
      MissedIff(cal, grid, t.looks, LoadRows(cal, grid, reg, t.looks).value);
    }
  }

  /** Line, anchor and row agree at every place. */
  ghost predicate Agree(t: Tables, items: seq<AnchorItem>) {
    && |t.looks| == |t.anchors| == |items|
    && forall i | 0 <= i < |items| ::
         && items[i].body.look == t.anchors[i].look == t.looks[i].body.look
         && items[i].body.lookSha == t.anchors[i].sha == t.looks[i].sha
         && t.anchors[i].published == Some(items[i].sha)
  }

  /** The rows end with a pass or a kill, are all three, or the next look is still collecting. */
  ghost predicate NothingMissing(cal: Calendar, grid: seq<Row>, rows: seq<LookRecord>) {
    || |rows| >= 3
    || (rows != [] && Final(rows[|rows| - 1].body.result))
    || (Look(cal, grid, LOOK_SIZES[|rows|]).Ok? && Look(cal, grid, LOOK_SIZES[|rows|]).value.Collecting?)
  }

  lemma MissedIff(cal: Calendar, grid: seq<Row>, rows: seq<LookRecord>, retained: seq<LookResult>)
    requires AsStored(rows, retained)
    ensures NoneMissed(cal, grid, retained) <==> NothingMissing(cal, grid, rows)
  {
    hide Look;
  }

  // ----- a successful load is the evaluation -----

  ghost predicate SameCores(a: seq<LookResult>, b: seq<LookResult>) {
    |a| == |b| && forall i | 0 <= i < |a| :: a[i].Reached? && b[i].Reached? && a[i].core == b[i].core
  }

  lemma LoadRowsLast(cal: Calendar, grid: seq<Row>, reg: string, rows: seq<LookRecord>)
    requires rows != [] && LoadRows(cal, grid, reg, rows).Ok?
    ensures var front := rows[..|rows| - 1];
      && LoadRows(cal, grid, reg, front).Ok? && !Ended(LoadRows(cal, grid, reg, front).value)
      && LoadRows(cal, grid, reg, rows).value == LoadRows(cal, grid, reg, front).value + [rows[|rows| - 1].body.result]
      && |front| < |LOOK_SIZES|
      && Look(cal, grid, LOOK_SIZES[|front|]).Ok? && Look(cal, grid, LOOK_SIZES[|front|]).value.Reached?
      && rows[|rows| - 1].body.result.Reached?
      && rows[|rows| - 1].body.result.core == Look(cal, grid, LOOK_SIZES[|front|]).value.core
  {
    hide Look, SourcePrefix;
  }

  lemma EvaluateNext(cal: Calendar, grid: seq<Row>, looks: seq<LookResult>, item: LookResult)
    requires !Ended(looks) && |looks| < |LOOK_SIZES| && Look(cal, grid, LOOK_SIZES[|looks|]) == Ok(item) && item.Reached?
    ensures EvaluateFrom(cal, grid, looks) == EvaluateFrom(cal, grid, looks + [item])
  {
    hide Look;
  }

  lemma {:induction false} LoadedIsRecomputed(cal: Calendar, grid: seq<Row>, reg: string, rows: seq<LookRecord>) returns (looks: seq<LookResult>)
    requires LoadRows(cal, grid, reg, rows).Ok?
    ensures SameCores(looks, LoadRows(cal, grid, reg, rows).value) && |looks| == |rows|
    ensures EvaluateFrom(cal, grid, []) == EvaluateFrom(cal, grid, looks)
    decreases |rows|
  {
    hide Look, RowOk;
    if rows == [] {
      looks := [];
    } else {
      var front := rows[..|rows| - 1];
      LoadRowsLast(cal, grid, reg, rows);
      var before := LoadedIsRecomputed(cal, grid, reg, front);
      var retained := LoadRows(cal, grid, reg, front).value;
      var item := Look(cal, grid, LOOK_SIZES[|before|]).value;
      SameEnd(before, retained);
      EvaluateNext(cal, grid, before, item);
      looks := before + [item];
    }
  }

  lemma SameEnd(a: seq<LookResult>, b: seq<LookResult>)
    requires SameCores(a, b)
    ensures Ended(a) == Ended(b)
  {
    if a != [] {
      assert a[|a| - 1].core == b[|b| - 1].core;
    }
  }

  /** Whatever the two stores hold, a load that succeeds with every reached look required
      returns the evaluator's looks, apart from the diagnostic. */
  lemma LoadIsEvaluation(cal: Calendar, db: Database, file: seq<Line>, grid: seq<Row>, reg: string)
    requires Load(cal, db, file, grid, reg, true).Ok?
    ensures EvaluateFrom(cal, grid, []).Ok?
    ensures SameCores(EvaluateFrom(cal, grid, []).value.looks, Load(cal, db, file, grid, reg, true).value)
  {
    hide Look, LoadRows;
    if db.initialised {
      var rows := TablesOf(db, reg).looks;
      LoadedCount(cal, grid, reg, rows);
      var looks := LoadedIsRecomputed(cal, grid, reg, rows);
      SameEnd(looks, LoadRows(cal, grid, reg, rows).value);
    }
  }

  // ----- the stores, updated in place -----

  class LedgerStore {
    var db: Database
    var file: seq<Line>

    constructor ()
      ensures Store(db, file) == EMPTY
    {
      db, file := Database(false, map[]), [];
    }

    /** Read and validate the anchor file line by line. */
    method ReadAnchors() returns (r: Result<seq<AnchorItem>>)
      ensures r == ReadExternal(file)
    {
      var anchors: seq<AnchorItem> := [];
      var previous: Option<AnchorHash> := None;
      var index := 0;
      while index < |file|
        invariant 0 <= index <= |file|
        invariant ReadExternal(file[..index]) == Ok(anchors) && previous == LastSha(anchors)
      {
        var line := file[index];
        assert file[..index + 1][..index] == file[..index];
        if !(line.Item? && GoodItem(line.item, previous)) {
          ReadErrSticks(file, index + 1);
          return Err;
        }
        anchors := anchors + [line.item];
        previous := Some(line.item.sha);
        index := index + 1;
      }
      assert file[..index] == file;
      r := Ok(anchors);
    }

    /** Append one line per unpublished row, each chained to the line before it; stops at a
        row that already carries a mark. */
    method AppendAnchors(reg: string, rows: seq<DbAnchor>, start: nat, tip: Option<AnchorHash>) returns (added: seq<AnchorItem>)
      requires start <= |rows|
      modifies this`file
      ensures added == NewItems(reg, rows, start, tip)
      ensures file == old(file) + Lines(added)
    {
      added := [];
      var last := tip;
      var index := start;
      while index < |rows| && rows[index].published.None?
        invariant start <= index <= |rows|
        invariant added + NewItems(reg, rows, index, last) == NewItems(reg, rows, start, tip)
        invariant file == old(file) + Lines(added)
      {
        var item := Stamp(reg, rows[index], last);
        assert added + ([item] + NewItems(reg, rows, index + 1, Some(item.sha))) ==
               (added + [item]) + NewItems(reg, rows, index + 1, Some(item.sha));
        assert Lines(added + [item]) == Lines(added) + [Item(item)];
        file := file + [Item(item)];
        added := added + [item];
        last := Some(item.sha);
        index := index + 1;
      }
      assert added + [] == added;
    }

    /** Publish the committed anchors of one registration and mark them. */
    method PublishPending(reg: string) returns (count: Option<nat>)
      modifies this
      ensures Published(db, file, count) == Publish(old(db), old(file), reg)
    {
      hide NewItems, ReadExternal, Matching;
      var external := ReadAnchors();
      if external.Err? {
        return None;
      }
      var rows := TablesOf(db, reg).anchors;
      var matching := Matching(external.value, reg);
      if !MatchOk(rows, matching) {
        return None;
      }
      var added := AppendAnchors(reg, rows, |matching|, LastSha(external.value));
      if |matching| + |added| != |rows| {
        return None;
      }
      db := SetAnchors(db, reg, Marked(rows, matching + added));
      count := Some(|rows|);
    }

    /** Load the retained looks, recomputing each from the grid. */
    method LoadRetained(cal: Calendar, grid: seq<Row>, reg: string, requireReached: bool) returns (r: Result<seq<LookResult>>)
      ensures r == Load(cal, db, file, grid, reg, requireReached)
    {
      if !db.initialised {
        return if requireReached && !StillCollecting(cal, grid, LOOK_SIZES[0]) then Err else Ok([]);
      }
      var t := TablesOf(db, reg);
      if !SameKeys(t) {
        return Err;
      }
      var external := ReadAnchors();
      if external.Err? || !FullyPublished(t.anchors, Matching(external.value, reg)) {
        return Err;
      }
      var loaded := LoadLoop(cal, grid, reg, t.looks);
      if loaded.Err? || (requireReached && !NoneMissed(cal, grid, loaded.value)) {
        return Err;
      }
      r := loaded;
    }

    static method LoadLoop(cal: Calendar, grid: seq<Row>, reg: string, rows: seq<LookRecord>) returns (r: Result<seq<LookResult>>)
      ensures r == LoadRows(cal, grid, reg, rows)
    {
      hide RowOk;
      var retained: seq<LookResult> := [];
      var previous: Option<LookHash> := None;
      var index := 0;
      while index < |rows|
        invariant 0 <= index <= |rows|
        invariant LoadRows(cal, grid, reg, rows[..index]) == Ok(retained)
        invariant previous == PreviousSha(rows[..index])
        invariant index < |rows| ==> !Ended(retained)
      {
        var row := rows[index];
        assert rows[..index + 1][..index] == rows[..index];
        if !RowOk(cal, grid, reg, row, index, previous) {
          LoadErrSticks(cal, grid, reg, rows, index + 1);
          return Err;
        }
        retained := retained + [row.body.result];
        previous := Some(row.sha);
        index := index + 1;
        if Ended(retained) && index != |rows| {
          assert rows[..index + 1][..index] == rows[..index];
          LoadErrSticks(cal, grid, reg, rows, index + 1);
          return Err;
        }
      }
      assert rows[..index] == rows;
      r := Ok(retained);
    }

    /** Persist every newly reached look; nothing is committed if a look cannot be evaluated. */
    method PersistReached(cal: Calendar, grid: seq<Row>, reg: string, at: int) returns (r: Result<seq<LookResult>>)
      modifies this`db
      ensures match Persist(cal, old(db), file, grid, reg, at)
        case Err => r == Err && db.byRegistration == old(db.byRegistration)
        case Ok(p) => r == Ok(p.1) && db == p.0
    {
      hide Load, Look, NewRecord;
      db := db.(initialised := true);
      var loaded := LoadRetained(cal, grid, reg, false);
      if loaded.Err? {
        return Err;
      }
      var t := TablesOf(db, reg);
      var retained := loaded.value;
      while !Ended(retained) && |retained| < |LOOK_SIZES|
        invariant db == old(db).(initialised := true)
        invariant PersistFrom(cal, grid, reg, at, TablesOf(db, reg), loaded.value) == PersistFrom(cal, grid, reg, at, t, retained)
        decreases |LOOK_SIZES| - |retained|
      {
        var size := LOOK_SIZES[|retained|];
        var item := RunLook(cal, grid, size);
        if item.Err? {
          return Err;
        }
        if item.value.Collecting? {
          break;
        }
        var record := NewRecord(grid, reg, at, size, PreviousSha(t.looks), item.value);
        t := Tables(t.looks + [record], t.anchors + [DbAnchor(size, record.sha, None)]);
        retained := retained + [item.value];
      }
      db := db.(byRegistration := db.byRegistration[reg := t]);
      r := Ok(retained);
    }
  }

  lemma {:induction false} LoadErrSticks(cal: Calendar, grid: seq<Row>, reg: string, rows: seq<LookRecord>, n: nat)
    requires n <= |rows| && LoadRows(cal, grid, reg, rows[..n]).Err?
    ensures LoadRows(cal, grid, reg, rows).Err?
    decreases |rows| - n
  {
    hide RowOk;
    if n < |rows| {
      assert rows[..n + 1][..n] == rows[..n];
      LoadErrSticks(cal, grid, reg, rows, n + 1);
    } else {
      assert rows[..n] == rows;
    }
  }
}
