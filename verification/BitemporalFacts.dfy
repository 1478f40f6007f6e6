/** The append-only fact table: revision chains, the receipt each fact cites, the batched quote
    writer, and what was known at a cutoff. Digests are symbolic: a fact's digest is its body, a
    receipt's digest its identity, a payload's digest the payload. Times are integers. */
module BitemporalFacts {
  import opened Options

  const MAX_RAW_BYTES := 2_000_000

  /** A fact type is free text, or the intraday type of an interval. */
  datatype FactType = Named(text: string) | Intraday(interval: string)

  datatype Identity = Identity(
    source: string, dataset: string, endpoint: string, request: string, requested: int, received: int,
    status: int, contentType: string, body: seq<bv8>, license: string)

  datatype Receipt = Receipt(id: nat, identity: Identity)

  datatype Body = Body(
    entity: string, security: Option<string>, kind: FactType, event: int, published: Option<int>,
    available: int, ingested: int, revision: int, payload: string, source: string, version: string,
    receipt: Identity, previous: Option<Body>)

  datatype Fact = Fact(id: nat, body: Body)

  datatype Key = Key(entity: string, kind: FactType, event: int)

  function KeyOf(fact: Fact): Key {
    Key(fact.body.entity, fact.body.kind, fact.body.event)
  }

  // ----- reading the table -----

  /** The row with the key and the highest revision. */
  function Latest(facts: seq<Fact>, key: Key): Option<Fact> {
    if facts == [] then None else
    var before, last := Latest(facts[..|facts| - 1], key), facts[|facts| - 1];
    if KeyOf(last) == key && (before.None? || last.body.revision > before.value.body.revision) then Some(last) else before
  }

  lemma {:induction false} LatestFacts(facts: seq<Fact>, key: Key)
    ensures var r := Latest(facts, key);
      && (r.Some? ==> r.value in facts && KeyOf(r.value) == key)
      && (r.None? ==> forall f | f in facts :: KeyOf(f) != key)
      && (r.Some? ==> forall f | f in facts && KeyOf(f) == key :: f.body.revision <= r.value.body.revision)
  {
    if facts != [] {
      LatestFacts(facts[..|facts| - 1], key);
      assert facts == facts[..|facts| - 1] + [facts[|facts| - 1]];
    }
  }

  function NextId(facts: seq<Fact>): nat {
    if facts == [] then 1 else
    var before, last := NextId(facts[..|facts| - 1]), facts[|facts| - 1];
    if last.id >= before then last.id + 1 else before
  }

  // ----- checks -----

  /** Non-blank and printable, as the platform decides. */
  type Clean = string -> bool

  predicate Text(clean: Clean, value: string, maximum: nat) {
    clean(value) && |value| <= maximum
  }

  predicate TypeOk(clean: Clean, kind: FactType) {
    match kind
    case Named(text) => Text(clean, text, 256)
    case Intraday(interval) => Text(clean, interval, 16)
  }

  datatype Args = Args(
    entity: string, security: Option<string>, kind: FactType, event: int, published: Option<int>,
    available: int, ingested: int, payload: string, source: string, version: string, receipt: Identity)

  predicate ArgsOk(clean: Clean, a: Args) {
    && Text(clean, a.entity, 256) && TypeOk(clean, a.kind) && Text(clean, a.source, 256) && Text(clean, a.version, 256)
    && a.event <= a.available
    && (a.published.Some? ==> a.event <= a.published.value <= a.available)
    && a.available <= a.ingested
  }

  predicate HasReceipt(receipts: seq<Receipt>, identity: Identity) {
    exists i | 0 <= i < |receipts| :: receipts[i].identity == identity
  }

  predicate IdentityOk(clean: Clean, r: Identity) {
    && 0 < |r.body| <= MAX_RAW_BYTES && r.requested <= r.received
    && Text(clean, r.source, 256) && Text(clean, r.dataset, 256) && Text(clean, r.endpoint, 2048)
    && Text(clean, r.contentType, 256) && Text(clean, r.license, 256)
  }

  // ----- recording one fact -----

  datatype Reply = Reply(digest: Body, revision: int, replayed: bool)

  function ArgsKey(a: Args): Key {
    Key(a.entity, a.kind, a.event)
  }

  function NewBody(a: Args, latest: Option<Fact>): Body {
    Body(a.entity, a.security, a.kind, a.event, a.published, a.available, a.ingested,
         if latest.None? then 1 else latest.value.body.revision + 1, a.payload, a.source, a.version, a.receipt,
         if latest.None? then None else Some(latest.value.body))
  }

  predicate Replays(a: Args, latest: Option<Fact>) {
    latest.Some? && latest.value.body.payload == a.payload
  }

  function ReplyTo(a: Args, latest: Option<Fact>): Reply {
    if Replays(a, latest) then Reply(latest.value.body, latest.value.body.revision, true)
    else Reply(NewBody(a, latest), NewBody(a, latest).revision, false)
  }

  /** The table after recording one fact that passed the checks. */
  function Recorded(facts: seq<Fact>, a: Args): seq<Fact> {
    var latest := Latest(facts, ArgsKey(a));
    if Replays(a, latest) then facts else facts + [Fact(NextId(facts), NewBody(a, latest))]
  }

  function RecordedAll(facts: seq<Fact>, args: seq<Args>): seq<Fact> {
    if args == [] then facts else Recorded(RecordedAll(facts, args[..|args| - 1]), args[|args| - 1])
  }

  function RepliesAll(facts: seq<Fact>, args: seq<Args>): (r: seq<Reply>)
    ensures |r| == |args|
  {
    if args == [] then [] else
    var before, last := args[..|args| - 1], args[|args| - 1];
    RepliesAll(facts, before) + [ReplyTo(last, Latest(RecordedAll(facts, before), ArgsKey(last)))]
  }

  // ----- revision chains -----

  /** Each row continues the chain of its key as it stood when the row was written. */
  ghost predicate Continues(facts: seq<Fact>, i: nat)
    requires i < |facts|
  {
    var body, latest := facts[i].body, Latest(facts[..i], KeyOf(facts[i]));
    && facts[i].id == i + 1
    && if latest.None? then body.revision == 1 && body.previous == None
       else
         && body.revision == latest.value.body.revision + 1
         && body.previous == Some(latest.value.body) && body.payload != latest.value.body.payload
  }

  ghost predicate Chained(facts: seq<Fact>) {
    forall i: nat | i < |facts| :: Continues(facts, i)
  }

  lemma IdAt(facts: seq<Fact>, i: nat)
    requires Chained(facts) && i < |facts|
    ensures facts[i].id == i + 1
  {
    assert Continues(facts, i);
  }

  lemma NextIdChained(facts: seq<Fact>)
    requires Chained(facts)
    ensures NextId(facts) == |facts| + 1
  {
    hide Chained;
    forall f | f in facts
      ensures f.id < |facts| + 1
    {
      var i :| 0 <= i < |facts| && facts[i] == f;
      IdAt(facts, i);
    }
    NextIdBound(facts, |facts| + 1);
    if facts != [] {
      IdAt(facts, |facts| - 1);
    }
  }

  lemma {:induction false} NextIdBound(facts: seq<Fact>, bound: nat)
    requires bound >= 1 && forall f | f in facts :: f.id < bound
    ensures NextId(facts) <= bound
  {
    if facts != [] {
      NextIdBound(facts[..|facts| - 1], bound);
      assert facts[|facts| - 1] in facts;
    }
  }

  /** Recording continues the chain. */
  lemma RecordKeepsChained(facts: seq<Fact>, a: Args)
    requires Chained(facts)
    ensures Chained(Recorded(facts, a))
  {
    hide Continues;
    var after := Recorded(facts, a);
    if after != facts {
      NextIdChained(facts);
      NewestContinues(facts, a);
      forall i: nat | i < |facts|
        ensures Continues(after, i)
      {
        PrefixContinues(facts, after, i);
      }
    }
  }

  lemma PrefixContinues(facts: seq<Fact>, more: seq<Fact>, i: nat)
    requires i < |facts| && facts <= more && Continues(facts, i)
    ensures Continues(more, i)
  {
    assert facts[..i] == more[..i];
  }

  lemma NewestContinues(facts: seq<Fact>, a: Args)
    requires NextId(facts) == |facts| + 1 && !Replays(a, Latest(facts, ArgsKey(a)))
    ensures Continues(Recorded(facts, a), |facts|)
  {
    assert Recorded(facts, a)[..|facts|] == facts;
  }

  lemma {:induction false} RunKeepsChained(facts: seq<Fact>, args: seq<Args>)
    requires Chained(facts)
    ensures Chained(RecordedAll(facts, args))
  {
    hide Chained;
    if args != [] {
      RunKeepsChained(facts, args[..|args| - 1]);
      RecordKeepsChained(RecordedAll(facts, args[..|args| - 1]), args[|args| - 1]);
    }
  }

  /** In a chained table every revision from 1 to the latest of a key is there, once, each
      citing the one before it and changing the payload. */
  lemma {:induction false} RevisionsContiguous(facts: seq<Fact>, key: Key, r: int)
    requires Chained(facts) && Latest(facts, key).Some? && 1 <= r <= Latest(facts, key).value.body.revision
    ensures exists i: nat | i < |facts| :: AtRevision(facts[i], key, r) && (r > 1 ==> LinksBack(facts, i))
    decreases |facts|
  {
    var n := |facts| - 1;
    var before := facts[..n];
    assert Continues(facts, n);
    ChainedPrefix(facts, n);
    if AtRevision(facts[n], key, r) {
      if r > 1 {
        LatestAt(before, key);
        LatestFacts(before, key);
      }
    } else {
      LatestStep(facts, key);
      RevisionsContiguous(before, key, r);
      var i: nat :| i < |before| && AtRevision(before[i], key, r) && (r > 1 ==> LinksBack(before, i));
      assert facts[i] == before[i];
    }
  }

  ghost predicate AtRevision(fact: Fact, key: Key, r: int) {
    KeyOf(fact) == key && fact.body.revision == r
  }

  /** The row cites an earlier row of its key, one revision lower, with another payload. */
  ghost predicate LinksBack(facts: seq<Fact>, i: nat)
    requires i < |facts|
  {
    exists j: nat | j < i ::
      && AtRevision(facts[j], KeyOf(facts[i]), facts[i].body.revision - 1)
      && facts[i].body.previous == Some(facts[j].body) && facts[i].body.payload != facts[j].body.payload
  }

  lemma ChainedPrefix(facts: seq<Fact>, n: nat)
    requires Chained(facts) && n <= |facts|
    ensures Chained(facts[..n])
  {
    hide Continues;
    forall i: nat | i < n
      ensures Continues(facts[..n], i)
    {
      ContinuesPrefix(facts, n, i);
    }
  }

  lemma ContinuesPrefix(facts: seq<Fact>, n: nat, i: nat)
    requires i < n <= |facts| && Continues(facts, i)
    ensures Continues(facts[..n], i)
  {
    assert facts[..n][..i] == facts[..i];
  }

  lemma LatestAt(facts: seq<Fact>, key: Key)
    ensures Latest(facts, key).Some? ==> exists j: nat | j < |facts| :: facts[j] == Latest(facts, key).value
  {
    LatestFacts(facts, key);
  }

  lemma LatestStep(facts: seq<Fact>, key: Key)
    requires Chained(facts) && facts != [] && Latest(facts, key).Some?
    ensures var n := |facts| - 1;
      if KeyOf(facts[n]) == key then
        && Latest(facts, key) == Some(facts[n])
        && (facts[n].body.revision > 1 ==> Latest(facts[..n], key).Some? && Latest(facts[..n], key).value.body.revision == facts[n].body.revision - 1)
      else Latest(facts[..n], key) == Latest(facts, key)
  {
    assert Continues(facts, |facts| - 1);
  }

  /** No two rows of a chained table share key and revision. */
  lemma RevisionsUnique(facts: seq<Fact>, i: nat, j: nat)
    requires Chained(facts) && i < j < |facts| && KeyOf(facts[i]) == KeyOf(facts[j])
    ensures facts[i].body.revision < facts[j].body.revision
  {
    assert Continues(facts, j);
    LatestFacts(facts[..j], KeyOf(facts[j]));
    assert facts[..j][i] in facts[..j];
  }

  /** The table now holds `body` as the latest of its key: the old row when its payload is the same,
      otherwise a new row with the next revision, citing the old one. */
  ghost predicate Holds(before: seq<Fact>, after: seq<Fact>, body: Body) {
    var key := Key(body.entity, body.kind, body.event);
    var was, now := Latest(before, key), Latest(after, key);
    && now.Some?
    && if was.Some? && was.value.body.payload == body.payload then now == was
       else
         && now.value !in before
         && now.value.body == body.(revision := if was.None? then 1 else was.value.body.revision + 1,
                                    previous := if was.None? then None else Some(was.value.body))
  }

  /** Recording leaves the given values as the latest fact of their key. */
  lemma RecordHolds(facts: seq<Fact>, a: Args)
    requires Chained(facts)
    ensures Holds(facts, Recorded(facts, a),
                  Body(a.entity, a.security, a.kind, a.event, a.published, a.available, a.ingested, 0, a.payload, a.source, a.version, a.receipt, None))
  {
    hide Chained;
    var latest := Latest(facts, ArgsKey(a));
    RecordedLatest(facts, a);
    if !Replays(a, latest) {
      NextIdChained(facts);
      NewIsAbsent(facts, Fact(NextId(facts), NewBody(a, latest)));
    }
  }

  lemma NewIsAbsent(facts: seq<Fact>, fact: Fact)
    requires Chained(facts) && fact.id > |facts|
    ensures fact !in facts
  {
    hide Chained;
    if fact in facts {
      var i :| 0 <= i < |facts| && facts[i] == fact;
      IdAt(facts, i);
    }
  }

  lemma {:induction false} RecordedLatest(facts: seq<Fact>, a: Args)
    ensures var latest := Latest(facts, ArgsKey(a));
      Latest(Recorded(facts, a), ArgsKey(a)) == if Replays(a, latest) then latest else Some(Fact(NextId(facts), NewBody(a, latest)))
  {
    var after := Recorded(facts, a);
    if after != facts {
      assert after[..|after| - 1] == facts;
    }
  }

  /** After a run of distinct keys each row is the latest of its key, as if recorded alone. */
  lemma {:induction false} RunLatest(facts: seq<Fact>, args: seq<Args>, i: nat)
    requires Chained(facts) && i < |args| && forall j, k | 0 <= j < k < |args| :: ArgsKey(args[j]) != ArgsKey(args[k])
    ensures var latest, now := Latest(facts, ArgsKey(args[i])), Latest(RecordedAll(facts, args), ArgsKey(args[i]));
      if Replays(args[i], latest) then now == latest
      else now.Some? && now.value.body == NewBody(args[i], latest) && now.value !in facts
    decreases |args|
  {
    hide Chained, NewBody, Replays, Recorded;
    var before, last := args[..|args| - 1], args[|args| - 1];
    if i < |args| - 1 {
      RunLatest(facts, before, i);
      LatestOther(RecordedAll(facts, before), last, ArgsKey(args[i]));
    } else {
      LatestUntouched(facts, before, ArgsKey(last));
      RunKeepsChained(facts, before);
      RecordedLatest(RecordedAll(facts, before), last);
      NextIdChained(RecordedAll(facts, before));
      RunExtends(facts, before);
      NewIsAbsent(facts, Fact(NextId(RecordedAll(facts, before)), NewBody(last, Latest(facts, ArgsKey(last)))));
    }
  }

  lemma {:induction false} RunExtends(facts: seq<Fact>, args: seq<Args>)
    ensures facts <= RecordedAll(facts, args)
  {
    if args != [] {
      RunExtends(facts, args[..|args| - 1]);
    }
  }

  // ----- the batched quote writer -----

  datatype Quote = Quote(ticker: string, event: int, payload: string)

  datatype Batch = Batch(identity: Identity, interval: string, version: string, ingested: Option<int>, quotes: seq<Quote>)

  function IngestedAt(b: Batch): int {
    if b.ingested.None? then b.identity.received else b.ingested.value
  }

  function QuoteArgs(b: Batch, q: Quote): Args {
    Args(q.ticker, Some(q.ticker), Intraday(b.interval), q.event, None, b.identity.received, IngestedAt(b),
         q.payload, b.identity.source, b.version, b.identity)
  }

  function BatchArgs(b: Batch): (r: seq<Args>)
    ensures |r| == |b.quotes| && forall i | 0 <= i < |r| :: r[i] == QuoteArgs(b, b.quotes[i])
  {
    seq(|b.quotes|, i requires 0 <= i < |b.quotes| => QuoteArgs(b, b.quotes[i]))
  }

  predicate QuoteOk(clean: Clean, b: Batch, i: nat)
    requires i < |b.quotes|
  {
    var q := b.quotes[i];
    && Text(clean, q.ticker, 256) && q.event <= b.identity.received <= IngestedAt(b)
    && forall j | 0 <= j < i :: (b.quotes[j].ticker, b.quotes[j].event) != (q.ticker, q.event)
  }

  predicate BatchOk(clean: Clean, b: Batch) {
    && Text(clean, b.interval, 16) && Text(clean, b.identity.source, 256) && Text(clean, b.version, 256)
    && (forall i: nat | i < |b.quotes| :: QuoteOk(clean, b, i))
    && IdentityOk(clean, b.identity)
  }

  /** Every fact of a valid batch passes the checks of a single recording. */
  lemma BatchFactsPass(clean: Clean, b: Batch, i: nat)
    requires BatchOk(clean, b) && i < |b.quotes|
    ensures ArgsOk(clean, QuoteArgs(b, b.quotes[i]))
  {
    assert QuoteOk(clean, b, i);
  }

  lemma {:induction false} LatestUntouched(facts: seq<Fact>, args: seq<Args>, key: Key)
    requires forall i | 0 <= i < |args| :: ArgsKey(args[i]) != key
    ensures Latest(RecordedAll(facts, args), key) == Latest(facts, key)
  {
    if args != [] {
      var before, last := args[..|args| - 1], args[|args| - 1];
      LatestUntouched(facts, before, key);
      LatestOther(RecordedAll(facts, before), last, key);
    }
  }

  lemma LatestOther(facts: seq<Fact>, a: Args, key: Key)
    requires ArgsKey(a) != key
    ensures Latest(Recorded(facts, a), key) == Latest(facts, key)
  {
    var after := Recorded(facts, a);
    if after != facts {
      assert after[..|after| - 1] == facts;
    }
  }

  /** New bodies with consecutive ids. */
  function Numbered(bodies: seq<Body>, first: nat): (r: seq<Fact>)
    ensures |r| == |bodies| && forall i | 0 <= i < |r| :: r[i] == Fact(first + i, bodies[i])
  {
    seq(|bodies|, i requires 0 <= i < |bodies| => Fact(first + i, bodies[i]))
  }

  lemma NumberedStep(facts: seq<Fact>, bodies: seq<Body>, body: Body, first: nat)
    ensures facts + Numbered(bodies + [body], first) == facts + Numbered(bodies, first) + [Fact(first + |bodies|, body)]
  {
  }

  lemma NextIdAppend(facts: seq<Fact>, fact: Fact)
    requires fact.id == NextId(facts)
    ensures NextId(facts + [fact]) == NextId(facts) + 1
  {
    assert (facts + [fact])[..|facts|] == facts;
  }

  lemma {:induction false} NextIdNumbered(facts: seq<Fact>, bodies: seq<Body>)
    ensures NextId(facts + Numbered(bodies, NextId(facts))) == NextId(facts) + |bodies|
    decreases |bodies|
  {
    if bodies == [] {
      assert facts + Numbered(bodies, NextId(facts)) == facts;
    } else {
      var n := |bodies| - 1;
      NextIdNumbered(facts, bodies[..n]);
      assert bodies == bodies[..n] + [bodies[n]];
      NumberedStep(facts, bodies[..n], bodies[n], NextId(facts));
      NextIdAppend(facts + Numbered(bodies[..n], NextId(facts)), Fact(NextId(facts) + n, bodies[n]));
    }
  }

  lemma AllStep(facts: seq<Fact>, args: seq<Args>, k: nat)
    requires k < |args|
    ensures RecordedAll(facts, args[..k + 1]) == Recorded(RecordedAll(facts, args[..k]), args[k])
    ensures RepliesAll(facts, args[..k + 1]) ==
      RepliesAll(facts, args[..k]) + [ReplyTo(args[k], Latest(RecordedAll(facts, args[..k]), ArgsKey(args[k])))]
  {
    hide Recorded, ReplyTo;
    assert args[..k + 1][..k] == args[..k];
  }

  /** Rows of distinct keys can be looked up in the table as it was, numbered and appended at once:
      one more row does what recording it after the others does. */
  lemma BatchStep(facts: seq<Fact>, args: seq<Args>, k: nat, bodies: seq<Body>)
    requires k < |args| && forall j | 0 <= j < k :: ArgsKey(args[j]) != ArgsKey(args[k])
    requires RecordedAll(facts, args[..k]) == facts + Numbered(bodies, NextId(facts))
    ensures var latest := Latest(facts, ArgsKey(args[k]));
      && RecordedAll(facts, args[..k + 1]) ==
         facts + Numbered(if Replays(args[k], latest) then bodies else bodies + [NewBody(args[k], latest)], NextId(facts))
      && RepliesAll(facts, args[..k + 1]) == RepliesAll(facts, args[..k]) + [ReplyTo(args[k], latest)]
  {
    hide NewBody, Replays, ReplyTo, Recorded;
    var before, latest := RecordedAll(facts, args[..k]), Latest(facts, ArgsKey(args[k]));
    LatestUntouched(facts, args[..k], ArgsKey(args[k]));
    NextIdNumbered(facts, bodies);
    AppendNumbered(facts, bodies, before, args[k], latest, NextId(facts));
    AllStep(facts, args, k);
  }

  lemma AppendNumbered(facts: seq<Fact>, bodies: seq<Body>, before: seq<Fact>, a: Args, latest: Option<Fact>, first: nat)
    requires before == facts + Numbered(bodies, first) && NextId(before) == first + |bodies| && Latest(before, ArgsKey(a)) == latest
    ensures Recorded(before, a) == facts + Numbered(if Replays(a, latest) then bodies else bodies + [NewBody(a, latest)], first)
  {
    hide NewBody, Replays;
    NumberedStep(facts, bodies, NewBody(a, latest), first);
  }

  function WithReceipt(receipts: seq<Receipt>, identity: Identity): seq<Receipt> {
    if HasReceipt(receipts, identity) then receipts else receipts + [Receipt(NextReceipt(receipts), identity)]
  }

  function NextReceipt(receipts: seq<Receipt>): nat {
    if receipts == [] then 1 else
    var before, last := NextReceipt(receipts[..|receipts| - 1]), receipts[|receipts| - 1];
    if last.id >= before then last.id + 1 else before
  }

  predicate AllReplayed(replies: seq<Reply>) {
    forall i | 0 <= i < |replies| :: replies[i].replayed
  }

  datatype BatchReply = BatchReply(receipt: Identity, count: nat, digests: seq<Body>, replayed: bool)

  function Digests(replies: seq<Reply>): (r: seq<Body>)
    ensures |r| == |replies| && forall i | 0 <= i < |r| :: r[i] == replies[i].digest
  {
    seq(|replies|, i requires 0 <= i < |replies| => replies[i].digest)
  }

  /** Every fact cites a stored receipt. */
  ghost predicate Sourced(receipts: seq<Receipt>, facts: seq<Fact>) {
    forall i | 0 <= i < |facts| :: HasReceipt(receipts, facts[i].body.receipt)
  }

  /** No fact is known before it happened, was published, or was available. */
  ghost predicate Timed(facts: seq<Fact>) {
    forall i | 0 <= i < |facts| :: InTime(facts[i].body)
  }

  ghost predicate InTime(body: Body) {
    && body.event <= body.available <= body.ingested
    && (body.published.Some? ==> body.event <= body.published.value <= body.available)
  }

  lemma {:induction false} RunKeepsTimed(facts: seq<Fact>, args: seq<Args>)
    requires Timed(facts)
    requires forall i | 0 <= i < |args| :: InTime(NewBody(args[i], None))
    ensures Timed(RecordedAll(facts, args))
  {
    if args != [] {
      hide InTime;
      RunKeepsTimed(facts, args[..|args| - 1]);
      SameTimes(args[|args| - 1], Latest(RecordedAll(facts, args[..|args| - 1]), ArgsKey(args[|args| - 1])));
    }
  }

  lemma SameTimes(a: Args, latest: Option<Fact>)
    ensures InTime(NewBody(a, latest)) <==> InTime(NewBody(a, None))
  {
  }

  lemma CheckedIsTimed(clean: Clean, a: Args, latest: Option<Fact>)
    requires ArgsOk(clean, a)
    ensures InTime(NewBody(a, latest))
  {
  }

  /** The checks, field by field. */
  lemma ChecksAre(clean: Clean, a: Args)
    ensures ArgsOk(clean, a) <==>
      && (forall text | text in {a.entity, a.source, a.version} :: clean(text) && |text| <= 256)
      && (match a.kind case Named(text) => clean(text) && |text| <= 256 case Intraday(interval) => clean(interval) && |interval| <= 16)
      && a.event <= a.available <= a.ingested
      && (a.published.Some? ==> a.event <= a.published.value && a.published.value <= a.available)
  {
  }

  lemma ReceiptChecksAre(clean: Clean, r: Identity)
    ensures IdentityOk(clean, r) <==>
      && r.body != [] && |r.body| <= 2_000_000 && r.received >= r.requested
      && (forall text | text in {r.source, r.dataset, r.contentType, r.license} :: clean(text) && |text| <= 256)
      && clean(r.endpoint) && |r.endpoint| <= 2048
  {
  }

  /** A batch passes exactly when its receipt does, each of its quotes would pass alone, and no two
      are of one ticker and event. */
  lemma BatchChecksAre(clean: Clean, b: Batch)
    ensures BatchOk(clean, b) <==>
      && IdentityOk(clean, b.identity) && clean(b.interval) && |b.interval| <= 16 && clean(b.version) && |b.version| <= 256
      && (forall i | 0 <= i < |b.quotes| :: ArgsOk(clean, QuoteArgs(b, b.quotes[i])))
      && forall i, j | 0 <= j < i < |b.quotes| ::
           b.quotes[i].ticker != b.quotes[j].ticker || b.quotes[i].event != b.quotes[j].event
  {
    if BatchOk(clean, b) {
      forall i: nat | i < |b.quotes|
        ensures QuoteOk(clean, b, i) && ArgsOk(clean, QuoteArgs(b, b.quotes[i]))
      {
        BatchFactsPass(clean, b, i);
      }
    }
    forall i: nat | i < |b.quotes| && ArgsOk(clean, QuoteArgs(b, b.quotes[i]))
      ensures QuoteOk(clean, b, i) <==> forall j | 0 <= j < i :: b.quotes[i].ticker != b.quotes[j].ticker || b.quotes[i].event != b.quotes[j].event
    {
    }
  }

  class FactStore {
    var receipts: seq<Receipt>
    var facts: seq<Fact>

    ghost predicate Valid()
      reads this
    {
      Chained(facts) && Sourced(receipts, facts) && Timed(facts)
    }

    constructor ()
      ensures Valid() && facts == [] && receipts == []
    {
      receipts, facts := [], [];
    }

    method RecordReceipt(clean: Clean, identity: Identity) returns (r: Result<bool>)
      requires Valid()
      modifies this`receipts
      ensures Valid()
      ensures r.Ok? <==> IdentityOk(clean, identity)
      ensures r.Ok? ==> receipts == WithReceipt(old(receipts), identity) && r.value == HasReceipt(old(receipts), identity) && HasReceipt(receipts, identity)
      ensures r.Err? ==> receipts == old(receipts)
    {
      if !IdentityOk(clean, identity) {
        return Err;
      }
      var known := HasReceipt(receipts, identity);
      if !known {
        ReceiptsGrow(receipts, facts, Receipt(NextReceipt(receipts), identity));
        receipts := receipts + [Receipt(NextReceipt(receipts), identity)];
        assert receipts[|receipts| - 1].identity == identity;
      }
      r := Ok(known);
    }

    method RecordFact(clean: Clean, a: Args) returns (r: Result<Reply>)
      requires Valid()
      modifies this`facts
      ensures Valid()
      ensures r.Ok? <==> ArgsOk(clean, a) && HasReceipt(receipts, a.receipt)
      ensures r.Ok? ==> facts == Recorded(old(facts), a) && r.value == ReplyTo(a, Latest(old(facts), ArgsKey(a)))
      ensures r.Ok? ==> Holds(old(facts), facts,
        Body(a.entity, a.security, a.kind, a.event, a.published, a.available, a.ingested, 0, a.payload, a.source, a.version, a.receipt, None))
      ensures r.Ok? ==> Answers(old(facts), facts, Key(a.entity, a.kind, a.event), a.payload, r.value)
      ensures r.Err? ==> facts == old(facts)
    {
      hide Chained, Holds, Answers, InTime;
      RecordHolds(facts, a);
      ReplyAnswers(facts, a);
      if !ArgsOk(clean, a) || !HasReceipt(receipts, a.receipt) {
        return Err;
      }
      var latest := Latest(facts, ArgsKey(a));
      RecordKeepsChained(facts, a);
      if latest.Some? && latest.value.body.payload == a.payload {
        return Ok(Reply(latest.value.body, latest.value.body.revision, true));
      }
      var body := NewBody(a, latest);
      CheckedIsTimed(clean, a, latest);
      facts := facts + [Fact(NextId(facts), body)];
      r := Ok(Reply(body, body.revision, false));
    }

    /** Look every key up once, number the new rows, append them together. Leaves the table, ids,
        digests and replies of recording the receipt and then each quote by itself. */
    method RecordQuoteBatch(clean: Clean, b: Batch) returns (r: Result<BatchReply>)
      requires Valid()
      modifies this
      ensures Valid()
      ensures r.Ok? <==> BatchOk(clean, b)
      ensures r.Err? ==> facts == old(facts) && receipts == old(receipts)
      ensures r.Ok? ==>
        && receipts == WithReceipt(old(receipts), b.identity)
        && facts == RecordedAll(old(facts), BatchArgs(b))
        && r.value.receipt == b.identity && r.value.count == |facts| - |old(facts)|
        && r.value.digests == Digests(RepliesAll(old(facts), BatchArgs(b)))
        && r.value.replayed == (HasReceipt(old(receipts), b.identity) && AllReplayed(RepliesAll(old(facts), BatchArgs(b))))
        && Stores(old(facts), facts, b) && Reports(old(receipts), old(facts), facts, b, r.value)
    {
      if !BatchOk(clean, b) {
        return Err;
      }
      hide Chained, BatchOk, Sourced, Timed, Digests, AllReplayed, IdentityOk, Stores, Reports, RecordedAll, RepliesAll, Numbered, HasReceipt;
      var args := BatchArgs(b);
      BatchDistinct(clean, b);
      BatchHasReceipt(clean, b);
      var known := RecordReceipt(clean, b.identity);
      ghost var table := facts;
      var replies, bodies := NumberRows(args);
      RunKeepsChained(table, args);
      RunKeepsSourced(receipts, table, args, b.identity);
      BatchIsTimed(clean, table, b);
      facts := facts + Numbered(bodies, NextId(facts));
      r := Ok(BatchReply(b.identity, |bodies|, Digests(replies), known.value && AllReplayed(replies)));
      BatchStores(table, b);
      BatchReports(old(receipts), table, b, r.value);
    }

    /** The replies, and the bodies of the new rows. */
    method NumberRows(args: seq<Args>) returns (replies: seq<Reply>, bodies: seq<Body>)
      requires forall j, k | 0 <= j < k < |args| :: ArgsKey(args[j]) != ArgsKey(args[k])
      ensures RecordedAll(facts, args) == facts + Numbered(bodies, NextId(facts)) && replies == RepliesAll(facts, args)
    {
      replies, bodies := [], [];
      var k := 0;
      assert facts + Numbered([], NextId(facts)) == facts;
      while k < |args|
        invariant 0 <= k <= |args|
        invariant RecordedAll(facts, args[..k]) == facts + Numbered(bodies, NextId(facts))
        invariant replies == RepliesAll(facts, args[..k])
      {
        var latest := Latest(facts, ArgsKey(args[k]));
        BatchStep(facts, args, k, bodies);
        if latest.Some? && latest.value.body.payload == args[k].payload {
          replies := replies + [Reply(latest.value.body, latest.value.body.revision, true)];
        } else {
          var body := NewBody(args[k], latest);
          replies := replies + [Reply(body, body.revision, false)];
          bodies := bodies + [body];
        }
        k := k + 1;
      }
      assert args[..k] == args;
    }
  }

  /** The reply names the latest fact of the key, and says whether it was there before. */
  ghost predicate Answers(before: seq<Fact>, after: seq<Fact>, key: Key, payload: string, reply: Reply) {
    var was, now := Latest(before, key), Latest(after, key);
    && now.Some? && reply.digest == now.value.body && reply.revision == now.value.body.revision
    && (reply.replayed <==> was.Some? && was.value.body.payload == payload)
  }

  lemma ReplyAnswers(facts: seq<Fact>, a: Args)
    ensures Answers(facts, Recorded(facts, a), Key(a.entity, a.kind, a.event), a.payload, ReplyTo(a, Latest(facts, ArgsKey(a))))
  {
    RecordedLatest(facts, a);
  }

  /** The key of a quote. */
  function QuoteKey(b: Batch, i: nat): Key
    requires i < |b.quotes|
  {
    Key(b.quotes[i].ticker, Intraday(b.interval), b.quotes[i].event)
  }

  ghost predicate SameQuote(facts: seq<Fact>, b: Batch, i: nat)
    requires i < |b.quotes|
  {
    Latest(facts, QuoteKey(b, i)).Some? && Latest(facts, QuoteKey(b, i)).value.body.payload == b.quotes[i].payload
  }

  /** The table after a batch: the latest fact of every quote's key holds the quote's own values,
      and no other key changes. */
  ghost predicate Stores(before: seq<Fact>, after: seq<Fact>, b: Batch) {
    && (forall i: nat | i < |b.quotes| ::
         Holds(before, after,
               Body(b.quotes[i].ticker, Some(b.quotes[i].ticker), Intraday(b.interval), b.quotes[i].event, None, b.identity.received,
                    if b.ingested.None? then b.identity.received else b.ingested.value, 0, b.quotes[i].payload,
                    b.identity.source, b.version, b.identity, None)))
    && (forall key | (forall i: nat | i < |b.quotes| :: QuoteKey(b, i) != key) :: Latest(after, key) == Latest(before, key))
  }

  /** The reply to a batch: the digest of each quote's latest fact, the number of quotes that were
      not there, and a replay when there were none and the receipt was known. */
  ghost predicate Reports(receipts: seq<Receipt>, before: seq<Fact>, after: seq<Fact>, b: Batch, r: BatchReply) {
    && |r.digests| == |b.quotes|
    && (forall i: nat | i < |b.quotes| :: Latest(after, QuoteKey(b, i)).Some? && r.digests[i] == Latest(after, QuoteKey(b, i)).value.body)
    && r.count == |set i: nat | i < |b.quotes| && !SameQuote(before, b, i)|
    && (r.replayed <==> HasReceipt(receipts, b.identity) && forall i: nat | i < |b.quotes| :: SameQuote(before, b, i))
  }

  lemma {:induction false} BatchStores(facts: seq<Fact>, b: Batch)
    requires Chained(facts) && forall i, j | 0 <= j < i < |b.quotes| :: ArgsKey(BatchArgs(b)[j]) != ArgsKey(BatchArgs(b)[i])
    ensures Stores(facts, RecordedAll(facts, BatchArgs(b)), b)
  {
    hide Chained, Holds, RecordedAll, Latest;
    forall i: nat | i < |b.quotes|
      ensures Holds(facts, RecordedAll(facts, BatchArgs(b)),
                    Body(b.quotes[i].ticker, Some(b.quotes[i].ticker), Intraday(b.interval), b.quotes[i].event, None, b.identity.received,
                         if b.ingested.None? then b.identity.received else b.ingested.value, 0, b.quotes[i].payload,
                         b.identity.source, b.version, b.identity, None))
    {
      QuoteHolds(facts, b, i);
    }
    forall key | (forall i: nat | i < |b.quotes| :: QuoteKey(b, i) != key)
      ensures Latest(RecordedAll(facts, BatchArgs(b)), key) == Latest(facts, key)
    {
      OtherKeyKept(facts, b, key);
    }
  }

  lemma {:induction false} QuoteHolds(facts: seq<Fact>, b: Batch, i: nat)
    requires Chained(facts) && forall i, j | 0 <= j < i < |b.quotes| :: ArgsKey(BatchArgs(b)[j]) != ArgsKey(BatchArgs(b)[i])
    requires i < |b.quotes|
    ensures Holds(facts, RecordedAll(facts, BatchArgs(b)),
                  Body(b.quotes[i].ticker, Some(b.quotes[i].ticker), Intraday(b.interval), b.quotes[i].event, None, b.identity.received,
                       if b.ingested.None? then b.identity.received else b.ingested.value, 0, b.quotes[i].payload,
                       b.identity.source, b.version, b.identity, None))
  {
    hide Chained, RecordedAll, Latest;
    RunLatest(facts, BatchArgs(b), i);
  }

  lemma {:induction false} OtherKeyKept(facts: seq<Fact>, b: Batch, key: Key)
    requires forall i: nat | i < |b.quotes| :: QuoteKey(b, i) != key
    ensures Latest(RecordedAll(facts, BatchArgs(b)), key) == Latest(facts, key)
  {
    forall i | 0 <= i < |BatchArgs(b)|
      ensures ArgsKey(BatchArgs(b)[i]) != key
    {
      assert QuoteKey(b, i) != key;
    }
    LatestUntouched(facts, BatchArgs(b), key);
  }

  ghost predicate IsNew(facts: seq<Fact>, a: Args) {
    !Replays(a, Latest(facts, ArgsKey(a)))
  }

  ghost function NewOnes(facts: seq<Fact>, args: seq<Args>): set<nat> {
    set i: nat | i < |args| && IsNew(facts, args[i])
  }

  lemma {:induction false} CountNew(facts: seq<Fact>, args: seq<Args>)
    requires forall j, k | 0 <= j < k < |args| :: ArgsKey(args[j]) != ArgsKey(args[k])
    ensures |RecordedAll(facts, args)| == |facts| + |NewOnes(facts, args)|
  {
    if args != [] {
      var before, last := args[..|args| - 1], args[|args| - 1];
      CountNew(facts, before);
      LatestUntouched(facts, before, ArgsKey(last));
      RecordedLength(RecordedAll(facts, before), last);
      NewOnesStep(facts, before, last);
      assert args == before + [last];
    }
  }

  lemma NewOnesStep(facts: seq<Fact>, args: seq<Args>, a: Args)
    ensures NewOnes(facts, args + [a]) == NewOnes(facts, args) + if IsNew(facts, a) then {|args|} else {}
  {
    hide IsNew;
  }

  lemma RecordedLength(facts: seq<Fact>, a: Args)
    ensures |Recorded(facts, a)| == |facts| + if Replays(a, Latest(facts, ArgsKey(a))) then 0 else 1
  {
  }

  lemma QuoteReplays(facts: seq<Fact>, b: Batch, i: nat)
    requires i < |b.quotes|
    ensures ArgsKey(BatchArgs(b)[i]) == QuoteKey(b, i)
    ensures Replays(BatchArgs(b)[i], Latest(facts, QuoteKey(b, i))) <==> SameQuote(facts, b, i)
  {
  }

  lemma {:induction false} RunReplies(facts: seq<Fact>, args: seq<Args>, i: nat)
    requires i < |args| && forall j, k | 0 <= j < k < |args| :: ArgsKey(args[j]) != ArgsKey(args[k])
    ensures RepliesAll(facts, args)[i] == ReplyTo(args[i], Latest(facts, ArgsKey(args[i])))
    decreases |args|
  {
    var before := args[..|args| - 1];
    if i < |before| {
      RunReplies(facts, before, i);
    } else {
      LatestUntouched(facts, before, ArgsKey(args[i]));
    }
  }

  lemma {:induction false} BatchReports(receipts: seq<Receipt>, facts: seq<Fact>, b: Batch, r: BatchReply)
    requires Chained(facts) && forall i, j | 0 <= j < i < |b.quotes| :: ArgsKey(BatchArgs(b)[j]) != ArgsKey(BatchArgs(b)[i])
    requires r.count == |RecordedAll(facts, BatchArgs(b))| - |facts| && r.digests == Digests(RepliesAll(facts, BatchArgs(b)))
    requires r.replayed == (HasReceipt(receipts, b.identity) && AllReplayed(RepliesAll(facts, BatchArgs(b))))
    ensures Reports(receipts, facts, RecordedAll(facts, BatchArgs(b)), b, r)
  {
    hide Chained, SameQuote, NewBody, Replays, RecordedAll, RepliesAll;
    var args := BatchArgs(b);
    var replies := RepliesAll(facts, args);
    forall i: nat | i < |b.quotes|
      ensures var now := Latest(RecordedAll(facts, args), QuoteKey(b, i));
        now.Some? && r.digests[i] == now.value.body && (replies[i].replayed <==> SameQuote(facts, b, i))
    {
      RunLatest(facts, args, i);
      RunReplies(facts, args, i);
      QuoteReplays(facts, b, i);
      ReplyIs(args[i], Latest(facts, QuoteKey(b, i)));
    }
    CountNew(facts, args);
    assert NewOnes(facts, args) == set i: nat | i < |b.quotes| && !SameQuote(facts, b, i) by {
      NewQuotes(facts, b);
    }
  }

  lemma NewQuotes(facts: seq<Fact>, b: Batch)
    ensures NewOnes(facts, BatchArgs(b)) == set i: nat | i < |b.quotes| && !SameQuote(facts, b, i)
  {
    hide SameQuote, Replays;
    forall i: nat | i < |b.quotes|
      ensures IsNew(facts, BatchArgs(b)[i]) <==> !SameQuote(facts, b, i)
    {
      QuoteReplays(facts, b, i);
    }
  }

  lemma ReplyIs(a: Args, latest: Option<Fact>)
    ensures ReplyTo(a, latest).replayed <==> Replays(a, latest)
    ensures Replays(a, latest) ==> latest.Some? && ReplyTo(a, latest).digest == latest.value.body
    ensures !Replays(a, latest) ==> ReplyTo(a, latest).digest == NewBody(a, latest)
  {
  }

  lemma ReceiptsGrow(receipts: seq<Receipt>, facts: seq<Fact>, receipt: Receipt)
    requires Sourced(receipts, facts)
    ensures Sourced(receipts + [receipt], facts)
  {
    forall i | 0 <= i < |facts|
      ensures HasReceipt(receipts + [receipt], facts[i].body.receipt)
    {
      var j :| 0 <= j < |receipts| && receipts[j].identity == facts[i].body.receipt;
      assert (receipts + [receipt])[j] == receipts[j];
    }
  }

  lemma BatchDistinct(clean: Clean, b: Batch)
    requires BatchOk(clean, b)
    ensures forall i, j | 0 <= j < i < |b.quotes| :: ArgsKey(BatchArgs(b)[j]) != ArgsKey(BatchArgs(b)[i])
  {
    forall i, j | 0 <= j < i < |b.quotes|
      ensures ArgsKey(BatchArgs(b)[j]) != ArgsKey(BatchArgs(b)[i])
    {
      assert QuoteOk(clean, b, i);
    }
  }

  lemma BatchIsTimed(clean: Clean, facts: seq<Fact>, b: Batch)
    requires BatchOk(clean, b) && Timed(facts)
    ensures Timed(RecordedAll(facts, BatchArgs(b)))
  {
    hide InTime;
    forall i: nat | i < |b.quotes|
      ensures InTime(NewBody(BatchArgs(b)[i], None))
    {
      BatchFactsPass(clean, b, i);
      CheckedIsTimed(clean, BatchArgs(b)[i], None);
    }
    RunKeepsTimed(facts, BatchArgs(b));
  }

  lemma BatchHasReceipt(clean: Clean, b: Batch)
    requires BatchOk(clean, b)
    ensures IdentityOk(clean, b.identity)
  {
  }

  lemma {:induction false} RunKeepsSourced(receipts: seq<Receipt>, facts: seq<Fact>, args: seq<Args>, identity: Identity)
    requires Sourced(receipts, facts) && HasReceipt(receipts, identity)
    requires forall i | 0 <= i < |args| :: args[i].receipt == identity
    ensures Sourced(receipts, RecordedAll(facts, args))
  {
    if args != [] {
      RunKeepsSourced(receipts, facts, args[..|args| - 1], identity);
    }
  }

  // ----- what was known -----

  predicate Visible(fact: Fact, cutoff: int) {
    fact.body.available <= cutoff && fact.body.ingested <= cutoff
  }

  /** The rows known at a cutoff: visible, and of the highest visible revision of their key. */
  ghost predicate KnownAt(facts: seq<Fact>, cutoff: int, fact: Fact) {
    && fact in facts && Visible(fact, cutoff)
    && forall other | other in facts && Visible(other, cutoff) && KeyOf(other) == KeyOf(fact) :: other.body.revision <= fact.body.revision
  }

  method FactsAsKnown(facts: seq<Fact>, cutoff: int) returns (known: seq<Fact>)
    ensures forall f :: f in known <==> KnownAt(facts, cutoff, f)
  {
    known := [];
    var i := 0;
    while i < |facts|
      invariant 0 <= i <= |facts|
      invariant forall f :: f in known <==> f in facts[..i] && KnownAt(facts, cutoff, f)
    {
      var best := Visible(facts[i], cutoff);
      var j := 0;
      while j < |facts|
        invariant 0 <= j <= |facts|
        invariant best <==> Visible(facts[i], cutoff) && forall m | 0 <= m < j ::
          Visible(facts[m], cutoff) && KeyOf(facts[m]) == KeyOf(facts[i]) ==> facts[m].body.revision <= facts[i].body.revision
      {
        if Visible(facts[j], cutoff) && KeyOf(facts[j]) == KeyOf(facts[i]) && facts[j].body.revision > facts[i].body.revision {
          best := false;
        }
        j := j + 1;
      }
      assert best <==> KnownAt(facts, cutoff, facts[i]);
      assert facts[..i + 1] == facts[..i] + [facts[i]];
      if best {
        known := known + [facts[i]];
      }
      i := i + 1;
    }
    assert facts[..i] == facts;
  }

  /** One row per key. */
  lemma KnownOnce(facts: seq<Fact>, cutoff: int, a: Fact, b: Fact)
    requires Chained(facts) && KnownAt(facts, cutoff, a) && KnownAt(facts, cutoff, b) && KeyOf(a) == KeyOf(b)
    ensures a == b
  {
    hide Chained;
    var i :| 0 <= i < |facts| && facts[i] == a;
    var j :| 0 <= j < |facts| && facts[j] == b;
    if i < j {
      RevisionsUnique(facts, i, j);
    } else if j < i {
      RevisionsUnique(facts, j, i);
    }
  }

  /** Nothing ingested after the cutoff changes what was known at it. */
  lemma {:induction false} KnownIsStable(facts: seq<Fact>, args: seq<Args>, cutoff: int, fact: Fact)
    requires forall i | 0 <= i < |args| :: args[i].ingested > cutoff
    ensures KnownAt(RecordedAll(facts, args), cutoff, fact) <==> KnownAt(facts, cutoff, fact)
  {
    if args != [] {
      KnownIsStable(facts, args[..|args| - 1], cutoff, fact);
      LateRecordUnseen(RecordedAll(facts, args[..|args| - 1]), args[|args| - 1], cutoff, fact);
    }
  }

  lemma LateRecordUnseen(facts: seq<Fact>, a: Args, cutoff: int, fact: Fact)
    requires a.ingested > cutoff
    ensures KnownAt(Recorded(facts, a), cutoff, fact) <==> KnownAt(facts, cutoff, fact)
  {
    var after := Recorded(facts, a);
    if after != facts {
      var added := after[|facts|];
      assert after == facts + [added] && !Visible(added, cutoff);
      forall f
        ensures f in after && Visible(f, cutoff) <==> f in facts && Visible(f, cutoff)
      {
      }
    }
  }
}
