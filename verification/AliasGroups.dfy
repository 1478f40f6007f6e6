/** Grouping tickers into issuers by shared company aliases: the union-find inside the blinding
    step. Aliases are compared after stripping and case folding. */
module AliasGroups {
  type Ticker = string

  datatype Entry = Entry(ticker: Ticker, aliases: seq<string>)

  datatype Pair = Pair(ticker: Ticker, key: string)

  /** Python's strip and casefold. */
  datatype Text = Text(strip: string -> string, casefold: string -> string)

  function KeyOf(text: Text, name: string): string {
    text.casefold(text.strip(name))
  }

  predicate ValidEntry(text: Text, entry: Entry) {
    entry.aliases != [] && forall j | 0 <= j < |entry.aliases| :: text.strip(entry.aliases[j]) != ""
  }

  function PairsFor(text: Text, ticker: Ticker, aliases: seq<string>): seq<Pair> {
    if aliases == [] then [] else
    PairsFor(text, ticker, aliases[..|aliases| - 1]) + [Pair(ticker, KeyOf(text, aliases[|aliases| - 1]))]
  }

  /** Every ticker with every key of its aliases, in the order of the names. */
  function PairsOf(text: Text, names: seq<Entry>): seq<Pair> {
    if names == [] then [] else
    var last := names[|names| - 1];
    PairsOf(text, names[..|names| - 1]) + PairsFor(text, last.ticker, last.aliases)
  }

  // ----- chains of shared aliases -----

  ghost predicate Share(pairs: seq<Pair>, a: Ticker, b: Ticker) {
    exists key :: Pair(a, key) in pairs && Pair(b, key) in pairs
  }

  ghost predicate Chain(pairs: seq<Pair>, path: seq<Ticker>) {
    path != [] && forall i | 1 <= i < |path| :: Share(pairs, path[i - 1], path[i])
  }

  /** Two tickers are linked by a chain of shared aliases. */
  ghost predicate Linked(pairs: seq<Pair>, a: Ticker, b: Ticker) {
    exists path :: Chain(pairs, path) && path[0] == a && path[|path| - 1] == b
  }

  lemma LinkedSelf(pairs: seq<Pair>, a: Ticker)
    ensures Linked(pairs, a, a)
  {
    assert Chain(pairs, [a]);
  }

  lemma LinkedShare(pairs: seq<Pair>, a: Ticker, b: Ticker)
    requires Share(pairs, a, b)
    ensures Linked(pairs, a, b)
  {
    var path := [a, b];
    assert Chain(pairs, path);
  }

  lemma LinkedTrans(pairs: seq<Pair>, a: Ticker, b: Ticker, c: Ticker)
    requires Linked(pairs, a, b) && Linked(pairs, b, c)
    ensures Linked(pairs, a, c)
  {
    hide Share;
    var p :| Chain(pairs, p) && p[0] == a && p[|p| - 1] == b;
    var q :| Chain(pairs, q) && q[0] == b && q[|q| - 1] == c;
    var path := p + q[1..];
    forall i | 1 <= i < |path|
      ensures Share(pairs, path[i - 1], path[i])
    {
      if i >= |p| {
        assert path[i] == q[i - |p| + 1] && path[i - 1] == q[i - |p|];
      }
    }
    assert Chain(pairs, path);
  }

  lemma LinkedSym(pairs: seq<Pair>, a: Ticker, b: Ticker)
    requires Linked(pairs, a, b)
    ensures Linked(pairs, b, a)
  {
    var p :| Chain(pairs, p) && p[0] == a && p[|p| - 1] == b;
    var path := seq(|p|, i requires 0 <= i < |p| => p[|p| - 1 - i]);
    forall i | 1 <= i < |path|
      ensures Share(pairs, path[i - 1], path[i])
    {
      assert Share(pairs, p[|p| - 1 - i], p[|p| - i]);
    }
    assert Chain(pairs, path);
  }

  lemma LinkedMono(pairs: seq<Pair>, more: seq<Pair>, a: Ticker, b: Ticker)
    requires Linked(pairs, a, b) && forall p | p in pairs :: p in more
    ensures Linked(more, a, b)
  {
    var p :| Chain(pairs, p) && p[0] == a && p[|p| - 1] == b;
    assert Chain(more, p);
  }

  // ----- the forest -----

  /** Ranks grow towards the roots, so every walk up ends. */
  ghost predicate Forest(parents: map<Ticker, Ticker>, rank: map<Ticker, nat>, bound: nat) {
    rank.Keys == parents.Keys && forall t | t in parents :: Upward(parents, rank, bound, t)
  }

  ghost predicate Upward(parents: map<Ticker, Ticker>, rank: map<Ticker, nat>, bound: nat, t: Ticker)
    requires rank.Keys == parents.Keys && t in parents
  {
    parents[t] in parents && rank[t] <= bound && (parents[t] != t ==> rank[t] < rank[parents[t]])
  }

  ghost function RootOf(parents: map<Ticker, Ticker>, rank: map<Ticker, nat>, bound: nat, t: Ticker): (r: Ticker)
    requires Forest(parents, rank, bound) && t in parents
    ensures r in parents && parents[r] == r
    decreases bound - rank[t]
  {
    if parents[t] == t then t else RootOf(parents, rank, bound, parents[t])
  }

  /** Hanging one root under another merges exactly their two trees. */
  lemma {:induction false} LinkRoots(parents: map<Ticker, Ticker>, rank: map<Ticker, nat>, bound: nat, a: Ticker, b: Ticker,
                                     parents': map<Ticker, Ticker>, rank': map<Ticker, nat>, bound': nat, t: Ticker)
    requires Forest(parents, rank, bound) && Forest(parents', rank', bound') && t in parents
    requires a in parents && b in parents && parents[a] == a && parents[b] == b
    requires parents' == parents[a := b]
    ensures var r := RootOf(parents, rank, bound, t);
      RootOf(parents', rank', bound', t) == if r == a then b else r
    decreases bound - rank[t]
  {
    hide Forest, RootOf;
    WalkUp(parents, rank, bound, t);
    WalkUp(parents', rank', bound', t);
    if parents[t] == t {
      WalkUp(parents', rank', bound', b);
    } else {
      LinkRoots(parents, rank, bound, a, b, parents', rank', bound', parents[t]);
    }
  }

  lemma WalkUp(parents: map<Ticker, Ticker>, rank: map<Ticker, nat>, bound: nat, t: Ticker)
    requires Forest(parents, rank, bound) && t in parents
    ensures t in rank && parents[t] in parents && parents[t] in rank && rank[t] <= bound
    ensures parents[t] != t ==> rank[t] < rank[parents[t]] <= bound
    ensures RootOf(parents, rank, bound, t) == if parents[t] == t then t else RootOf(parents, rank, bound, parents[t])
  {
  }

  lemma LinkForest(parents: map<Ticker, Ticker>, rank: map<Ticker, nat>, bound: nat, a: Ticker, b: Ticker)
      returns (rank': map<Ticker, nat>, bound': nat)
    requires Forest(parents, rank, bound) && a in parents && b in parents && parents[a] == a && parents[b] == b
    ensures Forest(parents[a := b], rank', bound')
  {
    hide Upward;
    if a == b {
      rank', bound' := rank, bound;
      assert parents[a := b] == parents;
    } else {
      rank', bound' := rank[b := Lifted(rank[a], rank[b])], bound + 1;
      var linked := parents[a := b];
      assert rank'.Keys == linked.Keys;
      forall t | t in linked
        ensures Upward(linked, rank', bound', t)
      {
        LinkUpward(parents, rank, bound, a, b, t);
      }
    }
  }

  function Lifted(below: nat, rank: nat): nat {
    if rank > below then rank else below + 1
  }

  lemma LinkUpward(parents: map<Ticker, Ticker>, rank: map<Ticker, nat>, bound: nat, a: Ticker, b: Ticker, t: Ticker)
    requires rank.Keys == parents.Keys && t in parents && a in parents && b in parents && a != b
    requires parents[a] == a && parents[b] == b
    requires Upward(parents, rank, bound, t) && Upward(parents, rank, bound, a) && Upward(parents, rank, bound, b)
    ensures rank[b := Lifted(rank[a], rank[b])].Keys == parents[a := b].Keys
    ensures Upward(parents[a := b], rank[b := Lifted(rank[a], rank[b])], bound + 1, t)
  {
  }

  // ----- classes of tickers, and what one pair does to them -----

  /** Equal class labels mean linked, and the converse. */
  ghost predicate Classifies(issuer: map<Ticker, Ticker>, pairs: seq<Pair>) {
    forall a, b | a in issuer && b in issuer :: issuer[a] == issuer[b] <==> Linked(pairs, a, b)
  }

  ghost predicate Known(issuer: map<Ticker, Ticker>, pairs: seq<Pair>) {
    forall p | p in pairs :: p.ticker in issuer
  }

  /** Each key remembers one of its tickers. */
  ghost predicate Owns(owners: map<string, Ticker>, pairs: seq<Pair>) {
    && (forall p | p in pairs :: p.key in owners)
    && (forall key | key in owners :: Pair(owners[key], key) in pairs)
  }

  /** Labels that agree across every shared alias agree along every chain. */
  lemma {:induction false} ChainKeepsLabel(issuer: map<Ticker, Ticker>, pairs: seq<Pair>, path: seq<Ticker>)
    requires Chain(pairs, path) && path[0] in issuer
    requires forall a, b | Share(pairs, a, b) :: a in issuer && b in issuer && issuer[a] == issuer[b]
    ensures path[|path| - 1] in issuer && issuer[path[|path| - 1]] == issuer[path[0]]
  {
    if |path| > 1 {
      hide Share;
      var shorter := path[..|path| - 1];
      assert Chain(pairs, shorter);
      ChainKeepsLabel(issuer, pairs, shorter);
      assert Share(pairs, path[|path| - 2], path[|path| - 1]);
    }
  }

  lemma LinkedKeepsLabel(issuer: map<Ticker, Ticker>, pairs: seq<Pair>, a: Ticker, b: Ticker)
    requires Linked(pairs, a, b) && a in issuer && b in issuer
    requires forall x, y | Share(pairs, x, y) :: x in issuer && y in issuer && issuer[x] == issuer[y]
    ensures issuer[a] == issuer[b]
  {
    var path :| Chain(pairs, path) && path[0] == a && path[|path| - 1] == b;
    ChainKeepsLabel(issuer, pairs, path);
  }

  ghost function Merged(issuer: map<Ticker, Ticker>, from: Ticker, to: Ticker): map<Ticker, Ticker> {
    map t | t in issuer :: if issuer[t] == from then to else issuer[t]
  }

  /** A pair whose key is new links nobody. */
  lemma FreshKey(issuer: map<Ticker, Ticker>, owners: map<string, Ticker>, pairs: seq<Pair>, pair: Pair)
    requires Classifies(issuer, pairs) && Known(issuer, pairs) && Owns(owners, pairs)
    requires pair.ticker in issuer && pair.key !in owners
    ensures Classifies(issuer, pairs + [pair])
  {
    hide Linked;
    var more := pairs + [pair];
    forall x, y | Share(more, x, y)
      ensures x in issuer && y in issuer && issuer[x] == issuer[y]
    {
      var key :| Pair(x, key) in more && Pair(y, key) in more;
      if key != pair.key {
        assert Share(pairs, x, y);
        LinkedShare(pairs, x, y);
      }
    }
    forall a, b | a in issuer && b in issuer
      ensures issuer[a] == issuer[b] <==> Linked(more, a, b)
    {
      if Linked(more, a, b) {
        LinkedKeepsLabel(issuer, more, a, b);
      }
      if issuer[a] == issuer[b] {
        LinkedMono(pairs, more, a, b);
      }
    }
  }

  /** A pair whose key is owned merges the classes of the ticker and the owner. */
  lemma OwnedKey(issuer: map<Ticker, Ticker>, owners: map<string, Ticker>, pairs: seq<Pair>, pair: Pair)
    requires Classifies(issuer, pairs) && Known(issuer, pairs) && Owns(owners, pairs)
    requires pair.ticker in issuer && pair.key in owners && owners[pair.key] in issuer
    ensures Classifies(Merged(issuer, issuer[pair.ticker], issuer[owners[pair.key]]), pairs + [pair])
  {
    hide Linked, Classifies;
    var more, owner := pairs + [pair], owners[pair.key];
    var after := Merged(issuer, issuer[pair.ticker], issuer[owner]);
    forall x, y | Share(more, x, y)
      ensures x in after && y in after && after[x] == after[y]
    {
      SharedAfter(issuer, owners, pairs, pair, x, y);
    }
    forall a, b | a in after && b in after
      ensures after[a] == after[b] <==> Linked(more, a, b)
    {
      if Linked(more, a, b) {
        LinkedKeepsLabel(after, more, a, b);
      }
      if after[a] == after[b] {
        MergedLinked(issuer, owners, pairs, pair, a, b);
      }
    }
    assert Classifies(after, more) by {
      IsClassified(after, more);
    }
  }

  lemma IsClassified(issuer: map<Ticker, Ticker>, pairs: seq<Pair>)
    requires forall a, b | a in issuer && b in issuer :: issuer[a] == issuer[b] <==> Linked(pairs, a, b)
    ensures Classifies(issuer, pairs)
  {
  }

  lemma ShareLabel(issuer: map<Ticker, Ticker>, pairs: seq<Pair>, x: Ticker, y: Ticker, key: string)
    requires Classifies(issuer, pairs) && Known(issuer, pairs) && Pair(x, key) in pairs && Pair(y, key) in pairs
    ensures x in issuer && y in issuer && issuer[x] == issuer[y]
  {
    assert Share(pairs, x, y);
    LinkedShare(pairs, x, y);
  }

  lemma SharedAfter(issuer: map<Ticker, Ticker>, owners: map<string, Ticker>, pairs: seq<Pair>, pair: Pair, x: Ticker, y: Ticker)
    requires Classifies(issuer, pairs) && Known(issuer, pairs) && Owns(owners, pairs)
    requires pair.ticker in issuer && pair.key in owners && owners[pair.key] in issuer
    requires Share(pairs + [pair], x, y)
    ensures var after := Merged(issuer, issuer[pair.ticker], issuer[owners[pair.key]]);
      x in after && y in after && after[x] == after[y]
  {
    hide Classifies;
    var more, owner := pairs + [pair], owners[pair.key];
    var key :| Pair(x, key) in more && Pair(y, key) in more;
    if key == pair.key {
      if Pair(x, key) in pairs {
        ShareLabel(issuer, pairs, x, owner, key);
      }
      if Pair(y, key) in pairs {
        ShareLabel(issuer, pairs, y, owner, key);
      }
    } else {
      ShareLabel(issuer, pairs, x, y, key);
    }
  }

  lemma MergedLinked(issuer: map<Ticker, Ticker>, owners: map<string, Ticker>, pairs: seq<Pair>, pair: Pair, a: Ticker, b: Ticker)
    requires Classifies(issuer, pairs) && Owns(owners, pairs)
    requires pair.ticker in issuer && pair.key in owners && owners[pair.key] in issuer && a in issuer && b in issuer
    requires var after := Merged(issuer, issuer[pair.ticker], issuer[owners[pair.key]]); after[a] == after[b]
    ensures Linked(pairs + [pair], a, b)
  {
    hide Linked;
    var more, t, o := pairs + [pair], pair.ticker, owners[pair.key];
    assert Share(more, t, o);
    LinkedShare(more, t, o);
    LinkedSym(more, t, o);
    if issuer[a] == issuer[b] {
      LinkedMono(pairs, more, a, b);
    } else if issuer[a] == issuer[t] {
      LinkedMono(pairs, more, a, t);
      LinkedMono(pairs, more, o, b);
      LinkedTrans(more, a, t, o);
      LinkedTrans(more, a, o, b);
    } else {
      LinkedMono(pairs, more, a, o);
      LinkedMono(pairs, more, t, b);
      LinkedTrans(more, a, o, t);
      LinkedTrans(more, a, t, b);
    }
  }

  ghost function RootMap(parents: map<Ticker, Ticker>, rank: map<Ticker, nat>, bound: nat): map<Ticker, Ticker>
    requires Forest(parents, rank, bound)
  {
    map t | t in parents :: RootOf(parents, rank, bound, t)
  }

  lemma RootMapAt(parents: map<Ticker, Ticker>, rank: map<Ticker, nat>, bound: nat)
    requires Forest(parents, rank, bound)
    ensures RootMap(parents, rank, bound).Keys == parents.Keys
    ensures forall t | t in parents :: RootMap(parents, rank, bound)[t] == RootOf(parents, rank, bound, t)
  {
    hide Forest;
  }

  lemma PairStep(issuer: map<Ticker, Ticker>, after: map<Ticker, Ticker>, owners: map<string, Ticker>, pairs: seq<Pair>, pair: Pair)
    requires Known(issuer, pairs) && Owns(owners, pairs) && issuer.Keys == after.Keys && pair.ticker in issuer
    ensures Known(after, pairs + [pair]) && Owns(owners[pair.key := pair.ticker], pairs + [pair])
    ensures pair.key in owners ==> owners[pair.key] in issuer
  {
  }

  lemma MergedKeys(issuer: map<Ticker, Ticker>, from: Ticker, to: Ticker)
    ensures Merged(issuer, from, to).Keys == issuer.Keys
  {
  }

  lemma LinkMerges(parents: map<Ticker, Ticker>, rank: map<Ticker, nat>, bound: nat, a: Ticker, b: Ticker,
                   parents': map<Ticker, Ticker>, rank': map<Ticker, nat>, bound': nat)
    requires Forest(parents, rank, bound) && Forest(parents', rank', bound')
    requires a in parents && b in parents && parents[a] == a && parents[b] == b
    requires parents' == parents[a := b]
    ensures RootMap(parents', rank', bound') == Merged(RootMap(parents, rank, bound), a, b)
  {
    hide Forest, RootMap;
    var before, after := RootMap(parents, rank, bound), RootMap(parents', rank', bound');
    RootMapKeys(parents, rank, bound);
    RootMapKeys(parents', rank', bound');
    forall t | t in parents
      ensures after[t] == if before[t] == a then b else before[t]
    {
      LinkRootAt(parents, rank, bound, a, b, parents', rank', bound', t);
    }
  }

  lemma RootMapKeys(parents: map<Ticker, Ticker>, rank: map<Ticker, nat>, bound: nat)
    requires Forest(parents, rank, bound)
    ensures RootMap(parents, rank, bound).Keys == parents.Keys
  {
    hide Forest;
  }

  lemma LinkRootAt(parents: map<Ticker, Ticker>, rank: map<Ticker, nat>, bound: nat, a: Ticker, b: Ticker,
                   parents': map<Ticker, Ticker>, rank': map<Ticker, nat>, bound': nat, t: Ticker)
    requires Forest(parents, rank, bound) && Forest(parents', rank', bound') && t in parents
    requires a in parents && b in parents && parents[a] == a && parents[b] == b
    requires parents' == parents[a := b]
    ensures t in RootMap(parents, rank, bound) && t in RootMap(parents', rank', bound')
    ensures var r := RootMap(parents, rank, bound)[t];
      RootMap(parents', rank', bound')[t] == if r == a then b else r
  {
    hide Forest, RootMap;
    RootMapAt(parents, rank, bound);
    RootMapAt(parents', rank', bound');
    LinkRoots(parents, rank, bound, a, b, parents', rank', bound', t);
  }

  class AliasForest {
    var parents: map<Ticker, Ticker>
    var owners: map<string, Ticker>
    ghost var rank: map<Ticker, nat>
    ghost var bound: nat

    /** After reading `pairs`, roots are the classes of linked tickers. */
    ghost predicate Holds(pairs: seq<Pair>)
      reads this
    {
      && Forest(parents, rank, bound)
      && Classifies(RootMap(parents, rank, bound), pairs)
      && Known(RootMap(parents, rank, bound), pairs) && Owns(owners, pairs)
    }

    constructor (names: seq<Entry>)
      ensures Holds([])
      ensures forall t :: t in parents <==> exists i | 0 <= i < |names| :: names[i].ticker == t
    {
      var own := map i | 0 <= i < |names| :: names[i].ticker := names[i].ticker;
      parents, owners, rank, bound := own, map[], map t | t in own :: 0, 0;
      new;
      StartsApart(parents, rank);
    }

    /** Walk up to the root; the ranks bound the walk. */
    method Root(ticker: Ticker) returns (r: Ticker)
      requires Forest(parents, rank, bound) && ticker in parents
      ensures r == RootOf(parents, rank, bound, ticker)
    {
      r := ticker;
      while parents[r] != r
        invariant r in parents && RootOf(parents, rank, bound, r) == RootOf(parents, rank, bound, ticker)
        decreases bound - rank[r]
      {
        r := parents[r];
      }
    }

    method AddPair(ticker: Ticker, key: string, ghost pairs: seq<Pair>)
      requires Holds(pairs) && ticker in parents
      modifies this
      ensures Holds(pairs + [Pair(ticker, key)]) && parents.Keys == old(parents.Keys)
    {
      hide Classifies, Known, Owns, Forest, RootMap, Merged;
      ghost var pair, before := Pair(ticker, key), RootMap(parents, rank, bound);
      RootMapAt(parents, rank, bound);
      PairStep(before, before, owners, pairs, pair);
      if key in owners {
        var to := Root(owners[key]);
        var from := Root(ticker);
        OwnedKey(before, owners, pairs, pair);
        ghost var parents0, rank0, bound0 := parents, rank, bound;
        rank, bound := LinkForest(parents, rank, bound, from, to);
        parents := parents[from := to];
        LinkMerges(parents0, rank0, bound0, from, to, parents, rank, bound);
        MergedKeys(before, from, to);
        PairStep(before, RootMap(parents, rank, bound), owners, pairs, pair);
      } else {
        FreshKey(before, owners, pairs, pair);
      }
      owners := owners[key := ticker];
    }

    /** Read every alias; refuse an entry without aliases or with a blank one. */
    method Group(text: Text, names: seq<Entry>) returns (ok: bool)
      requires Holds([]) && forall i | 0 <= i < |names| :: names[i].ticker in parents
      modifies this
      ensures ok <==> forall i | 0 <= i < |names| ::
        names[i].aliases != [] && forall j | 0 <= j < |names[i].aliases| :: text.strip(names[i].aliases[j]) != ""
      ensures ok ==> Holds(PairsOf(text, names))
      ensures parents.Keys == old(parents.Keys)
    {
      hide Holds, KeyOf, Linked, Forest, PairsFor, PairsOf;
      NoPairs(text);
      var i := 0;
      while i < |names|
        invariant 0 <= i <= |names| && parents.Keys == old(parents.Keys)
        invariant forall k | 0 <= k < i :: ValidEntry(text, names[k])
        invariant Holds(PairsOf(text, names[..i]))
      {
        var entry := names[i];
        if !ValidEntry(text, entry) {
          return false;
        }
        ghost var before := PairsOf(text, names[..i]);
        var j := 0;
        assert before + PairsFor(text, entry.ticker, entry.aliases[..0]) == before by { NoPairsFor(text, entry.ticker); }
        while j < |entry.aliases|
          invariant 0 <= j <= |entry.aliases| && parents.Keys == old(parents.Keys)
          invariant Holds(before + PairsFor(text, entry.ticker, entry.aliases[..j]))
        {
          ghost var pairs := before + PairsFor(text, entry.ticker, entry.aliases[..j]);
          var key := KeyOf(text, entry.aliases[j]);
          assert names[i].ticker in old(parents.Keys);
          AddPair(entry.ticker, key, pairs);
          PairsForStep(text, entry.ticker, entry.aliases, j);
          assert before + PairsFor(text, entry.ticker, entry.aliases[..j + 1]) == pairs + [Pair(entry.ticker, key)];
          j := j + 1;
        }
        assert entry.aliases[..j] == entry.aliases;
        PairsOfStep(text, names, i);
        i := i + 1;
      }
      assert names[..i] == names;
      ok := true;
    }

    /** The tickers under each root. */
    method Groups(tickers: seq<Ticker>, ghost pairs: seq<Pair>) returns (groups: map<Ticker, seq<Ticker>>)
      requires Holds(pairs) && forall i | 0 <= i < |tickers| :: tickers[i] in parents
      ensures forall a | a in tickers :: RootOf(parents, rank, bound, a) in groups
      ensures forall a, b | a in tickers && b in tickers ::
        b in groups[RootOf(parents, rank, bound, a)] <==> Linked(pairs, a, b)
    {
      hide Forest, RootMap, Linked, Known, Owns;
      ghost var roots := RootMap(parents, rank, bound);
      RootMapAt(parents, rank, bound);
      groups := map[];
      var i := 0;
      while i < |tickers|
        invariant 0 <= i <= |tickers|
        invariant Collects(roots, tickers[..i], groups)
      {
        var r := Root(tickers[i]);
        CollectStep(roots, tickers[..i], groups, tickers[i]);
        groups := groups[r := (if r in groups then groups[r] else []) + [tickers[i]]];
        assert tickers[..i + 1] == tickers[..i] + [tickers[i]];
        i := i + 1;
      }
      assert tickers[..i] == tickers;
    }
  }

  /** Each root of a listed ticker collects exactly the listed tickers with that root. */
  ghost predicate Collects(roots: map<Ticker, Ticker>, tickers: seq<Ticker>, groups: map<Ticker, seq<Ticker>>) {
    && (forall a | a in tickers :: a in roots && roots[a] in groups)
    && (forall r, b | r in groups && b in groups[r] :: b in tickers)
    && (forall r, b | r in groups && b in tickers && b in roots :: b in groups[r] <==> roots[b] == r)
  }

  lemma CollectStep(roots: map<Ticker, Ticker>, tickers: seq<Ticker>, groups: map<Ticker, seq<Ticker>>, t: Ticker)
    requires Collects(roots, tickers, groups) && t in roots
    ensures var r := roots[t];
      Collects(roots, tickers + [t], groups[r := (if r in groups then groups[r] else []) + [t]])
  {
  }

  lemma StartsApart(parents: map<Ticker, Ticker>, rank: map<Ticker, nat>)
    requires rank.Keys == parents.Keys && forall t | t in parents :: parents[t] == t && rank[t] == 0
    ensures Forest(parents, rank, 0) && Classifies(RootMap(parents, rank, 0), []) && Known(RootMap(parents, rank, 0), [])
  {
    forall a, b | a in parents && b in parents
      ensures a == b <==> Linked([], a, b)
    {
      LinkedSelf([], a);
      if Linked([], a, b) {
        LinkedKeepsLabel(parents, [], a, b);
      }
    }
  }

  lemma NoPairs(text: Text)
    ensures PairsOf(text, []) == []
  {
  }

  lemma NoPairsFor(text: Text, ticker: Ticker)
    ensures PairsFor(text, ticker, []) == []
  {
  }

  lemma PairsForStep(text: Text, ticker: Ticker, aliases: seq<string>, j: nat)
    requires j < |aliases|
    ensures PairsFor(text, ticker, aliases[..j + 1]) == PairsFor(text, ticker, aliases[..j]) + [Pair(ticker, KeyOf(text, aliases[j]))]
  {
    assert aliases[..j + 1][..j] == aliases[..j];
  }

  lemma PairsOfStep(text: Text, names: seq<Entry>, i: nat)
    requires i < |names|
    ensures PairsOf(text, names[..i + 1]) == PairsOf(text, names[..i]) + PairsFor(text, names[i].ticker, names[i].aliases)
  {
    assert names[..i + 1][..i] == names[..i];
  }

  // ----- what the grouping means -----

  /** The aliases as a relation: the ticker has an alias with the key. */
  ghost predicate HasKey(text: Text, names: seq<Entry>, ticker: Ticker, key: string) {
    exists i, j | 0 <= i < |names| && 0 <= j < |names[i].aliases| :: names[i].ticker == ticker && text.casefold(text.strip(names[i].aliases[j])) == key
  }

  lemma {:induction false} PairsForHas(text: Text, ticker: Ticker, aliases: seq<string>, pair: Pair)
    ensures pair in PairsFor(text, ticker, aliases) <==> pair.ticker == ticker && exists j | 0 <= j < |aliases| :: KeyOf(text, aliases[j]) == pair.key
  {
    if aliases != [] {
      PairsForHas(text, ticker, aliases[..|aliases| - 1], pair);
    }
  }

  lemma {:induction false} PairsOfHas(text: Text, names: seq<Entry>, pair: Pair)
    ensures pair in PairsOf(text, names) <==> HasKey(text, names, pair.ticker, pair.key)
  {
    if names != [] {
      var n := |names| - 1;
      PairsOfHas(text, names[..n], pair);
      PairsForHas(text, names[n].ticker, names[n].aliases, pair);
      if HasKey(text, names[..n], pair.ticker, pair.key) {
        var i, j :| 0 <= i < n && 0 <= j < |names[..n][i].aliases| && names[..n][i].ticker == pair.ticker && KeyOf(text, names[..n][i].aliases[j]) == pair.key;
        assert names[i] == names[..n][i];
      }
      if HasKey(text, names, pair.ticker, pair.key) {
        var i, j :| 0 <= i < |names| && 0 <= j < |names[i].aliases| && names[i].ticker == pair.ticker && KeyOf(text, names[i].aliases[j]) == pair.key;
        if i < n {
          assert names[i] == names[..n][i];
        }
      }
    }
  }

  /** The grouping does not depend on the order in which names or aliases are read. */
  lemma OrderDoesNotMatter(text: Text, names: seq<Entry>, other: seq<Entry>, a: Ticker, b: Ticker)
    requires forall ticker, key :: HasKey(text, names, ticker, key) <==> HasKey(text, other, ticker, key)
    ensures Linked(PairsOf(text, names), a, b) <==> Linked(PairsOf(text, other), a, b)
  {
    var p, q := PairsOf(text, names), PairsOf(text, other);
    forall pair: Pair
      ensures pair in p <==> pair in q
    {
      PairsOfHas(text, names, pair);
      PairsOfHas(text, other, pair);
      assert HasKey(text, names, pair.ticker, pair.key) <==> HasKey(text, other, pair.ticker, pair.key);
    }
    if Linked(p, a, b) {
      LinkedMono(p, q, a, b);
    }
    if Linked(q, a, b) {
      LinkedMono(q, p, a, b);
    }
  }
}
