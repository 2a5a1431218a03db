/** The meaning of a filter tree: what each leaf outputs when every filter is
    evaluated from the roots, and why the seeded, cached evaluation agrees. */
module RefreshSpec {
  import opened Forests
  import opened Streams

  type Props = map<nat, string>

  /** What a filter class does, as a function of its property values. `genFirst`
      says whether generated streams precede the propagated ones. */
  datatype Kind = Kind(
    block: Props -> Mask,
    emit: Props -> Mask,
    gen: (Props, seq<Stream>) -> seq<Stream>,
    genFirst: bool,
    accepts: (nat, string) -> bool)

  /** One filter's settings, and the streams it generated and kept, if any. */
  datatype FilterState = FilterState(kind: Kind, props: Props, cache: Option<seq<Stream>>) {
    function Block(): Mask { kind.block(props) }
    function Emit(): Mask { kind.emit(props) }
    function Gen(input: seq<Stream>): seq<Stream> { kind.gen(props, input) }
  }

  /** The filters of a tree, by address. */
  type Filters<!K> = map<K, FilterState>

  /** The mask contract: the types of generated streams lie in the emit mask. */
  ghost predicate Lawful(k: Kind)
  {
    forall p: Props, input: seq<Stream> :: Typed(k.gen(p, input), k.emit(p))
  }

  ghost predicate AllLawful<K>(s: Filters<K>)
  {
    forall x | x in s :: Lawful(s[x].kind)
  }

  // ----- evaluation -----

  /** The inputs a filter with block mask `block` lets through, in order. */
  function Pass(input: seq<Stream>, block: Mask): seq<Stream>
  {
    if input == [] then []
    else (if input[0].kind !in block then [input[0]] else []) + Pass(input[1..], block)
  }

  function Join(genFirst: bool, passed: seq<Stream>, made: seq<Stream>): seq<Stream>
  {
    if genFirst then made + passed else passed + made
  }

  /** Output of a filter that ignores its cache. */
  function Fresh(m: FilterState, input: seq<Stream>): seq<Stream>
  {
    Join(m.kind.genFirst, Pass(input, m.Block()), m.Gen(input))
  }

  /** What the filter generates when it replays its cache if it has one. */
  function Made(m: FilterState, input: seq<Stream>): seq<Stream>
  {
    if m.cache.Some? then m.cache.value else m.Gen(input)
  }

  /** Output of a filter that replays its cache if it has one. */
  function Run(m: FilterState, input: seq<Stream>): seq<Stream>
  {
    Join(m.kind.genFirst, Pass(input, m.Block()), Made(m, input))
  }

  type Output<!K> = (K, seq<Stream>)

  /** A leaf's output is recorded when it is not empty. */
  function Record<K>(x: K, streams: seq<Stream>): seq<Output<K>>
  {
    if streams == [] then [] else [(x, streams)]
  }

  /** Leaf outputs of the plain recursive evaluation that uses no cache. */
  ghost function FullLeaves<K>(f: Forest<K>, s: Filters<K>, input: seq<Stream>): seq<Output<K>>
    requires Items(f) <= s.Keys
  {
    match f
    case Nil => []
    case Cons(m, k, r) =>
      var out := Fresh(s[m], input);
      (if k.Nil? then Record(m, out) else FullLeaves(k, s, out)) + FullLeaves(r, s, input)
  }

  /** The same recursion with every filter replaying its cache when it has one. */
  ghost function CachedLeaves<K>(f: Forest<K>, s: Filters<K>, input: seq<Stream>): seq<Output<K>>
    requires Items(f) <= s.Keys
  {
    match f
    case Nil => []
    case Cons(m, k, r) =>
      var out := Run(s[m], input);
      (if k.Nil? then Record(m, out) else CachedLeaves(k, s, out)) + CachedLeaves(r, s, input)
  }

  /** A cache in use is not empty and holds what its filter generates on `input`. */
  ghost predicate GoodCache(m: FilterState, input: seq<Stream>)
  {
    m.cache.Some? ==> m.cache.value == m.Gen(input) && m.cache.value != []
  }

  /** Every cache holds exactly what its filter would generate from the uncached
      evaluation of its ancestors. */
  ghost predicate Coherent<K>(f: Forest<K>, s: Filters<K>, input: seq<Stream>)
    requires Items(f) <= s.Keys
  {
    match f
    case Nil => true
    case Cons(m, k, r) =>
      GoodCache(s[m], input) && Coherent(k, s, Fresh(s[m], input)) && Coherent(r, s, input)
  }

  // ----- seeds -----

  /** Types that may leave a filter whose parent may emit `above`; roots have `above` empty. */
  function EmitAcc(m: FilterState, above: Mask): Mask
  {
    (above * (MASK_ALL - m.Block())) + m.Emit()
  }

  /** Types that a filter is known to stop: only a cached filter stops anything. */
  function BlockAcc(m: FilterState): Mask
  {
    if m.cache.Some? then m.Block() else {}
  }

  /** Types that every one of these siblings stops. */
  ghost function BlockedByAll<K>(f: Forest<K>, s: Filters<K>): Mask
    requires Items(f) <= s.Keys
  {
    match f
    case Nil => MASK_ALL
    case Cons(m, _, r) => BlockAcc(s[m]) * BlockedByAll(r, s)
  }

  /** A filter must be evaluated itself, rather than starting below it, when it is a
      leaf or may emit a type that some child does not stop. */
  ghost predicate IsSeed<K>(m: K, k: Forest<K>, s: Filters<K>, above: Mask)
    requires m in s && Items(k) <= s.Keys
  {
    k.Nil? || EmitAcc(s[m], above) * (MASK_ALL - BlockedByAll(k, s)) != {}
  }

  /** The seeds in pre-order. */
  ghost function Seeds<K>(f: Forest<K>, s: Filters<K>, above: Mask): seq<K>
    requires Items(f) <= s.Keys
  {
    match f
    case Nil => []
    case Cons(m, k, r) =>
      (if IsSeed(m, k, s, above) then [m] else Seeds(k, s, EmitAcc(s[m], above))) + Seeds(r, s, above)
  }

  /** Leaf outputs when each seed is started on an empty input. */
  ghost function SeededLeaves<K>(f: Forest<K>, s: Filters<K>, above: Mask): seq<Output<K>>
    requires Items(f) <= s.Keys
  {
    match f
    case Nil => []
    case Cons(m, k, r) =>
      (if IsSeed(m, k, s, above) then CachedLeaves(Cons(m, k, Nil), s, [])
       else SeededLeaves(k, s, EmitAcc(s[m], above)))
      + SeededLeaves(r, s, above)
  }

  // ----- exactness -----

  lemma {:induction false} PassTyped(s: seq<Stream>, above: Mask, block: Mask)
    requires Typed(s, above)
    ensures Typed(Pass(s, block), above * (MASK_ALL - block))
  {
    if s != [] {
      PassTyped(s[1..], above, block);
      EveryTypeIsListed(s[0].kind);
    }
  }

  /** Uncached output stays inside the accumulated emit mask. */
  lemma FreshTyped(m: FilterState, input: seq<Stream>, above: Mask)
    requires Lawful(m.kind) && Typed(input, above)
    ensures Typed(Fresh(m, input), EmitAcc(m, above))
  {
    PassTyped(input, above, m.Block());
  }

  lemma {:induction false} PassNothing(s: seq<Stream>, block: Mask)
    requires Typed(s, block)
    ensures Pass(s, block) == []
  {
    if s != [] {
      PassNothing(s[1..], block);
    }
  }

  /** The siblings behave on `input` as they do on no input at all: nothing arrives, or
      each replays its cache and lets nothing through. */
  ghost predicate Shielded<K>(f: Forest<K>, s: Filters<K>, input: seq<Stream>)
    requires Items(f) <= s.Keys
  {
    match f
    case Nil => true
    case Cons(m, _, r) =>
      && (input == [] || (s[m].cache.Some? && Pass(input, s[m].Block()) == []))
      && Shielded(r, s, input)
  }

  lemma {:induction false} EmptyShields<K>(f: Forest<K>, s: Filters<K>)
    requires Items(f) <= s.Keys
    ensures Shielded(f, s, [])
  {
    match f
    case Nil =>
    case Cons(_, _, r) => EmptyShields(r, s);
  }

  /** When every sibling stops every type that arrives, the siblings are shielded
      from the arriving streams. */
  lemma {:induction false} BlockedShields<K>(f: Forest<K>, s: Filters<K>, input: seq<Stream>)
    requires Items(f) <= s.Keys
    requires Typed(input, BlockedByAll(f, s))
    ensures Shielded(f, s, input)
  {
    match f
    case Nil =>
    case Cons(m, _, r) =>
      BlockedShields(r, s, input);
      if input != [] {
        assert input[0].kind in BlockAcc(s[m]);
        PassNothing(input, s[m].Block());
      }
  }

  /** With coherent caches, replaying them changes nothing. */
  lemma {:induction false} CachedIsFull<K>(f: Forest<K>, s: Filters<K>, input: seq<Stream>)
    requires Items(f) <= s.Keys && Coherent(f, s, input)
    ensures CachedLeaves(f, s, input) == FullLeaves(f, s, input)
  {
    match f
    case Nil =>
    case Cons(m, k, r) =>
      assert Run(s[m], input) == Fresh(s[m], input);
      CachedIsFull(k, s, Fresh(s[m], input));
      CachedIsFull(r, s, input);
  }

  /** A filter that is not a seed shields its children from its output. */
  lemma NonSeedShields<K>(m: K, k: Forest<K>, s: Filters<K>, input: seq<Stream>, above: Mask)
    requires m in s && Items(k) <= s.Keys
    requires Lawful(s[m].kind) && Typed(input, above) && !IsSeed(m, k, s, above)
    ensures Shielded(k, s, Fresh(s[m], input))
  {
    FreshTyped(s[m], input, above);
    var out := Fresh(s[m], input);
    forall i | 0 <= i < |out|
      ensures out[i].kind in BlockedByAll(k, s)
    {
      EveryTypeIsListed(out[i].kind);
      assert out[i].kind !in EmitAcc(s[m], above) * (MASK_ALL - BlockedByAll(k, s));
    }
    BlockedShields(k, s, out);
  }

  /** Starting at the seeds is exact for any siblings that are shielded from what
      reaches them. */
  lemma {:induction false} SeededIsFull<K>(f: Forest<K>, s: Filters<K>, input: seq<Stream>, above: Mask)
    requires Items(f) <= s.Keys && AllLawful(s) && Coherent(f, s, input)
    requires Typed(input, above) && Shielded(f, s, input)
    ensures SeededLeaves(f, s, above) == FullLeaves(f, s, input)
  {
    match f
    case Nil =>
    case Cons(m, k, r) =>
      SeededIsFull(r, s, input, above);
      var out := Fresh(s[m], input);
      assert Run(s[m], []) == out;
      if IsSeed(m, k, s, above) {
        CachedIsFull(k, s, out);
        assert CachedLeaves(Cons(m, k, Nil), s, [])
            == if k.Nil? then Record(m, out) else CachedLeaves(k, s, out);
      } else {
        NonSeedShields(m, k, s, input, above);
        FreshTyped(s[m], input, above);
        SeededIsFull(k, s, out, EmitAcc(s[m], above));
      }
  }

  /** Incremental refresh is exact: with coherent caches and filters that obey their
      masks, evaluating only from the seeds gives the outputs of the plain recursive
      evaluation from the roots. */
  lemma RefreshExact<K>(f: Forest<K>, s: Filters<K>)
    requires Items(f) <= s.Keys && AllLawful(s) && Coherent(f, s, [])
    ensures SeededLeaves(f, s, {}) == FullLeaves(f, s, [])
  {
    EmptyShields(f, s);
    SeededIsFull(f, s, [], {});
  }

  // ----- the seeds form a cut -----

  /** `path` leads from a root of `f` down to a leaf. */
  ghost predicate IsLeafPath<K>(f: Forest<K>, path: seq<K>)
  {
    match f
    case Nil => false
    case Cons(m, k, r) =>
      || (path != [] && path[0] == m && (if k.Nil? then |path| == 1 else IsLeafPath(k, path[1..])))
      || IsLeafPath(r, path)
  }

  lemma {:induction false} LeafPathItems<K>(f: Forest<K>, path: seq<K>)
    requires IsLeafPath(f, path)
    ensures path != [] && forall i | 0 <= i < |path| :: path[i] in Items(f)
  {
    var Cons(m, k, r) := f;
    if path != [] && path[0] == m && (if k.Nil? then |path| == 1 else IsLeafPath(k, path[1..])) {
      if !k.Nil? {
        LeafPathItems(k, path[1..]);
        forall i | 0 <= i < |path| ensures path[i] in Items(f) {
          if i > 0 { assert path[i] == path[1..][i - 1]; }
        }
      }
    } else {
      LeafPathItems(r, path);
    }
  }

  lemma {:induction false} SeedItems<K>(f: Forest<K>, s: Filters<K>, above: Mask)
    requires Items(f) <= s.Keys
    ensures forall x | x in Seeds(f, s, above) :: x in Items(f)
  {
    match f
    case Nil =>
    case Cons(m, k, r) =>
      SeedItems(k, s, EmitAcc(s[m], above));
      SeedItems(r, s, above);
  }

  /** How many entries of `path` are in `marked`. */
  ghost function Hits<K>(path: seq<K>, marked: seq<K>): nat
  {
    if path == [] then 0 else (if path[0] in marked then 1 else 0) + Hits(path[1..], marked)
  }

  lemma {:induction false} HitsAgree<K>(path: seq<K>, a: seq<K>, b: seq<K>)
    requires forall i | 0 <= i < |path| :: path[i] in a <==> path[i] in b
    ensures Hits(path, a) == Hits(path, b)
  {
    if path != [] { HitsAgree(path[1..], a, b); }
  }

  /** Every path from a root to a leaf passes exactly one seed. */
  lemma {:induction false} SeedsCutPaths<K>(f: Forest<K>, s: Filters<K>, above: Mask, path: seq<K>)
    requires Items(f) <= s.Keys && Distinct(f) && IsLeafPath(f, path)
    ensures Hits(path, Seeds(f, s, above)) == 1
  {
    var Cons(m, k, r) := f;
    var above' := EmitAcc(s[m], above);
    SeedItems(k, s, above');
    SeedItems(r, s, above);
    var all := Seeds(f, s, above);
    if path != [] && path[0] == m && (if k.Nil? then |path| == 1 else IsLeafPath(k, path[1..])) {
      if !k.Nil? { LeafPathItems(k, path[1..]); }
      if IsSeed(m, k, s, above) {
        HitsAgree(path[1..], all, []);
        HitsNone(path[1..]);
      } else {
        SeedsCutPaths(k, s, above', path[1..]);
        HitsAgree(path[1..], all, Seeds(k, s, above'));
      }
    } else {
      LeafPathItems(r, path);
      SeedsCutPaths(r, s, above, path);
      HitsAgree(path, all, Seeds(r, s, above));
    }
  }

  lemma {:induction false} HitsNone<K>(path: seq<K>)
    ensures Hits(path, []) == 0
  {
    if path != [] { HitsNone(path[1..]); }
  }

  /** No seed lies below another. */
  lemma {:induction false} SeedsApart<K>(f: Forest<K>, s: Filters<K>, above: Mask, x: K, y: K)
    requires Items(f) <= s.Keys && Distinct(f)
    requires x in Seeds(f, s, above) && y in Seeds(f, s, above)
    ensures x in Items(f) && y !in Items(Kids(f, x))
  {
    var Cons(m, k, r) := f;
    SeedItems(f, s, above);
    SeedItems(r, s, above);
    SeedItems(k, s, EmitAcc(s[m], above));
    KidsItems(f, x);
    if x == m {
    } else if x in Items(k) {
      KidsItems(k, x);
      if y in Items(k) { SeedsApart(k, s, EmitAcc(s[m], above), x, y); }
    } else {
      KidsItems(r, x);
      if y in Items(r) { SeedsApart(r, s, above, x, y); }
    }
  }

  /** No seed is listed twice. */
  lemma {:induction false} SeedsDistinct<K>(f: Forest<K>, s: Filters<K>, above: Mask)
    requires Items(f) <= s.Keys && Distinct(f)
    ensures NoRepeat(Seeds(f, s, above))
  {
    match f
    case Nil =>
    case Cons(m, k, r) =>
      SeedItems(r, s, above);
      SeedItems(k, s, EmitAcc(s[m], above));
      SeedsDistinct(k, s, EmitAcc(s[m], above));
      SeedsDistinct(r, s, above);
      NoRepeatConcat(if IsSeed(m, k, s, above) then [m] else Seeds(k, s, EmitAcc(s[m], above)), Seeds(r, s, above));
  }
}
