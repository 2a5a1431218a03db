/** A filter object: its settings, its cache, and one refresh of it. */
module FilterNodes {
  import opened Forests
  import opened Streams
  import opened Collector
  import opened RefreshSpec
  import opened CacheRuns

  /** The input pointers that a filter with block mask `block` lets through, in order. */
  ghost function PassPtrs(ps: seq<StreamData>, block: Mask): seq<StreamData>
  {
    if ps == [] then []
    else PassPtrs(ps[..|ps| - 1], block) + if ps[|ps| - 1].kind in block then [] else [ps[|ps| - 1]]
  }

  function JoinPtrs(genFirst: bool, passed: seq<StreamData>, made: seq<StreamData>): seq<StreamData>
  {
    if genFirst then made + passed else passed + made
  }

  lemma {:induction false} PassAppend(a: seq<Stream>, x: Stream, block: Mask)
    ensures Pass(a + [x], block) == Pass(a, block) + if x.kind in block then [] else [x]
  {
    var last := if x.kind in block then [] else [x];
    if a == [] {
      assert a + [x] == [x] && Pass([x], block) == last + Pass([], block);
    } else {
      assert (a + [x])[1..] == a[1..] + [x] && (a + [x])[0] == a[0];
      PassAppend(a[1..], x, block);
      assert Pass(a, block) + last == Pass([a[0]], block) + (Pass(a[1..], block) + last);
    }
  }

  lemma ValuesConcat(a: seq<StreamData>, b: seq<StreamData>)
    ensures Values(a + b) == Values(a) + Values(b)
  {
  }

  /** Passing pointers is passing the streams they point to. */
  lemma {:induction false} PassValues(ps: seq<StreamData>, block: Mask)
    ensures Values(PassPtrs(ps, block)) == Pass(Values(ps), block)
    ensures forall p | p in PassPtrs(ps, block) :: p in ps
    ensures NoRepeat(ps) ==> NoRepeat(PassPtrs(ps, block))
  {
    if ps != [] {
      var a, x := ps[..|ps| - 1], ps[|ps| - 1];
      assert ps == a + [x];
      PassValues(a, block);
      assert Values(ps) == Values(a) + [Stream(x.kind, x.payload)];
      PassAppend(Values(a), Stream(x.kind, x.payload), block);
      if NoRepeat(ps) {
        NoRepeatSplit(a, [x]);
        NoRepeatConcat(PassPtrs(a, block), if x.kind in block then [] else [x]);
      }
    }
  }

  class Filter {
    const kind: Kind
    var props: Props
    /** Is caching switched on? */
    var cache: bool
    /** Is there a cache to replay? */
    var cacheOK: bool
    var filterOutputs: seq<StreamData>

    /** The settings and the cached values. */
    ghost var state: FilterState

    /** The cached streams are alive, marked, and present exactly when there is a cache. */
    ghost predicate Valid()
      reads this, filterOutputs
    {
      && state == FilterState(kind, props, if cacheOK then Some(Values(filterOutputs)) else None)
      && (cacheOK <==> filterOutputs != [])
      && NoRepeat(filterOutputs)
      && forall p | p in filterOutputs :: p.live && p.cached
    }

    constructor (kind: Kind, props: Props)
      ensures Valid() && filterOutputs == [] && !cacheOK && this.kind == kind && this.props == props
      ensures state == FilterState(kind, props, None)
    {
      this.kind := kind;
      this.props := props;
      cache := true;
      cacheOK := false;
      filterOutputs := [];
      state := FilterState(kind, props, None);
    }

    /** A filter with the same settings and no cache. */
    method CloneUncached() returns (c: Filter)
      requires Valid()
      ensures fresh(c) && c.Valid() && c.filterOutputs == [] && !c.cacheOK
      ensures c.kind == kind && c.props == props && c.cache == cache && c.state == Clone(state)
    {
      c := new Filter(kind, props);
      c.cache := cache;
    }

    /** Delete the cached streams. */
    method ClearCache()
      requires Valid()
      modifies this`cacheOK, this`filterOutputs, this`state, filterOutputs`live
      ensures Valid() && filterOutputs == []
      ensures state == old(state).(cache := None)
      ensures forall p | p in old(filterOutputs) :: !p.live
    {
      cacheOK := false;
      for ui := 0 to |filterOutputs|
        invariant !cacheOK && filterOutputs == old(filterOutputs)
        invariant forall i | 0 <= i < |filterOutputs| :: filterOutputs[i].live <==> ui <= i
      {
        filterOutputs[ui].Delete();
      }
      filterOutputs := [];
      state := FilterState(kind, props, None);
    }

    /** Keep a generated stream when caching is on. */
    method CacheAsNeeded(stream: StreamData)
      requires stream.live && stream !in filterOutputs && Valid()
      modifies this`cacheOK, this`filterOutputs, this`state, stream`cached
      ensures Valid() && stream.cached == cache
      ensures filterOutputs == if cache then old(filterOutputs) + [stream] else old(filterOutputs)
    {
      if cache {
        stream.cached := true;
        filterOutputs := filterOutputs + [stream];
        cacheOK := true;
        state := FilterState(kind, props, Some(Values(filterOutputs)));
      } else {
        stream.cached := false;
      }
    }

    /** Set one property: the value must parse, and a value that differs drops the cache. */
    method SetProperty(key: nat, value: string) returns (ok: bool, needUpdate: bool)
      requires Valid()
      modifies this`props, this`cacheOK, this`filterOutputs, this`state, filterOutputs`live
      ensures Valid()
      ensures ok == kind.accepts(key, value)
      ensures needUpdate == (ok && !(key in old(props) && old(props)[key] == value))
      ensures state == if needUpdate then FilterState(kind, old(props)[key := value], None) else old(state)
      ensures filterOutputs == if needUpdate then [] else old(filterOutputs)
      ensures !needUpdate ==> forall p | p in filterOutputs :: p.live
    {
      needUpdate := false;
      if !kind.accepts(key, value) { return false, false; }
      if key in props && props[key] == value { return true, false; }
      props := props[key := value];
      state := state.(props := props);
      ClearCache();
      return true, true;
    }

    /** Copy the inputs that are not blocked to the output. */
    static method PropagateStreams(dataIn: seq<StreamData>, block: Mask, already: seq<StreamData>)
      returns (dataOut: seq<StreamData>)
      ensures dataOut == already + PassPtrs(dataIn, block)
    {
      dataOut := already;
      for ui := 0 to |dataIn|
        invariant dataOut == already + PassPtrs(dataIn[..ui], block)
      {
        assert dataIn[..ui + 1][..ui] == dataIn[..ui];
        if dataIn[ui].kind !in block {
          dataOut := dataOut + [dataIn[ui]];
        }
      }
      assert dataIn[..|dataIn|] == dataIn;
    }

    /** Generate new streams, offering each one to the cache. */
    method Generate(dataIn: seq<StreamData>) returns (made: seq<StreamData>)
      requires Valid() && !cacheOK
      modifies this`cacheOK, this`filterOutputs, this`state
      ensures Valid() && fresh(made) && NoRepeat(made)
      ensures Values(made) == kind.gen(props, Values(dataIn))
      ensures forall p | p in made :: p.live && p.cached == cache
      ensures filterOutputs == if cache then made else []
    {
      var values := kind.gen(props, Values(dataIn));
      made := [];
      for i := 0 to |values|
        invariant Valid() && fresh(made) && NoRepeat(made)
        invariant Values(made) == values[..i]
        invariant forall p | p in made :: p.live && p.cached == cache
        invariant filterOutputs == if cache then made else []
      {
        var p := new StreamData(values[i]);
        CacheAsNeeded(p);
        ghost var before := made;
        made := made + [p];
        ValuesConcat(before, [p]);
      }
    }

    /** Refresh: replay the cache, or generate, and let unblocked inputs through. `made`
        names the streams that this filter contributed. */
    method Refresh(dataIn: seq<StreamData>) returns (dataOut: seq<StreamData>, ghost made: seq<StreamData>)
      requires Valid() && AllLive(dataIn)
      modifies this`cacheOK, this`filterOutputs, this`state
      ensures Valid()
      ensures dataOut == JoinPtrs(kind.genFirst, PassPtrs(dataIn, kind.block(props)), made)
      ensures kind.genFirst ==> dataOut == made + PassPtrs(dataIn, kind.block(props))
      ensures !kind.genFirst ==> dataOut == PassPtrs(dataIn, kind.block(props)) + made
      ensures Values(dataOut) == Run(old(state), Values(dataIn))
      ensures state == AfterRun(old(state), Values(dataIn), cache)
      ensures old(cacheOK) ==> made == old(filterOutputs)
      ensures !old(cacheOK) ==> fresh(made)
      ensures NoRepeat(made) && forall p | p in made :: p.live && p.cached == (old(cacheOK) || cache)
      ensures filterOutputs == if old(cacheOK) || cache then made else []
    {
      var mine: seq<StreamData>;
      if cacheOK {
        mine := filterOutputs;
      } else {
        mine := Generate(dataIn);
      }
      made := mine;
      if kind.genFirst {
        dataOut := PropagateStreams(dataIn, kind.block(props), mine);
      } else {
        dataOut := PropagateStreams(dataIn, kind.block(props), []);
        dataOut := dataOut + mine;
      }
      var passed := PassPtrs(dataIn, kind.block(props));
      PassValues(dataIn, kind.block(props));
      ValuesConcat(passed, mine);
      ValuesConcat(mine, passed);
    }
  }
}
