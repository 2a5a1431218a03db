/** Cleaning the output of a refresh: each stream is kept only where it first occurs. */
module OutputScrub {
  import opened Forests

  /** The entries of `ps` that are not in `seen`, each at its first occurrence. */
  ghost function Unique<P>(ps: seq<P>, seen: set<P>): seq<P>
  {
    if ps == [] then []
    else if ps[0] in seen then Unique(ps[1..], seen)
    else [ps[0]] + Unique(ps[1..], seen + {ps[0]})
  }

  /** All entries of all outputs in order. */
  ghost function Flat<K, P>(out: seq<(K, seq<P>)>): seq<P>
  {
    if out == [] then [] else out[0].1 + Flat(out[1..])
  }

  /** The outputs without repeated entries, and without outputs left empty. */
  ghost function Scrubbed<K, P>(out: seq<(K, seq<P>)>, seen: set<P>): seq<(K, seq<P>)>
  {
    if out == [] then []
    else
      var kept := Unique(out[0].1, seen);
      (if kept == [] then [] else [(out[0].0, kept)]) + Scrubbed(out[1..], seen + SetOf(out[0].1))
  }

  lemma {:induction false} UniqueConcat<P>(a: seq<P>, b: seq<P>, seen: set<P>)
    ensures Unique(a + b, seen) == Unique(a, seen) + Unique(b, seen + SetOf(a))
  {
    if a == [] {
      assert a + b == b && seen + SetOf(a) == seen;
    } else {
      assert (a + b)[1..] == a[1..] + b;
      assert a == [a[0]] + a[1..];
      var seen' := if a[0] in seen then seen else seen + {a[0]};
      UniqueConcat(a[1..], b, seen');
      assert seen' + SetOf(a[1..]) == seen + SetOf(a);
    }
  }

  /** Nothing is lost and nothing is repeated. */
  lemma {:induction false} UniqueMembers<P>(ps: seq<P>, seen: set<P>)
    ensures NoRepeat(Unique(ps, seen))
    ensures forall p :: p in Unique(ps, seen) <==> p in ps && p !in seen
  {
    if ps != [] {
      var seen' := if ps[0] in seen then seen else seen + {ps[0]};
      UniqueMembers(ps[1..], seen');
      assert ps == [ps[0]] + ps[1..];
      if ps[0] !in seen { NoRepeatConcat([ps[0]], Unique(ps[1..], seen')); }
    }
  }

  lemma FlatOne<K, P>(x: K, ps: seq<P>, rest: seq<(K, seq<P>)>)
    ensures Flat([(x, ps)] + rest) == ps + Flat(rest)
  {
    assert ([(x, ps)] + rest)[1..] == rest;
  }

  /** Scrubbing keeps, of all the entries in order, exactly the first occurrences. */
  lemma {:induction false} ScrubbedFlat<K, P>(out: seq<(K, seq<P>)>, seen: set<P>)
    ensures Flat(Scrubbed(out, seen)) == Unique(Flat(out), seen)
    ensures forall i | 0 <= i < |Scrubbed(out, seen)| :: Scrubbed(out, seen)[i].1 != []
  {
    if out != [] {
      var kept, rest := Unique(out[0].1, seen), Scrubbed(out[1..], seen + SetOf(out[0].1));
      ScrubbedFlat(out[1..], seen + SetOf(out[0].1));
      UniqueConcat(out[0].1, Flat(out[1..]), seen);
      if kept == [] {
        assert [] + rest == rest;
      } else {
        FlatOne(out[0].0, kept, rest);
      }
    }
  }

  /** After scrubbing every stream occurs exactly once. */
  lemma ScrubbedOnce<K, P>(out: seq<(K, seq<P>)>)
    ensures NoRepeat(Flat(Scrubbed(out, {})))
    ensures forall p :: p in Flat(Scrubbed(out, {})) <==> p in Flat(out)
  {
    ScrubbedFlat(out, {});
    UniqueMembers(Flat(out), {});
  }

  /** The streams of the entries before `i`. */
  ghost function Earlier<K, P>(out: seq<(K, seq<P>)>, i: nat): set<P>
    requires i <= |out|
  {
    set j, p | 0 <= j < i && p in out[j].1 :: p
  }

  /** The streams of entry `i` that no entry before it has. */
  ghost function FirstIn<K, P>(out: seq<(K, seq<P>)>, i: nat): set<P>
    requires i < |out|
  {
    SetOf(out[i].1) - Earlier(out, i)
  }

  /** The entries of `clean` come from those at `places` of `out`, in order: each belongs to
      the same filter, and keeps what that one had first. */
  ghost predicate CameFrom<K, P>(out: seq<(K, seq<P>)>, seen: set<P>, clean: seq<(K, seq<P>)>, places: seq<nat>)
  {
    && |places| == |clean| && (forall k | 0 <= k < |places| :: places[k] < |out|)
    && (forall k, l | 0 <= k < l < |places| :: places[k] < places[l])
    && forall k | 0 <= k < |places| ::
         clean[k].0 == out[places[k]].0 && SetOf(clean[k].1) == FirstIn(out, places[k]) - seen
  }

  lemma FirstLater<K, P>(out: seq<(K, seq<P>)>, rest: seq<(K, seq<P>)>, i: nat)
    requires out != [] && rest == out[1..] && i < |rest|
    ensures out[i + 1] == rest[i] && FirstIn(out, i + 1) == FirstIn(rest, i) - SetOf(out[0].1)
  {
    forall p ensures p in Earlier(out, i + 1) <==> p in SetOf(out[0].1) || p in Earlier(rest, i) {
      if p in Earlier(out, i + 1) {
        var j :| 0 <= j < i + 1 && p in out[j].1;
        if j > 0 { assert out[j] == rest[j - 1]; }
      }
      if p in Earlier(rest, i) {
        var j :| 0 <= j < i && p in rest[j].1;
        assert out[j + 1] == rest[j];
      }
      if p in SetOf(out[0].1) { assert p in out[0].1; }
    }
  }

  /** What came from the later entries came from entries one place further on. */
  lemma CameLater<K, P>(out: seq<(K, seq<P>)>, seen: set<P>, clean: seq<(K, seq<P>)>, later: seq<nat>)
    returns (places: seq<nat>)
    requires out != [] && CameFrom(out[1..], seen + SetOf(out[0].1), clean, later)
    ensures CameFrom(out, seen, clean, places) && forall k | 0 <= k < |places| :: places[k] > 0
  {
    places := seq(|later|, k requires 0 <= k < |later| => later[k] + 1);
    forall k | 0 <= k < |places|
      ensures clean[k].0 == out[places[k]].0 && SetOf(clean[k].1) == FirstIn(out, places[k]) - seen
    {
      FirstLater(out, out[1..], later[k]);
    }
  }

  /** The first entry in front of the later ones. */
  lemma CameFirst<K, P>(out: seq<(K, seq<P>)>, seen: set<P>, clean: seq<(K, seq<P>)>, later: seq<nat>, kept: seq<P>)
    requires out != [] && CameFrom(out, seen, clean, later) && forall k | 0 <= k < |later| :: later[k] > 0
    requires SetOf(kept) == FirstIn(out, 0) - seen
    ensures CameFrom(out, seen, [(out[0].0, kept)] + clean, [0] + later)
  {
    hide FirstIn;
    var all, places := [(out[0].0, kept)] + clean, [0] + later;
    assert forall k | 0 < k < |places| :: places[k] == later[k - 1] && all[k] == clean[k - 1];
  }

  /** What is kept stays with the filter that put it out first, in the order of the filters. */
  lemma {:induction false} ScrubbedFrom<K, P>(out: seq<(K, seq<P>)>, seen: set<P>) returns (places: seq<nat>)
    ensures CameFrom(out, seen, Scrubbed(out, seen), places)
  {
    if out == [] {
      places := [];
    } else {
      var kept, met := Unique(out[0].1, seen), seen + SetOf(out[0].1);
      var later := ScrubbedFrom(out[1..], met);
      hide CameFrom;
      places := CameLater(out, seen, Scrubbed(out[1..], met), later);
      UniqueMembers(out[0].1, seen);
      assert SetOf(kept) == FirstIn(out, 0) - seen;
      if kept != [] {
        CameFirst(out, seen, Scrubbed(out[1..], met), places, kept);
        places := [0] + places;
      }
    }
  }

  /** `clean` holds every stream of `out` once, with the filter that put it out first. */
  ghost predicate CleanOf<K, P>(out: seq<(K, seq<P>)>, clean: seq<(K, seq<P>)>)
  {
    && NoRepeat(Flat(clean)) && SetOf(Flat(clean)) == SetOf(Flat(out))
    && (forall k | 0 <= k < |clean| :: clean[k].1 != [])
    && exists places :: CameFrom(out, {}, clean, places)
  }

  lemma ScrubbedClean<K, P>(out: seq<(K, seq<P>)>)
    ensures CleanOf(out, Scrubbed(out, {}))
  {
    ScrubbedOnce(out);
    ScrubbedFlat(out, {});
    var places := ScrubbedFrom(out, {});
    assert SetOf(Flat(Scrubbed(out, {}))) == SetOf(Flat(out));
  }

  /** Erase from `v0`, in place, what has been met before. */
  method EraseMet<P(==)>(v0: seq<P>, met0: set<P>) returns (v: seq<P>, met: set<P>)
    ensures v == Unique(v0, met0) && met == met0 + SetOf(v0)
  {
    v, met := v0, met0;
    var itJ := 0;
    while itJ < |v|
      invariant 0 <= itJ <= |v|
      invariant v[..itJ] + Unique(v[itJ..], met) == Unique(v0, met0)
      invariant met + SetOf(v[itJ..]) == met0 + SetOf(v0)
      decreases |v| - itJ
    {
      assert v[itJ..] == [v[itJ]] + v[itJ + 1..];
      if v[itJ] !in met {
        assert v[..itJ + 1] == v[..itJ] + [v[itJ]];
        met := met + {v[itJ]};
        itJ := itJ + 1;
      } else {
        ghost var was := v;
        v := v[..itJ] + v[itJ + 1..];
        assert v[..itJ] == was[..itJ] && v[itJ..] == was[itJ + 1..];
      }
    }
    assert v[..itJ] == v;
  }

  method ScrubOutput<K, P(==)>(out: seq<(K, seq<P>)>) returns (clean: seq<(K, seq<P>)>)
    ensures clean == Scrubbed(out, {}) && CleanOf(out, clean)
  {
    clean := [];
    var met: set<P> := {};
    for it := 0 to |out|
      invariant clean + Scrubbed(out[it..], met) == Scrubbed(out, {})
    {
      ghost var before := met;
      assert out[it..][1..] == out[it + 1..];
      var kept: seq<P>;
      kept, met := EraseMet(out[it].1, met);
      if kept != [] {
        ghost var was := clean;
        clean := clean + [(out[it].0, kept)];
        assert clean + Scrubbed(out[it + 1..], met) == was + ([(out[it].0, kept)] + Scrubbed(out[it + 1..], met));
      }
    }
    assert clean + [] == clean;
    ScrubbedClean(out);
  }
}
