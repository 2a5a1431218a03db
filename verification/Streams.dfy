/** Stream types, and the bit masks over them seen as sets. */
module Streams {

  datatype StreamType = Ions | Plot | Plot2D | Draw | Range | Voxel | OpenVdbGrid

  /** A mask is the set of stream types whose bit is set. */
  type Mask = set<StreamType>

  const MASK_ALL: Mask := {Ions, Plot, Plot2D, Draw, Range, Voxel, OpenVdbGrid}

  const MASK_ALL_BITS: bv8 := 0x7F

  /** The bit that encodes a stream type. */
  function Bit(t: StreamType): bv8
  {
    match t
    case Ions => 1
    case Plot => 2
    case Plot2D => 4
    case Draw => 8
    case Range => 16
    case Voxel => 32
    case OpenVdbGrid => 64
  }

  /** The types whose bits are set in `bits`. */
  function Decode(bits: bv8): Mask
  {
    set t: StreamType | t in MASK_ALL && Bit(t) & bits != 0
  }

  lemma EveryTypeIsListed(t: StreamType)
    ensures t in MASK_ALL
  {
  }

  lemma DecodeMember(t: StreamType, a: bv8)
    ensures t in Decode(a) <==> Bit(t) & a != 0
  {
    EveryTypeIsListed(t);
  }

  lemma MemberAnd(t: StreamType, a: bv8, b: bv8)
    ensures t in Decode(a & b) <==> t in Decode(a) && t in Decode(b)
  {
    DecodeMember(t, a & b);
    DecodeMember(t, a);
    DecodeMember(t, b);
  }

  lemma MemberOr(t: StreamType, a: bv8, b: bv8)
    ensures t in Decode(a | b) <==> t in Decode(a) || t in Decode(b)
  {
    DecodeMember(t, a | b);
    DecodeMember(t, a);
    DecodeMember(t, b);
  }

  lemma MemberNot(t: StreamType, a: bv8)
    ensures t in Decode(!a & MASK_ALL_BITS) <==> t !in Decode(a)
  {
    DecodeMember(t, !a & MASK_ALL_BITS);
    DecodeMember(t, a);
  }

  /** The bitwise operations on masks are the set operations, and a masked test
      against zero is a test for emptiness. */
  lemma MaskOperations(a: bv8, b: bv8)
    ensures Decode(a & b) == Decode(a) * Decode(b)
    ensures Decode(a | b) == Decode(a) + Decode(b)
    ensures Decode(!a & MASK_ALL_BITS) == MASK_ALL - Decode(a)
    ensures a & MASK_ALL_BITS != 0 <==> Decode(a) != {}
  {
    forall t: StreamType
      ensures t in Decode(a & b) <==> t in Decode(a) && t in Decode(b)
      ensures t in Decode(a | b) <==> t in Decode(a) || t in Decode(b)
      ensures t in Decode(!a & MASK_ALL_BITS) <==> t in MASK_ALL && t !in Decode(a)
    {
      MemberAnd(t, a, b);
      MemberOr(t, a, b);
      MemberNot(t, a);
      EveryTypeIsListed(t);
    }
    SomeBit(a);
  }

  lemma SomeBit(a: bv8)
    ensures a & MASK_ALL_BITS != 0 <==> Decode(a) != {}
  {
    if a & MASK_ALL_BITS != 0 {
      assert exists t: StreamType :: t in MASK_ALL && Bit(t) & a != 0 by {
        if Bit(Ions) & a != 0 { }
        else if Bit(Plot) & a != 0 { }
        else if Bit(Plot2D) & a != 0 { }
        else if Bit(Draw) & a != 0 { }
        else if Bit(Range) & a != 0 { }
        else if Bit(Voxel) & a != 0 { }
        else { assert Bit(OpenVdbGrid) & a != 0; }
      }
      var t :| t in MASK_ALL && Bit(t) & a != 0;
      assert t in Decode(a);
    } else {
      forall t: StreamType ensures t !in Decode(a) { NoBit(a, t); }
      assert Decode(a) == {};
    }
  }

  lemma NoBit(a: bv8, t: StreamType)
    requires a & MASK_ALL_BITS == 0
    ensures Bit(t) & a == 0
  {
  }

  /** A stream as a value: its type and its contents. */
  datatype Stream = Stream(kind: StreamType, payload: int)

  /** Every stream's type is in the mask. */
  ghost predicate Typed(s: seq<Stream>, within: Mask)
  {
    forall i | 0 <= i < |s| :: s[i].kind in within
  }
}
