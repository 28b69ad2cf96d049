// The layout of structure and union fields (fields in lcc/src/decl.c).

module Layout {
  import opened Words

  const UNIT := 4  // unsignedtype->size and unsignedtype->align

  /** A field: a bit-field of bitsize bits, 0 for one without a name, or an object of some size and alignment. */
  datatype Field = Bits(bitsize: nat) | Object(size: nat, align: nat)

  /** No bit-field is wider than its unit. An alignment of 0 counts as 1. */
  predicate FieldOk(p: Field) {
    p.Bits? ==> p.bitsize <= 8 * UNIT
  }

  /** Where a field goes: its byte offset, lsb, and the bits it has, counted in the order they are declared. */
  datatype Place = Place(offset: nat, lsb: int, first: nat, width: nat)

  function Alignment(p: Field): nat {
    if p.Bits? then UNIT else if p.align == 0 then 1 else p.align
  }

  function Bits2Bytes(n: int): nat
    requires n >= -1
  {
    (n + 7) / 8
  }

  /** What a field's place has to be. */
  ghost predicate PlaceOk(p: Field, s: Place, littleEndian: bool) {
    && s.offset % Alignment(p) == 0 && 8 * s.offset <= s.first
    && (p.Object? ==> s.first == 8 * s.offset && s.width == 8 * p.size)
    && (p.Bits? ==>
          && s.width == p.bitsize && s.first + s.width <= 8 * (s.offset + UNIT)
          && s.lsb - 1 == if littleEndian then s.first - 8 * s.offset else 8 * (s.offset + UNIT) - s.first - s.width)
  }

  function End(s: Place): nat { s.first + s.width }

  /** Where the next field may begin, in bits. */
  function Frontier(off: nat, bits: nat): nat {
    8 * off + if bits == 0 then 0 else bits - 1
  }

  /** Between fields: bits is one more than the bits used of the open unit at off, 0 if none is open. */
  ghost predicate Between(off: nat, bits: nat) {
    bits <= 8 * UNIT + 1 && (bits > 0 ==> off % UNIT == 0)
  }

  /** Whether a field opens a new unit or object behind what is there. */
  predicate StartsAfresh(p: Field, bits: nat) {
    p.Object? || p.bitsize == 0 || bits == 0 || bits - 1 + p.bitsize > 8 * UNIT
  }

  /** The least multiple of a, in bytes, that is not below end, in bits. */
  predicate IsLeast(off: int, a: nat, end: nat)
    requires a > 0
  {
    off % a == 0 && end <= 8 * off && 8 * (off - a) < end
  }

  /** Where a field of a structure lies behind another: right behind it in its unit, or at the next place of its own. */
  ghost predicate Follows(q: Field, s: Place, p: Field, t: Place) {
    if q.Bits? && p.Bits? && p.bitsize > 0 && End(s) + p.bitsize <= 8 * (s.offset + UNIT)
    then t.offset == s.offset && t.first == End(s)
    else t.first == 8 * t.offset && IsLeast(t.offset, Alignment(p), End(s))
  }

  /** The places of a structure begin at 0 and waste nothing; those of a union all begin at 0. */
  ghost predicate Tight(fields: seq<Field>, places: seq<Place>, isUnion: bool)
    requires |places| <= |fields|
  {
    && (places != [] ==> places[0].offset == 0 && places[0].first == 0)
    && forall k :: 0 < k < |places| ==>
         if isUnion then places[k].offset == 0 && places[k].first == 0
         else Follows(fields[k - 1], places[k - 1], fields[k], places[k])
  }

  /** The alignment is the greatest there is. */
  ghost predicate GreatestAlignment(fields: seq<Field>, structAlign: nat, align: nat) {
    && structAlign <= align && (forall k :: 0 <= k < |fields| ==> Alignment(fields[k]) <= align)
    && (align == structAlign || exists k :: 0 <= k < |fields| && Alignment(fields[k]) == align)
  }

  /** All places end below the size, and one of them, if there are any, not below less than that. */
  ghost predicate Holds(places: seq<Place>, size: nat, less: int) {
    && (forall k :: 0 <= k < |places| ==> End(places[k]) <= 8 * size)
    && (size == 0 || exists k :: 0 <= k < |places| && 8 * less < End(places[k]))
  }

  /** The start of the loop body: where the field begins. */
  method Advance(p: Field, isUnion: bool, off0: nat, bits0: nat) returns (off: nat, bits: nat)
    requires FieldOk(p) && Between(off0, bits0)
    ensures Between(off, bits) && off % Alignment(p) == 0
    ensures if StartsAfresh(p, bits) then bits == 0 else p.Bits? && bits - 1 + p.bitsize <= 8 * UNIT
    ensures
      if isUnion then off == 0 && bits == 0
      else if StartsAfresh(p, bits0) then bits == 0 && IsLeast(off, Alignment(p), Frontier(off0, bits0))
      else off == off0 && bits == bits0
  {
    off, bits := off0, bits0;
    if isUnion {
      off, bits := 0, 0;
    } else if StartsAfresh(p, bits) {
      off := RoundUp(off + Bits2Bytes(bits - 1), Alignment(p));
      bits := 0;
    }
  }

  /** The rest of the loop body: the place of the field. */
  method Put(p: Field, off0: nat, bits0: nat, littleEndian: bool) returns (place: Place, off: nat, bits: nat)
    requires FieldOk(p) && Between(off0, bits0) && off0 % Alignment(p) == 0
    requires if StartsAfresh(p, bits0) then bits0 == 0 else p.Bits? && bits0 - 1 + p.bitsize <= 8 * UNIT
    ensures Between(off, bits) && PlaceOk(p, place, littleEndian)
    ensures place.offset == off0 && place.first == Frontier(off0, bits0) && End(place) == Frontier(off, bits)
    ensures if p.Bits? then off == off0 && bits > 0 else bits == 0
  {
    off, bits := off0, bits0;
    if p.Bits? {
      if bits == 0 {
        bits := 1;
      }
      place := Place(off, if littleEndian then bits else 8 * UNIT - bits + 1 - p.bitsize + 1,
                     8 * off + bits - 1, p.bitsize);
      bits := bits + p.bitsize;
    } else {
      place := Place(off, 0, 8 * off, 8 * p.size);
      off := off + p.size;
    }
  }

  /** The loop's state behind the last place. */
  ghost predicate Behind(fields: seq<Field>, places: seq<Place>, off: nat, bits: nat)
    requires |places| <= |fields|
  {
    if places == [] then off == 0 && bits == 0
    else
      var q, s := fields[|places| - 1], places[|places| - 1];
      Frontier(off, bits) == End(s) && if q.Bits? then off == s.offset && bits > 0 else bits == 0
  }

  /**
   * The layout loop: every field is aligned and inside its unit; the fields of a structure
   * follow each other without overlap and without waste, those of a union all begin at 0; and
   * the size is the least multiple of the greatest alignment that holds them.
   */
  method Fields(fields: seq<Field>, isUnion: bool, structAlign: nat, littleEndian: bool)
    returns (places: seq<Place>, size: nat, align: nat)
    requires structAlign > 0 && forall k :: 0 <= k < |fields| ==> FieldOk(fields[k])
    ensures |places| == |fields| && GreatestAlignment(fields, structAlign, align)
    ensures forall k :: 0 <= k < |fields| ==> PlaceOk(fields[k], places[k], littleEndian)
    ensures Tight(fields, places, isUnion)
    ensures !isUnion ==> forall j, k :: 0 <= j < k < |fields| ==> End(places[j]) <= places[k].first
    ensures size % align == 0 && Holds(places, size, size - align)
  {
    hide PlaceOk, Follows, Holds, GreatestAlignment;
    var off: nat, bits: nat := 0, 0;
    size, align, places := 0, structAlign, [];
    HoldsNothing();
    OwnAlignment(structAlign);
    for i := 0 to |fields|
      invariant |places| == i && Between(off, bits) && Behind(fields, places, off, bits)
      invariant GreatestAlignment(fields[..i], structAlign, align)
      invariant forall k :: 0 <= k < i ==> PlaceOk(fields[k], places[k], littleEndian)
      invariant Tight(fields, places, isUnion) && Holds(places, size, size - 1)
    {
      ghost var before, align0, off0, bits0 := places, align, off, bits;
      off, bits := Advance(fields[i], isUnion, off, bits);
      if Alignment(fields[i]) > align {
        align := Alignment(fields[i]);
      }
      MoreAlignment(fields, structAlign, align0, i);
      var place;
      place, off, bits := Put(fields[i], off, bits, littleEndian);
      HoldsMore(places, place, size, off + Bits2Bytes(bits - 1));
      if off + Bits2Bytes(bits - 1) > size {
        size := off + Bits2Bytes(bits - 1);
      }
      places := places + [place];
      TightMore(fields, before, place, isUnion, off0, bits0);
    }
    assert fields[..|fields|] == fields;
    InOrder(fields, places, isUnion, littleEndian);
    SomeAlignment(fields, structAlign, align);
    HoldsRounded(places, size, align);
    size := RoundUp(size, align);
  }

  lemma HoldsNothing()
    ensures Holds([], 0, -1)
  {
  }

  lemma OwnAlignment(structAlign: nat)
    ensures GreatestAlignment([], structAlign, structAlign)
  {
  }

  lemma MoreAlignment(fields: seq<Field>, structAlign: nat, align: nat, i: nat)
    requires i < |fields| && GreatestAlignment(fields[..i], structAlign, align)
    ensures
      var a := Alignment(fields[i]);
      GreatestAlignment(fields[..i + 1], structAlign, if a > align then a else align)
  {
    var more := fields[..i + 1];
    assert more == fields[..i] + [fields[i]];
    if align != structAlign {
      var k :| 0 <= k < |fields[..i]| && Alignment(fields[..i][k]) == align;
      assert Alignment(more[k]) == align;
    }
    assert more[i] == fields[i];
  }

  lemma SomeAlignment(fields: seq<Field>, structAlign: nat, align: nat)
    requires GreatestAlignment(fields, structAlign, align) && structAlign > 0
    ensures align > 0
  {
  }

  /** One more place, that ends in byte b. */
  lemma HoldsMore(places: seq<Place>, place: Place, size: nat, b: nat)
    requires Holds(places, size, size - 1) && End(place) <= 8 * b && (b == 0 || 8 * (b - 1) < End(place))
    ensures var size' := if b > size then b else size; Holds(places + [place], size', size' - 1)
  {
    var all := places + [place];
    assert all[|places|] == place;
    if size != 0 {
      var k :| 0 <= k < |places| && 8 * (size - 1) < End(places[k]);
      assert End(all[k]) == End(places[k]);
    }
  }

  lemma HoldsRounded(places: seq<Place>, size: nat, align: nat)
    requires Holds(places, size, size - 1) && align > 0
    ensures Holds(places, RoundUp(size, align), RoundUp(size, align) - align)
  {
    if size != 0 {
      var k :| 0 <= k < |places| && 8 * (size - 1) < End(places[k]);
      assert RoundUp(size, align) - align <= size - 1;
    } else {
      assert RoundUp(0, align) == 0;
    }
  }

  /** One more place, where Advance and Put have set it. */
  lemma TightMore(fields: seq<Field>, places: seq<Place>, place: Place, isUnion: bool, off: nat, bits: nat)
    requires |places| < |fields| && Tight(fields, places, isUnion) && Behind(fields, places, off, bits)
    requires
      var p := fields[|places|];
      if isUnion then place.offset == 0 && place.first == 0
      else if StartsAfresh(p, bits)
      then place.first == 8 * place.offset && IsLeast(place.offset, Alignment(p), Frontier(off, bits))
      else place.offset == off && place.first == Frontier(off, bits)
    ensures Tight(fields, places + [place], isUnion)
  {
    hide Follows, IsLeast;
    var all, n := places + [place], |places|;
    forall k | 0 < k < |all|
      ensures if isUnion then all[k].offset == 0 && all[k].first == 0
              else Follows(fields[k - 1], all[k - 1], fields[k], all[k])
    {
      if k < n {
        assert all[k - 1] == places[k - 1] && all[k] == places[k];
      } else if !isUnion {
        FollowsLast(fields[n - 1], places[n - 1], fields[n], place, off, bits);
      }
    }
    assert all[0] == if places == [] then place else places[0];
    if places == [] && !isUnion { FirstAtZero(place, Alignment(fields[0]), off, bits, StartsAfresh(fields[0], bits)); }
    TightIs(fields, all, isUnion);
  }

  lemma TightIs(fields: seq<Field>, places: seq<Place>, isUnion: bool)
    requires |places| <= |fields| && (places != [] ==> places[0].offset == 0 && places[0].first == 0)
    requires forall k :: 0 < k < |places| ==>
      if isUnion then places[k].offset == 0 && places[k].first == 0
      else Follows(fields[k - 1], places[k - 1], fields[k], places[k])
    ensures Tight(fields, places, isUnion)
  {
  }

  lemma FirstAtZero(place: Place, a: nat, off: nat, bits: nat, afresh: bool)
    requires a > 0 && off == 0 && bits == 0
    requires
      if afresh then place.first == 8 * place.offset && IsLeast(place.offset, a, 0)
      else place.offset == 0 && place.first == 0
    ensures place.offset == 0 && place.first == 0
  {
    if afresh { ModSmall(place.offset, a); }
  }

  lemma FollowsLast(q: Field, s: Place, p: Field, t: Place, off: nat, bits: nat)
    requires Frontier(off, bits) == End(s) && if q.Bits? then off == s.offset && bits > 0 else bits == 0
    requires
      if StartsAfresh(p, bits) then t.first == 8 * t.offset && IsLeast(t.offset, Alignment(p), Frontier(off, bits))
      else t.offset == off && t.first == Frontier(off, bits)
    ensures Follows(q, s, p, t)
  {
  }

  /** Tight places of a structure are in order. */
  lemma {:induction false} InOrder(fields: seq<Field>, places: seq<Place>, isUnion: bool, littleEndian: bool)
    requires |places| == |fields| && Tight(fields, places, isUnion)
    ensures !isUnion ==> forall j, k :: 0 <= j < k < |places| ==> End(places[j]) <= places[k].first
  {
    if !isUnion {
      forall j, k | 0 <= j < k < |places| ensures End(places[j]) <= places[k].first {
        Before(fields, places, j, k);
      }
    }
  }

  lemma {:induction false} Before(fields: seq<Field>, places: seq<Place>, j: nat, k: nat)
    requires j < k < |places| == |fields| && Tight(fields, places, false)
    ensures End(places[j]) <= places[k].first
    decreases k
  {
    assert Follows(fields[k - 1], places[k - 1], fields[k], places[k]);
    if j < k - 1 { Before(fields, places, j, k - 1); }
  }

  /** Read back through lsb, bit-fields of one unit do not share bits, on machines of either order. */
  lemma UnitsDisjoint(p: Field, s: Place, q: Field, t: Place, littleEndian: bool)
    requires p.Bits? && q.Bits? && PlaceOk(p, s, littleEndian) && PlaceOk(q, t, littleEndian)
    requires s.offset == t.offset && End(s) <= t.first
    ensures 0 <= s.lsb - 1 && s.lsb - 1 + p.bitsize <= 8 * UNIT
    ensures s.lsb - 1 + p.bitsize <= t.lsb - 1 || t.lsb - 1 + q.bitsize <= s.lsb - 1
  {
  }
}
