/** Where the members of a struct lie in memory (parser/ast.c, parseStruct). */
module StructLayout {
  import opened Basics
  import Numbers

  /** What a declaration needs: a `var`, a scalar or an array of a native type of `size` bytes, or (functions
      and properties) nothing. */
  datatype Shape = Dynamic | Typed(size: nat) | Array(size: nat, count: nat) | Nothing

  datatype Decl = Decl(shape: Shape, isStatic: bool)

  /** The sizes of native types. */
  predicate TypeSize(s: nat) {
    s == 1 || s == 2 || s == 4 || s == 8 || s == 16
  }

  predicate Known(d: Decl) {
    match d.shape
    case Typed(s) => TypeSize(s)
    case Array(s, _) => TypeSize(s)
    case _ => true
  }

  const VAR_SIZE: nat := 16

  function Extent(d: Decl): nat {
    match d.shape
    case Dynamic => VAR_SIZE
    case Typed(s) => s
    case Array(s, n) => s * n
    case Nothing => 0
  }

  // ---------- the layout ----------

  /** The running sizes, and the offsets of the members laid out so far. */
  datatype Layout = Layout(size: nat, staticSize: nat, offsets: seq<nat>) {
    function SizeOf(isStatic: bool): nat {
      if isStatic then staticSize else size
    }
  }

  /** `x & (s - 1)`, for the size of a native type. */
  function Low(x: nat, s: nat): (r: nat)
    requires TypeSize(s)
    ensures r <= x && r < s
  {
    if s == 1 then 0 else if s == 2 then x % 2 else if s == 4 then x % 4 else if s == 8 then x % 8 else x % 16
  }

  /** `x & ~(s - 1)`. */
  function Floor(x: nat, s: nat): nat
    requires TypeSize(s)
  {
    x - Low(x, s)
  }

  /** The alignment of a scalar; 8 bytes at most. */
  predicate IsAligned(x: nat, s: nat)
    requires TypeSize(s)
  {
    Low(x, if s > 8 then 8 else s) == 0
  }

  /** Where a scalar or array of elements of size `s` starts: behind the member declared just before it, if
      that is a scalar or an array of the same region; else at the end of the region. */
  function Start(prev: Option<Decl>, at: nat, isStatic: bool, s: nat, size: nat): nat
    requires TypeSize(s)
  {
    if prev.Some? && prev.value.isStatic == isStatic && prev.value.shape.Typed? then
      if prev.value.shape.size < s then Floor(at, s) + s else at + prev.value.shape.size
    else if prev.Some? && prev.value.isStatic == isStatic && prev.value.shape.Array? then
      Floor(at + Extent(prev.value), s) + s
    else size
  }

  function RoundedUp(x: nat): nat {
    if x % 8 != 0 then Floor(x, 8) + 8 else x
  }

  /** The size of the region after a member at `offset`. */
  function Grow(d: Decl, offset: nat): nat {
    match d.shape
    case Dynamic => offset + VAR_SIZE
    case Typed(_) => Floor(offset, 8) + 8
    case Array(_, _) => RoundedUp(offset + Extent(d))
    case Nothing => offset
  }

  /** One declaration. */
  function Place(l: Layout, prev: Option<Decl>, d: Decl): (r: Layout)
    requires Known(d) && (prev.Some? ==> l.offsets != [])
    ensures |r.offsets| == |l.offsets| + 1
  {
    var size := l.SizeOf(d.isStatic);
    var offset :=
      if d.shape.Typed? || d.shape.Array? then
        Start(prev, if prev.Some? then l.offsets[|l.offsets| - 1] else 0, d.isStatic, d.shape.size, size)
      else size;
    var after := Grow(d, offset);
    if d.isStatic then Layout(l.size, after, l.offsets + [offset]) else Layout(after, l.staticSize, l.offsets + [offset])
  }

  ghost predicate AllKnown(decls: seq<Decl>) {
    forall i :: 0 <= i < |decls| ==> Known(decls[i])
  }

  function LayOut(decls: seq<Decl>): (r: Layout)
    requires AllKnown(decls)
    ensures |r.offsets| == |decls|
  {
    if decls == [] then Layout(0, 0, []) else
      var n := |decls| - 1;
      Place(LayOut(decls[..n]), if n > 0 then Some(decls[n - 1]) else None, decls[n])
  }

  // ---------- soundness ----------

  /** A typed `var` takes 16 bytes, but the running size only grows by 8 for it. */
  predicate IsTypedVar(d: Decl) {
    d.shape == Typed(16)
  }

  predicate Follows(d: Decl, next: Decl) {
    next.isStatic == d.isStatic && (next.shape.Typed? || next.shape.Array?)
  }

  /** Every typed `var` is directly followed by a scalar or array of its region. */
  ghost predicate Followed(decls: seq<Decl>) {
    forall i :: 0 <= i < |decls| && IsTypedVar(decls[i]) ==> i + 1 < |decls| && Follows(decls[i], decls[i + 1])
  }

  predicate SameRegion(d: Decl, e: Decl) {
    d.isStatic == e.isStatic && d.shape != Nothing && e.shape != Nothing
  }

  /** Members of one region lie one behind the other. */
  ghost predicate Disjoint(decls: seq<Decl>, l: Layout)
    requires |l.offsets| == |decls|
  {
    forall i, j :: 0 <= i < j < |decls| && SameRegion(decls[i], decls[j]) ==> l.offsets[i] + Extent(decls[i]) <= l.offsets[j]
  }

  ghost predicate Inside(decls: seq<Decl>, l: Layout)
    requires |l.offsets| == |decls|
  {
    forall i :: 0 <= i < |decls| && decls[i].shape != Nothing ==>
      l.offsets[i] + Extent(decls[i]) <= l.SizeOf(decls[i].isStatic)
  }

  /** Scalars are naturally aligned; a `var` is aligned to 8 bytes. */
  ghost predicate Aligned(decls: seq<Decl>, l: Layout)
    requires |l.offsets| == |decls|
  {
    forall i :: 0 <= i < |decls| ==>
      match decls[i].shape
      case Typed(s) => TypeSize(s) && IsAligned(l.offsets[i], s)
      case Dynamic => l.offsets[i] % 8 == 0
      case _ => true
  }

  function Slack(decls: seq<Decl>, i: nat): nat
    requires i < |decls|
  {
    if i == |decls| - 1 && IsTypedVar(decls[i]) then 8 else 0
  }

  /** What holds while declarations are still to come: only a typed `var` that was declared last may stick out
      of its region, by 8 bytes. */
  ghost predicate SoFar(decls: seq<Decl>, l: Layout)
    requires |l.offsets| == |decls|
  {
    && Disjoint(decls, l) && Aligned(decls, l) && l.size % 8 == 0 && l.staticSize % 8 == 0
    && (forall i :: 0 <= i < |decls| && decls[i].shape != Nothing ==>
        l.offsets[i] + Extent(decls[i]) <= l.SizeOf(decls[i].isStatic) + Slack(decls, i))
    && (decls != [] ==> LastFits(decls[|decls| - 1], l.offsets[|decls| - 1], l))
  }

  /** The region's size follows from the member declared last. */
  ghost predicate LastFits(d: Decl, at: nat, l: Layout) {
    match d.shape
    case Typed(s) => TypeSize(s) && l.SizeOf(d.isStatic) == Floor(at, 8) + 8
    case Array(_, _) => at + Extent(d) <= l.SizeOf(d.isStatic) < at + Extent(d) + 8
    case _ => true
  }

  /** All typed vars but one declared last are followed. */
  ghost predicate FollowedSoFar(decls: seq<Decl>) {
    forall i :: 0 <= i < |decls| - 1 && IsTypedVar(decls[i]) ==> Follows(decls[i], decls[i + 1])
  }

  /** Behind a scalar: free and aligned. */
  lemma AfterTyped(at: nat, os: nat, s: nat)
    requires TypeSize(os) && TypeSize(s) && IsAligned(at, os)
    ensures var r := if os < s then Floor(at, s) + s else at + os; at + os <= r && IsAligned(r, s)
  {
    if os < s {
      LowStep(at, os, s);
      FloorAligned(at, s);
    } else {
      StillAligned(at, os, s);
    }
  }

  lemma LowStep(x: nat, os: nat, s: nat)
    requires TypeSize(os) && TypeSize(s) && os < s && IsAligned(x, os)
    ensures Low(x, s) + os <= s
  {
    hide Low;
    LowRemainder(x, s);
    LowRemainder(x, os);
    if os == 2 {
      if s == 4 { EvenIn4(x); } else if s == 8 { Even(x); } else { EvenIn16(x); }
    } else if os == 4 {
      if s == 8 { Quads(x); } else { QuadsIn16(x); }
    } else if os == 8 {
      EightIn16(x);
    }
  }

  lemma LowRemainder(x: nat, s: nat)
    requires TypeSize(s)
    ensures s == 1 ==> Low(x, s) == 0
    ensures s == 2 ==> Low(x, s) == x % 2
    ensures s == 4 ==> Low(x, s) == x % 4
    ensures s == 8 ==> Low(x, s) == x % 8
    ensures s == 16 ==> Low(x, s) == x % 16
  {
  }

  lemma EvenIn4(x: nat)
    requires x % 2 == 0
    ensures x % 4 <= 2
  {
  }

  lemma EvenIn16(x: nat)
    requires x % 2 == 0
    ensures x % 16 <= 14
  {
  }

  lemma QuadsIn16(x: nat)
    requires x % 4 == 0
    ensures x % 16 <= 12
  {
  }

  lemma EightIn16(x: nat)
    requires x % 8 == 0
    ensures x % 16 <= 8
  {
  }

  lemma EightsEven(x: nat)
    requires x % 8 == 0
    ensures x % 4 == 0 && x % 2 == 0
  {
    var q := x / 8;
    assert x == 4 * (2 * q) + 0 && x == 2 * (4 * q) + 0;
    Remainder4(x, 2 * q, 0);
    Remainder2(x, 4 * q, 0);
  }

  lemma Remainder4(x: nat, q: nat, r: nat)
    requires x == 4 * q + r && r < 4
    ensures x % 4 == r
  {
  }

  lemma Remainder2(x: nat, q: nat, r: nat)
    requires x == 2 * q + r && r < 2
    ensures x % 2 == r
  {
  }

  lemma QuadsEven(x: nat)
    requires x % 4 == 0
    ensures x % 2 == 0
  {
    Remainder2(x, 2 * (x / 4), 0);
  }

  lemma FloorAligned(x: nat, s: nat)
    requires TypeSize(s)
    ensures IsAligned(Floor(x, s) + s, s)
  {
  }

  lemma StillAligned(x: nat, os: nat, s: nat)
    requires TypeSize(os) && TypeSize(s) && s <= os && IsAligned(x, os)
    ensures IsAligned(x + os, s)
  {
    if os == 8 || os == 16 {
      EightsEven(x);
    } else if os == 4 {
      QuadsEven(x);
    }
  }

  lemma AfterArray(end: nat, s: nat)
    requires TypeSize(s)
    ensures var r := Floor(end, s) + s; end < r && IsAligned(r, s)
  {
    hide Low, IsAligned;
    FloorAligned(end, s);
  }

  lemma RoundUpFacts(x: nat)
    ensures x <= RoundedUp(x) < x + 8 && RoundedUp(x) % 8 == 0
  {
  }

  /** The region's end does not move back. */
  lemma NotBack(at: nat, end: nat, r: nat, size: nat)
    requires size % 8 == 0 && ((size == Floor(at, 8) + 8 && at < end) || end <= size < end + 8) && end <= r
    ensures size <= Floor(r, 8) + 8 && size <= RoundedUp(r)
  {
  }

  predicate Extends(prev: Decl, d: Decl) {
    prev.isStatic == d.isStatic && (prev.shape.Typed? || prev.shape.Array?)
  }

  lemma StartFacts(prev: Option<Decl>, at: nat, d: Decl, size: nat)
    requires (d.shape.Typed? || d.shape.Array?) && Known(d) && size % 8 == 0
    requires prev.Some? && Extends(prev.value, d) ==>
      && Known(prev.value) && (prev.value.shape.Typed? ==> IsAligned(at, prev.value.shape.size) && size == Floor(at, 8) + 8)
      && (prev.value.shape.Array? ==> at + Extent(prev.value) <= size < at + Extent(prev.value) + 8)
    ensures var r := Start(prev, at, d.isStatic, d.shape.size, size);
      && IsAligned(r, d.shape.size) && size <= Floor(r, 8) + 8 && size <= RoundedUp(r)
      && (if prev.Some? && Extends(prev.value, d) then at + Extent(prev.value) <= r else r == size)
  {
    var r := Start(prev, at, d.isStatic, d.shape.size, size);
    if prev.Some? && Extends(prev.value, d) {
      hide Floor, Low, IsAligned, RoundedUp;
      var end := at + Extent(prev.value);
      if prev.value.shape.Typed? {
        AfterTyped(at, prev.value.shape.size, d.shape.size);
      } else {
        AfterArray(end, d.shape.size);
      }
      NotBack(at, end, r, size);
    } else {
      AtSize(size, d.shape.size);
    }
  }

  lemma AtSize(size: nat, s: nat)
    requires size % 8 == 0 && TypeSize(s)
    ensures IsAligned(size, s) && size <= Floor(size, 8) + 8 && RoundedUp(size) == size
  {
  }

  function Last(decls: seq<Decl>): Option<Decl> {
    if decls == [] then None else Some(decls[|decls| - 1])
  }

  function LastOffset(l: Layout): nat {
    if l.offsets == [] then 0 else l.offsets[|l.offsets| - 1]
  }

  /** Where the next declaration goes, and how it lies with respect to those before it. */
  lemma OffsetFacts(decls: seq<Decl>, l: Layout, d: Decl)
    requires AllKnown(decls) && Known(d) && |l.offsets| == |decls| && SoFar(decls, l) && d.shape != Nothing
    requires decls != [] && IsTypedVar(decls[|decls| - 1]) ==> Follows(decls[|decls| - 1], d)
    ensures var r := Place(l, Last(decls), d);
      var at := r.offsets[|decls|];
      && (forall i :: 0 <= i < |decls| && SameRegion(decls[i], d) ==> l.offsets[i] + Extent(decls[i]) <= at)
      && l.SizeOf(d.isStatic) <= r.SizeOf(d.isStatic) && r.SizeOf(d.isStatic) % 8 == 0
      && LastFits(d, at, r)
      && at + Extent(d) <= r.SizeOf(d.isStatic) + (if IsTypedVar(d) then 8 else 0)
      && (d.shape.Typed? ==> IsAligned(at, d.shape.size)) && (d.shape.Dynamic? ==> at % 8 == 0)
  {
    hide Floor, Low, IsAligned, RoundedUp, Start, SoFar, LastFits, Extent;
    BehindOthers(decls, l, d);
    SizeFacts(decls, l, d);
  }

  lemma BehindOthers(decls: seq<Decl>, l: Layout, d: Decl)
    requires AllKnown(decls) && Known(d) && |l.offsets| == |decls| && SoFar(decls, l) && d.shape != Nothing
    requires decls != [] && IsTypedVar(decls[|decls| - 1]) ==> Follows(decls[|decls| - 1], d)
    ensures var at := Place(l, Last(decls), d).offsets[|decls|];
      forall i :: 0 <= i < |decls| && SameRegion(decls[i], d) ==> l.offsets[i] + Extent(decls[i]) <= at
  {
    hide Floor, Low, IsAligned, RoundedUp, Start;
    if !d.shape.Dynamic? {
      StartFacts(Last(decls), LastOffset(l), d, l.SizeOf(d.isStatic));
    }
  }

  lemma SizeFacts(decls: seq<Decl>, l: Layout, d: Decl)
    requires AllKnown(decls) && Known(d) && |l.offsets| == |decls| && SoFar(decls, l) && d.shape != Nothing
    ensures var r := Place(l, Last(decls), d);
      var at := r.offsets[|decls|];
      && l.SizeOf(d.isStatic) <= r.SizeOf(d.isStatic) && r.SizeOf(d.isStatic) % 8 == 0
      && LastFits(d, at, r)
      && at + Extent(d) <= r.SizeOf(d.isStatic) + (if IsTypedVar(d) then 8 else 0)
      && (d.shape.Typed? ==> IsAligned(at, d.shape.size)) && (d.shape.Dynamic? ==> at % 8 == 0)
  {
    hide Floor, Low, IsAligned, RoundedUp, Start;
    var at := Place(l, Last(decls), d).offsets[|decls|];
    if !d.shape.Dynamic? {
      StartFacts(Last(decls), LastOffset(l), d, l.SizeOf(d.isStatic));
      if d.shape.Array? {
        RoundUpFacts(at + Extent(d));
        RoundUpGrows(at, at + Extent(d));
      } else {
        ScalarFits(at, d.shape.size);
      }
    }
  }

  lemma RoundUpGrows(x: nat, y: nat)
    requires x <= y
    ensures RoundedUp(x) <= RoundedUp(y)
  {
  }

  lemma ScalarFits(at: nat, s: nat)
    requires TypeSize(s) && IsAligned(at, s)
    ensures at + s <= Floor(at, 8) + 8 + (if s == 16 then 8 else 0) && (Floor(at, 8) + 8) % 8 == 0
  {
    FloorMultiple(at);
    LowBound(at, s);
    hide Floor, IsAligned;
  }

  lemma LowBound(at: nat, s: nat)
    requires TypeSize(s) && IsAligned(at, s)
    ensures at % 8 + s <= 8 + (if s == 16 then 8 else 0)
  {
    if s == 2 {
      Even(at);
    } else if s == 4 {
      Quads(at);
    }
  }

  lemma Even(x: nat)
    requires x % 2 == 0
    ensures x % 8 <= 6
  {
  }

  lemma Quads(x: nat)
    requires x % 4 == 0
    ensures x % 8 <= 4
  {
  }

  lemma FloorMultiple(x: nat)
    ensures Floor(x, 8) == x - x % 8 && (Floor(x, 8) + 8) % 8 == 0
  {
  }

  /** `r` continues the layout `l` by the declaration `d`. */
  ghost predicate Continues(decls: seq<Decl>, l: Layout, d: Decl, r: Layout) {
    && |l.offsets| == |decls| && |r.offsets| == |decls| + 1
    && (forall i :: 0 <= i < |decls| ==> r.offsets[i] == l.offsets[i])
    && r.SizeOf(!d.isStatic) == l.SizeOf(!d.isStatic)
    && (d.shape.Nothing? ==> r.SizeOf(d.isStatic) == l.SizeOf(d.isStatic))
    && (d.shape != Nothing ==> l.SizeOf(d.isStatic) <= r.SizeOf(d.isStatic))
    && (forall i :: 0 <= i < |decls| && SameRegion(decls[i], d) ==> l.offsets[i] + Extent(decls[i]) <= r.offsets[|decls|])
  }

  lemma DisjointKeeps(decls: seq<Decl>, l: Layout, d: Decl, r: Layout)
    requires Continues(decls, l, d, r) && Disjoint(decls, l)
    ensures Disjoint(decls + [d], r)
  {
    var all := decls + [d];
    forall i, j | 0 <= i < j < |all| && SameRegion(all[i], all[j]) ensures r.offsets[i] + Extent(all[i]) <= r.offsets[j] {
      if j < |decls| { assert SameRegion(decls[i], decls[j]); }
    }
  }

  lemma AlignedKeeps(decls: seq<Decl>, l: Layout, d: Decl, r: Layout)
    requires Continues(decls, l, d, r) && Aligned(decls, l) && Known(d)
    requires (d.shape.Typed? ==> IsAligned(r.offsets[|decls|], d.shape.size)) && (d.shape.Dynamic? ==> r.offsets[|decls|] % 8 == 0)
    ensures Aligned(decls + [d], r)
  {
    hide IsAligned;
  }

  lemma InsideKeeps(decls: seq<Decl>, l: Layout, d: Decl, r: Layout)
    requires Continues(decls, l, d, r)
    requires forall i :: 0 <= i < |decls| && decls[i].shape != Nothing ==>
      l.offsets[i] + Extent(decls[i]) <= l.SizeOf(decls[i].isStatic) + Slack(decls, i)
    requires decls != [] && IsTypedVar(decls[|decls| - 1]) ==> Follows(decls[|decls| - 1], d)
    requires d.shape != Nothing ==> r.offsets[|decls|] + Extent(d) <= r.SizeOf(d.isStatic) + (if IsTypedVar(d) then 8 else 0)
    ensures forall i :: 0 <= i < |decls| + 1 && (decls + [d])[i].shape != Nothing ==>
      r.offsets[i] + Extent((decls + [d])[i]) <= r.SizeOf((decls + [d])[i].isStatic) + Slack(decls + [d], i)
  {
    var all, n := decls + [d], |decls|;
    forall i | 0 <= i < n + 1 && all[i].shape != Nothing
      ensures r.offsets[i] + Extent(all[i]) <= r.SizeOf(all[i].isStatic) + Slack(all, i)
    {
      if i < n {
        assert all[i] == decls[i];
        if Slack(decls, i) != 0 {
          assert SameRegion(decls[i], d);
        }
      }
    }
  }

  lemma PlaceKeeps(decls: seq<Decl>, l: Layout, d: Decl)
    requires AllKnown(decls) && Known(d) && |l.offsets| == |decls| && SoFar(decls, l)
    requires decls != [] && IsTypedVar(decls[|decls| - 1]) ==> Follows(decls[|decls| - 1], d)
    ensures var r := Place(l, Last(decls), d);
      SoFar(decls + [d], r) && l.size <= r.size && l.staticSize <= r.staticSize
  {
    var r := Place(l, Last(decls), d);
    if d.shape != Nothing {
      OffsetFacts(decls, l, d);
    }
    PlaceUnfold(decls, l, d);
    hide Place, IsAligned, TypeSize, Floor, Disjoint, Aligned, Slack;
    DisjointKeeps(decls, l, d, r);
    AlignedKeeps(decls, l, d, r);
    InsideKeeps(decls, l, d, r);
  }

  lemma PlaceUnfold(decls: seq<Decl>, l: Layout, d: Decl)
    requires Known(d) && |l.offsets| == |decls|
    ensures var r := Place(l, Last(decls), d);
      && (forall i :: 0 <= i < |decls| ==> r.offsets[i] == l.offsets[i]) && r.SizeOf(!d.isStatic) == l.SizeOf(!d.isStatic)
      && (d.shape.Nothing? ==> r.SizeOf(d.isStatic) == l.SizeOf(d.isStatic))
  {
  }

  // ---------- main results ----------

  lemma Unfold(decls: seq<Decl>)
    requires AllKnown(decls) && decls != []
    ensures var n := |decls| - 1; LayOut(decls) == Place(LayOut(decls[..n]), Last(decls[..n]), decls[n])
  {
  }

  lemma {:induction false} LayOutSoFar(decls: seq<Decl>)
    requires AllKnown(decls) && FollowedSoFar(decls)
    ensures SoFar(decls, LayOut(decls))
    decreases |decls|
  {
    if decls != [] {
      var n := |decls| - 1;
      LayOutSoFar(decls[..n]);
      Unfold(decls);
      PlaceKeeps(decls[..n], LayOut(decls[..n]), decls[n]);
      assert decls[..n] + [decls[n]] == decls;
    }
  }

  lemma LayoutSound(decls: seq<Decl>)
    requires AllKnown(decls) && Followed(decls)
    ensures var l := LayOut(decls);
      Disjoint(decls, l) && Inside(decls, l) && Aligned(decls, l) && l.size % 8 == 0 && l.staticSize % 8 == 0
  {
    LayOutSoFar(decls);
  }

  /** The bytes of a member that starts at `at`: 16 of a `var`, the size of a scalar, and for each element of an array
      its own. */
  ghost predicate HasByte(d: Decl, at: nat, byte: nat) {
    match d.shape
    case Dynamic => at <= byte < at + 16
    case Typed(s) => at <= byte < at + s
    case Array(s, n) => exists k: nat :: k < n && ElementHas(at, s, k, byte)
    case Nothing => false
  }

  predicate ElementHas(at: nat, s: nat, k: nat, byte: nat) {
    at + k * s <= byte < at + k * s + s
  }

  lemma ByteInExtent(d: Decl, at: nat, byte: nat)
    requires HasByte(d, at, byte)
    ensures at <= byte < at + Extent(d) && d.shape != Nothing
  {
    if d.shape.Array? {
      var s, n := d.shape.size, d.shape.count;
      var k: nat :| k < n && ElementHas(at, s, k, byte);
      Numbers.Product(n - k - 1, s);
      assert (n - k - 1) * s + k * s + s == n * s;
    }
  }

  /** So no byte of a region belongs to two members or lies outside of it, and a scalar starts at a multiple of its
      size (of 8, if it is larger). */
  lemma BytesApart(decls: seq<Decl>, i: nat, j: nat, byte: nat)
    requires AllKnown(decls) && Followed(decls) && i < |decls| && j < |decls| && i != j
    ensures var l := LayOut(decls);
      && (HasByte(decls[i], l.offsets[i], byte) ==> byte < if decls[i].isStatic then l.staticSize else l.size)
      && (decls[i].isStatic == decls[j].isStatic ==>
          !(HasByte(decls[i], l.offsets[i], byte) && HasByte(decls[j], l.offsets[j], byte)))
      && (decls[i].shape.Typed? ==> l.offsets[i] % (if decls[i].shape.size > 8 then 8 else decls[i].shape.size) == 0)
  {
    hide LayOut, HasByte, Extent;
    LayoutSound(decls);
    var l := LayOut(decls);
    var same, back := SameRegion(decls[i], decls[j]), SameRegion(decls[j], decls[i]);
    assert same == back;
    if HasByte(decls[i], l.offsets[i], byte) {
      ByteInExtent(decls[i], l.offsets[i], byte);
      if HasByte(decls[j], l.offsets[j], byte) {
        ByteInExtent(decls[j], l.offsets[j], byte);
      }
    }
  }

  /** What holds after any declarations, also when a typed `var` sticks out of its region. */
  ghost predicate Steady(decls: seq<Decl>, l: Layout)
    requires |l.offsets| == |decls|
  {
    && l.size % 8 == 0 && l.staticSize % 8 == 0
    && (decls != [] ==>
        var d, at := decls[|decls| - 1], LastOffset(l);
        LastFits(d, at, l) && (d.shape.Typed? ==> TypeSize(d.shape.size) && IsAligned(at, d.shape.size)))
  }

  lemma SteadyKeeps(decls: seq<Decl>, l: Layout, d: Decl)
    requires AllKnown(decls) && Known(d) && |l.offsets| == |decls| && Steady(decls, l)
    ensures var r := Place(l, Last(decls), d);
      Steady(decls + [d], r) && l.size <= r.size && l.staticSize <= r.staticSize
  {
    hide Floor, Low, IsAligned, RoundedUp, Start;
    var size, r := l.SizeOf(d.isStatic), Place(l, Last(decls), d);
    var at := r.offsets[|decls|];
    if d.shape.Typed? || d.shape.Array? {
      StartFacts(Last(decls), LastOffset(l), d, size);
      if d.shape.Typed? {
        FloorMultiple(at);
      } else {
        RoundUpGrows(at, at + Extent(d));
        RoundUpFacts(at + Extent(d));
      }
    }
  }

  /** The running sizes never shrink. */
  lemma NeverShrinks(decls: seq<Decl>, m: nat, n: nat)
    requires AllKnown(decls) && m <= n <= |decls|
    ensures LayOut(decls[..m]).size <= LayOut(decls[..n]).size && LayOut(decls[..m]).staticSize <= LayOut(decls[..n]).staticSize
    decreases n - m
  {
    if m < n {
      NeverShrinks(decls, m, n - 1);
      var before := decls[..n - 1];
      assert decls[..n][..n - 1] == before;
      Unfold(decls[..n]);
      LayOutSteady(before);
      SteadyKeeps(before, LayOut(before), decls[n - 1]);
    }
  }

  lemma {:induction false} LayOutSteady(decls: seq<Decl>)
    requires AllKnown(decls)
    ensures Steady(decls, LayOut(decls))
    decreases |decls|
  {
    if decls != [] {
      var n := |decls| - 1;
      LayOutSteady(decls[..n]);
      Unfold(decls);
      SteadyKeeps(decls[..n], LayOut(decls[..n]), decls[n]);
      assert decls[..n] + [decls[n]] == decls;
    }
  }

  lemma {:induction false} PrefixOffsets(decls: seq<Decl>, k: nat, i: nat)
    requires AllKnown(decls) && i < k <= |decls|
    ensures LayOut(decls[..k]).offsets[i] == LayOut(decls).offsets[i]
    decreases |decls| - k
  {
    if k < |decls| {
      PrefixOffsets(decls, k + 1, i);
      assert decls[..k + 1][..k] == decls[..k];
      Unfold(decls[..k + 1]);
    } else {
      assert decls[..k] == decls;
    }
  }

  /** Member `i` is a typed `var` that nothing extends: the region has ended 8 bytes behind its start, or
      another member was put there. */
  ghost predicate Overrun(decls: seq<Decl>, i: nat, m: nat, l: Layout)
    requires i < m <= |decls| && |l.offsets| == m
  {
    || ((forall k :: i < k < m ==> !SameRegion(decls[i], decls[k])) && l.SizeOf(decls[i].isStatic) <= l.offsets[i] + 8)
    || (exists k :: i < k < m && SameRegion(decls[i], decls[k]) && l.offsets[k] <= l.offsets[i] + 8)
  }

  lemma {:induction false} StaysOverrun(decls: seq<Decl>, i: nat, m: nat)
    requires AllKnown(decls) && i < m <= |decls| && FollowedSoFar(decls[..i + 1])
    requires IsTypedVar(decls[i]) && (i + 1 < |decls| ==> !Follows(decls[i], decls[i + 1]))
    ensures Overrun(decls, i, m, LayOut(decls[..m]))
    decreases m
  {
    if m == i + 1 {
      LayOutSoFar(decls[..m]);
      AtItsEnd(decls[..m], LayOut(decls[..m]));
    } else {
      StaysOverrun(decls, i, m - 1);
      assert decls[..m][..m - 1] == decls[..m - 1];
      Unfold(decls[..m]);
      hide LayOut, Overrun;
      OverrunStep(decls, i, m, LayOut(decls[..m - 1]));
    }
  }

  lemma OverrunStep(decls: seq<Decl>, i: nat, m: nat, before: Layout)
    requires AllKnown(decls) && i < m - 1 && m <= |decls| && |before.offsets| == m - 1
    requires IsTypedVar(decls[i]) && !Follows(decls[i], decls[i + 1]) && Overrun(decls, i, m - 1, before)
    ensures Overrun(decls, i, m, Place(before, Last(decls[..m - 1]), decls[m - 1]))
  {
    hide Place, Follows;
    if forall k :: i < k < m - 1 ==> !SameRegion(decls[i], decls[k]) {
      if SameRegion(decls[i], decls[m - 1]) {
        PutAtEnd(decls, i, m - 1, before);
      } else {
        OtherRegion(decls[..m - 1], before, decls[i], decls[m - 1]);
      }
    } else {
      OtherOffsets(decls[..m - 1], before, decls[m - 1]);
    }
  }

  lemma AtItsEnd(decls: seq<Decl>, l: Layout)
    requires |l.offsets| == |decls| && decls != [] && SoFar(decls, l) && IsTypedVar(decls[|decls| - 1])
    ensures l.SizeOf(decls[|decls| - 1].isStatic) <= l.offsets[|decls| - 1] + 8
  {
  }

  lemma OtherRegion(decls: seq<Decl>, l: Layout, e: Decl, d: Decl)
    requires Known(d) && |l.offsets| == |decls| && e.shape != Nothing && !SameRegion(e, d)
    ensures var r := Place(l, Last(decls), d);
      r.SizeOf(e.isStatic) == l.SizeOf(e.isStatic) && forall k :: 0 <= k < |decls| ==> r.offsets[k] == l.offsets[k]
  {
    PlaceUnfold(decls, l, d);
  }

  lemma OtherOffsets(decls: seq<Decl>, l: Layout, d: Decl)
    requires Known(d) && |l.offsets| == |decls|
    ensures forall k :: 0 <= k < |decls| ==> Place(l, Last(decls), d).offsets[k] == l.offsets[k]
  {
    PlaceUnfold(decls, l, d);
  }

  /** A member that extends nothing is put at the end of its region. */
  lemma PutAtEnd(decls: seq<Decl>, i: nat, m: nat, l: Layout)
    requires AllKnown(decls) && i < m < |decls| && |l.offsets| == m && SameRegion(decls[i], decls[m])
    requires (forall k :: i < k < m ==> !SameRegion(decls[i], decls[k])) && !Follows(decls[i], decls[i + 1])
    ensures var r := Place(l, Last(decls[..m]), decls[m]);
      r.offsets[m] == l.SizeOf(decls[m].isStatic) && forall k :: 0 <= k < m ==> r.offsets[k] == l.offsets[k]
  {
    if m - 1 > i { assert !SameRegion(decls[i], decls[m - 1]); }
  }

  /** The layout of a declaration list is sound exactly when every typed `var` in it is directly followed by
      a scalar or an array of its region. */
  lemma LayoutExact(decls: seq<Decl>)
    requires AllKnown(decls)
    ensures Disjoint(decls, LayOut(decls)) && Inside(decls, LayOut(decls)) <==> Followed(decls)
  {
    if Followed(decls) {
      LayoutSound(decls);
    } else {
      var i := FirstLoose(decls);
      assert Loose(decls, i);
      StaysOverrun(decls, i, |decls|);
      assert decls[..|decls|] == decls;
      var l := LayOut(decls);
      if exists k :: i < k < |decls| && SameRegion(decls[i], decls[k]) && l.offsets[k] <= l.offsets[i] + 8 {
        var k :| i < k < |decls| && SameRegion(decls[i], decls[k]) && l.offsets[k] <= l.offsets[i] + 8;
        assert l.offsets[i] + Extent(decls[i]) > l.offsets[k];
      } else {
        assert l.offsets[i] + Extent(decls[i]) > l.SizeOf(decls[i].isStatic);
      }
    }
  }

  ghost predicate Loose(decls: seq<Decl>, i: nat) {
    i < |decls| && IsTypedVar(decls[i]) && (i + 1 < |decls| ==> !Follows(decls[i], decls[i + 1]))
  }

  lemma FirstLoose(decls: seq<Decl>) returns (i: nat)
    requires !Followed(decls)
    ensures Loose(decls, i) && FollowedSoFar(decls[..i + 1])
  {
    var j :| 0 <= j < |decls| && IsTypedVar(decls[j]) && !(j + 1 < |decls| && Follows(decls[j], decls[j + 1]));
    assert Loose(decls, j);
    i := LeastLoose(decls, j);
    forall k | 0 <= k < i && IsTypedVar(decls[k]) ensures Follows(decls[k], decls[k + 1]) {
      assert !Loose(decls, k);
    }
  }

  lemma LeastLoose(decls: seq<Decl>, j: nat) returns (i: nat)
    requires Loose(decls, j)
    ensures Loose(decls, i) && forall k :: 0 <= k < i ==> !Loose(decls, k)
    decreases j
  {
    i := j;
    if k: nat :| k < j && Loose(decls, k) {
      i := LeastLoose(decls, k);
    }
  }

  // ---------- the parser's loop ----------

  lemma EmptyLayout()
    ensures LayOut([]) == Layout(0, 0, [])
  {
  }

  method FindStart(prev: Option<Decl>, at: nat, curr: Decl, size: nat) returns (offset: nat)
    requires (curr.shape.Typed? || curr.shape.Array?) && Known(curr)
    ensures offset == Start(prev, at, curr.isStatic, curr.shape.size, size)
  {
    var s := curr.shape.size;
    offset := size;
    if prev.Some? && prev.value.isStatic == curr.isStatic && prev.value.shape.Typed? {
      if prev.value.shape.size < s {
        offset := Floor(at, s) + s;
      } else {
        offset := at + prev.value.shape.size;
      }
    } else if prev.Some? && prev.value.isStatic == curr.isStatic && prev.value.shape.Array? {
      var prevByteSize := prev.value.shape.size * prev.value.shape.count;
      offset := Floor(at + prevByteSize, s) + s;
    }
  }

  method FindEnd(curr: Decl, offset: nat) returns (size: nat)
    ensures size == Grow(curr, offset)
  {
    size := offset;
    match curr.shape {
      case Dynamic => size := offset + VAR_SIZE;
      case Typed(_) => size := Floor(offset, 8) + 8;
      case Array(s, n) =>
        size := offset + s * n;
        if size % 8 != 0 {
          size := Floor(size, 8) + 8;
        }
      case Nothing =>
    }
  }

  /** The loop of parseStruct over the declarations, with its running sizes. */
  method ParseMembers(decls: seq<Decl>) returns (l: Layout)
    requires AllKnown(decls)
    ensures l == LayOut(decls)
    ensures Disjoint(decls, l) && Inside(decls, l) <==> Followed(decls)
  {
    hide LayOut, Start, Grow, Disjoint, Inside, Followed, TypeSize;
    var size: nat := 0;
    var staticMemSize: nat := 0;
    var offsets: seq<nat> := [];
    assert LayOut([]) == Layout(0, 0, []) by { EmptyLayout(); }
    var prev: Option<Decl> := None;
    var k := 0;
    assert decls[..0] == [];
    while k < |decls|
      invariant 0 <= k <= |decls| && |offsets| == k && prev == Last(decls[..k])
      invariant Layout(size, staticMemSize, offsets) == LayOut(decls[..k])
    {
      var curr := decls[k];
      var currSize: nat := if curr.isStatic then staticMemSize else size;
      var offset: nat := currSize;
      ghost var before := Layout(size, staticMemSize, offsets);
      if curr.shape.Typed? || curr.shape.Array? {
        offset := FindStart(prev, if k > 0 then offsets[k - 1] else 0, curr, currSize);
      }
      currSize := FindEnd(curr, offset);
      if curr.isStatic {
        staticMemSize := currSize;
      } else {
        size := currSize;
      }
      offsets := offsets + [offset];
      assert Layout(size, staticMemSize, offsets) == Place(before, prev, curr);
      assert decls[..k + 1][..k] == decls[..k];
      Unfold(decls[..k + 1]);
      prev := Some(curr);
      k := k + 1;
    }
    assert decls[..k] == decls;
    LayoutExact(decls);
    l := Layout(size, staticMemSize, offsets);
  }
}
