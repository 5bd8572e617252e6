/** Slices and addresses of elements: pointers that are made from an array by checked steps
    (jit/specialexpr.c, ptrs_handle_slice and ptrs_addressof_index; parser/common.h, the meta words). */
module Slices {
  import opened Basics

  // ---------- meta words of pointers ----------

  type Word = w: int | 0 <= w < 0x1_0000_0000_0000_0000

  const PTR := 3

  function TypeOf(meta: Word): int {
    meta % 0x100
  }

  function TypeIndex(meta: Word): int {
    (meta / 0x100) % 0x100
  }

  function ArraySize(meta: Word): nat {
    meta / 0x1_0000_0000
  }

  /** A shift to the left by 32 bits. */
  function High(size: int): Word {
    (size % 0x1_0000_0000) * 0x1_0000_0000
  }

  /** ptrs_jit_setArraySize: the lower half is kept. */
  function SetArraySize(meta: Word, size: int): Word {
    meta % 0x1_0000_0000 + High(size)
  }

  /** ptrs_jit_arrayMeta. */
  function ArrayMeta(size: int, typeIndex: int): Word
    requires 0 <= typeIndex < 0x100
  {
    PTR + typeIndex * 0x100 + High(size)
  }

  /** An update of the packed size leaves type and type index alone. */
  lemma SetArraySizeFields(meta: Word, size: int)
    requires 0 <= size < 0x1_0000_0000
    ensures var m := SetArraySize(meta, size);
      TypeOf(m) == TypeOf(meta) && TypeIndex(m) == TypeIndex(meta) && ArraySize(m) == size
  {
    var low := meta % 0x1_0000_0000;
    TypeOfSum(low, size);
    IndexOfSum(low, size);
    LowFields(meta);
  }

  lemma TypeOfSum(low: nat, size: nat)
    requires low < 0x1_0000_0000 && size < 0x1_0000_0000
    ensures var m := low + size * 0x1_0000_0000; m % 0x100 == low % 0x100 && m / 0x1_0000_0000 == size
  {
    var t, u := low % 0x100, low / 0x100;
    assert low + size * 0x1_0000_0000 == (u + size * 0x100_0000) * 0x100 + t;
  }

  lemma IndexOfSum(low: nat, size: nat)
    requires low < 0x1_0000_0000 && size < 0x1_0000_0000
    ensures ((low + size * 0x1_0000_0000) / 0x100) % 0x100 == (low / 0x100) % 0x100
  {
    var t, u := low % 0x100, low / 0x100;
    assert low + size * 0x1_0000_0000 == (u + size * 0x100_0000) * 0x100 + t;
    assert (low + size * 0x1_0000_0000) / 0x100 == u + size * 0x100_0000;
    var v, w := u % 0x100, u / 0x100;
    assert u + size * 0x100_0000 == (w + size * 0x1_0000) * 0x100 + v;
  }

  lemma LowFields(meta: Word)
    ensures var low := meta % 0x1_0000_0000; low % 0x100 == meta % 0x100 && (low / 0x100) % 0x100 == (meta / 0x100) % 0x100
  {
    var low, h := meta % 0x1_0000_0000, meta / 0x1_0000_0000;
    TypeOfSum(low, h);
    IndexOfSum(low, h);
    assert meta == low + h * 0x1_0000_0000;
  }

  lemma ArrayMetaFields(size: int, typeIndex: int)
    requires 0 <= size < 0x1_0000_0000 && 0 <= typeIndex < 0x100
    ensures var m := ArrayMeta(size, typeIndex);
      TypeOf(m) == PTR && TypeIndex(m) == typeIndex && ArraySize(m) == size
  {
    var low := PTR + 0x100 * typeIndex;
    assert low % 0x100 == PTR && low / 0x100 == typeIndex;
    TypeOfSum(low, size);
    IndexOfSum(low, size);
    assert ArrayMeta(size, typeIndex) == low + size * 0x1_0000_0000;
  }

  // ---------- pointers and the expressions that make them ----------

  datatype Pointer = Pointer(addr: int, meta: Word)

  /** Pointers made from one array.  Inside the brackets `Length` is the size of what they index. */
  datatype PtrExpr =
    | Whole
    | Slice(base: PtrExpr, start: IndexExpr, end: IndexExpr)
    | AddressOf(base: PtrExpr, index: IndexExpr)

  datatype IndexExpr = Num(n: int) | Length | SizeOf(p: PtrExpr) | Plus(a: IndexExpr, b: IndexExpr)

  /** A step on a pointer: a slice ends inside the array and does not end before it starts ... */
  function SliceOf(p: Pointer, start: int, end: int, elem: nat): Option<Pointer> {
    if TypeOf(p.meta) == PTR && end <= ArraySize(p.meta) && start >= 0 && start <= end then
      Some(Pointer(p.addr + start * elem, SetArraySize(p.meta, end - start)))
    else None
  }

  /** ... and the address of an element is that of an element that exists. */
  function ElementOf(p: Pointer, index: int, elem: nat): Option<Pointer> {
    if TypeOf(p.meta) == PTR && 0 <= index < ArraySize(p.meta) then
      Some(Pointer(p.addr + index * elem, ArrayMeta(ArraySize(p.meta) - index, TypeIndex(p.meta))))
    else None
  }

  /** The array, and the size of its elements. */
  datatype Arr = Arr(whole: Pointer, elem: nat)

  function EvalPtr(e: PtrExpr, size: Option<nat>, a: Arr): Option<Pointer> {
    match e
    case Whole => Some(a.whole)
    case Slice(base, start, end) =>
      var p := EvalPtr(base, size, a);
      if p.None? then None else
      var inner := Some(ArraySize(p.value.meta));
      var s, t := EvalIndex(start, inner, a), EvalIndex(end, inner, a);
      if s.None? || t.None? then None else SliceOf(p.value, s.value, t.value, a.elem)
    case AddressOf(base, index) =>
      var p := EvalPtr(base, size, a);
      if p.None? then None else
      var i := EvalIndex(index, Some(ArraySize(p.value.meta)), a);
      if i.None? then None else ElementOf(p.value, i.value, a.elem)
  }

  /** `size` is the size of the innermost array that is being indexed, if any. */
  function EvalIndex(e: IndexExpr, size: Option<nat>, a: Arr): Option<int> {
    match e
    case Num(n) => Some(n)
    case Length => if size.Some? then Some(size.value) else None
    case SizeOf(p) =>
      var q := EvalPtr(p, size, a);
      if q.None? then None else Some(ArraySize(q.value.meta))
    case Plus(x, y) =>
      var m, n := EvalIndex(x, size, a), EvalIndex(y, size, a);
      if m.None? || n.None? then None else Some(m.value + n.value)
  }

  // ---------- they stay inside ----------

  /** `p` covers the elements of the array from number `first` on. */
  predicate Covers(a: Arr, p: Pointer, first: nat) {
    && p.addr == a.whole.addr + first * a.elem
    && first + ArraySize(p.meta) <= ArraySize(a.whole.meta)
    && TypeOf(p.meta) == PTR && TypeIndex(p.meta) == TypeIndex(a.whole.meta)
  }

  /** The first element of a slice is the sum of the starts of its steps. */
  function First(e: PtrExpr, size: Option<nat>, a: Arr): int
    requires EvalPtr(e, size, a).Some?
  {
    match e
    case Whole => 0
    case Slice(base, start, _) =>
      First(base, size, a) + EvalIndex(start, Some(ArraySize(EvalPtr(base, size, a).value.meta)), a).value
    case AddressOf(base, index) =>
      First(base, size, a) + EvalIndex(index, Some(ArraySize(EvalPtr(base, size, a).value.meta)), a).value
  }

  lemma SliceCovers(a: Arr, p: Pointer, first: nat, start: int, end: int)
    requires Covers(a, p, first)
    ensures SliceOf(p, start, end, a.elem).Some? <==> 0 <= start <= end <= ArraySize(p.meta)
    ensures SliceOf(p, start, end, a.elem).Some? ==>
      var q := SliceOf(p, start, end, a.elem).value; Covers(a, q, first + start) && ArraySize(q.meta) == end - start
  {
    if 0 <= start <= end <= ArraySize(p.meta) {
      SetArraySizeFields(p.meta, end - start);
      assert (first + start) * a.elem == first * a.elem + start * a.elem;
    }
  }

  lemma ElementCovers(a: Arr, p: Pointer, first: nat, index: int)
    requires Covers(a, p, first)
    ensures ElementOf(p, index, a.elem).Some? <==> 0 <= index < ArraySize(p.meta)
    ensures ElementOf(p, index, a.elem).Some? ==>
      var q := ElementOf(p, index, a.elem).value; Covers(a, q, first + index) && ArraySize(q.meta) == ArraySize(p.meta) - index
  {
    if 0 <= index < ArraySize(p.meta) {
      ArrayMetaFields(ArraySize(p.meta) - index, TypeIndex(p.meta));
      assert (first + index) * a.elem == first * a.elem + index * a.elem;
    }
  }

  /** Every pointer that a chain of checked steps yields covers a sub-range of the array; its size, type and
      type index survive in the packed word. */
  lemma {:induction false} StaysInside(e: PtrExpr, size: Option<nat>, a: Arr)
    requires TypeOf(a.whole.meta) == PTR && EvalPtr(e, size, a).Some?
    ensures First(e, size, a) >= 0 && Covers(a, EvalPtr(e, size, a).value, First(e, size, a))
  {
    match e
    case Whole =>
    case Slice(base, start, end) =>
      StaysInside(base, size, a);
      var p := EvalPtr(base, size, a).value;
      var inner := Some(ArraySize(p.meta));
      SliceCovers(a, p, First(base, size, a), EvalIndex(start, inner, a).value, EvalIndex(end, inner, a).value);
    case AddressOf(base, index) =>
      StaysInside(base, size, a);
      var p := EvalPtr(base, size, a).value;
      ElementCovers(a, p, First(base, size, a), EvalIndex(index, Some(ArraySize(p.meta)), a).value);
  }

  /** So all the bytes behind it belong to the array. */
  lemma BytesInside(e: PtrExpr, size: Option<nat>, a: Arr)
    requires TypeOf(a.whole.meta) == PTR && EvalPtr(e, size, a).Some?
    ensures var p := EvalPtr(e, size, a).value;
      && a.whole.addr <= p.addr
      && p.addr + ArraySize(p.meta) * a.elem <= a.whole.addr + ArraySize(a.whole.meta) * a.elem
  {
    StaysInside(e, size, a);
    hide EvalPtr, First;
    RangeInside(First(e, size, a), ArraySize(EvalPtr(e, size, a).value.meta), ArraySize(a.whole.meta), a.elem);
  }

  lemma RangeInside(first: nat, n: nat, m: nat, elem: nat)
    requires first + n <= m
    ensures 0 <= first * elem && first * elem + n * elem <= m * elem
  {
    MonotoneProduct(first + n, m, elem);
    assert (first + n) * elem == first * elem + n * elem;
  }

  lemma MonotoneProduct(x: nat, y: nat, k: nat)
    requires x <= y
    ensures 0 <= x * k <= y * k
  {
    assert y * k == x * k + (y - x) * k;
  }

  // ---------- the handlers ----------

  /** The scope's indexSize: what `Length` stands for. */
  class Scope {
    var indexSize: Option<nat>

    constructor ()
      ensures indexSize == None
    {
      indexSize := None;
    }

    method HandlePtr(e: PtrExpr, a: Arr) returns (r: Option<Pointer>)
      modifies this
      ensures r == EvalPtr(e, old(indexSize), a)
      ensures r.Some? ==> indexSize == old(indexSize)
      decreases e
    {
      match e
      case Whole => r := Some(a.whole);
      case Slice(base, start, end) =>
        r := HandlePtr(base, a);
        if r.None? {
          return;
        }
        var p, oldSize := r.value, indexSize;
        indexSize := Some(ArraySize(p.meta));
        var s := HandleIndex(start, a);
        if s.None? {
          return None;
        }
        var t := HandleIndex(end, a);
        if t.None? {
          return None;
        }
        if TypeOf(p.meta) != PTR || t.value > indexSize.value || s.value < 0 || s.value > t.value {
          return None;
        }
        indexSize := oldSize;
        var newPtr := p.addr + s.value * a.elem;
        var newSize := t.value - s.value;
        r := Some(Pointer(newPtr, SetArraySize(p.meta, newSize)));
      case AddressOf(base, index) =>
        r := HandlePtr(base, a);
        if r.None? {
          return;
        }
        var p, oldArraySize := r.value, indexSize;
        var baseArraySize := ArraySize(p.meta);
        indexSize := Some(baseArraySize);
        var i := HandleIndex(index, a);
        if i.None? {
          return None;
        }
        indexSize := oldArraySize;
        if TypeOf(p.meta) != PTR || i.value >= baseArraySize || i.value < 0 {
          return None;
        }
        var newLen := baseArraySize - i.value;
        r := Some(Pointer(p.addr + i.value * a.elem, ArrayMeta(newLen, TypeIndex(p.meta))));
    }

    method HandleIndex(e: IndexExpr, a: Arr) returns (r: Option<int>)
      modifies this
      ensures r == EvalIndex(e, old(indexSize), a)
      ensures r.Some? ==> indexSize == old(indexSize)
      decreases e
    {
      match e
      case Num(n) => r := Some(n);
      case Length => r := if indexSize.Some? then Some(indexSize.value) else None;
      case SizeOf(p) =>
        var q := HandlePtr(p, a);
        r := if q.None? then None else Some(ArraySize(q.value.meta));
      case Plus(x, y) =>
        r := HandleIndex(x, a);
        if r.None? {
          return;
        }
        var n := HandleIndex(y, a);
        r := if n.None? then None else Some(r.value + n.value);
    }
  }
}
