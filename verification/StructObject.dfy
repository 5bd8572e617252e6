/** Instances of structs: members are bytes in an instance's memory or in the memory of the static members
    (jit/lib/struct.c, ptrs_struct_getMember and ptrs_struct_setMember; jit/lib/nativetypes.c).  Covers
    `var` members and integer members. */
module StructObject {
  import opened Basics
  import opened Numbers
  import opened StructLayout

  type Byte = b: int | 0 <= b < 256

  // ---------- byte codecs ----------

  /** The low `k` bytes of a number, the lowest first, in two's complement. */
  function Bytes(n: int, k: nat): (r: seq<Byte>)
    ensures |r| == k
    decreases k
  {
    if k == 0 then [] else [n % 256] + Bytes(n / 256, k - 1)
  }

  function Unsigned(s: seq<Byte>): (r: nat)
    ensures r < Power(|s|)
    decreases |s|
  {
    if s == [] then 0 else s[0] + 256 * Unsigned(s[1..])
  }

  /** 256 to the power of `k`. */
  function Power(k: nat): (r: nat)
    ensures r >= 1
  {
    if k == 0 then 1 else 256 * Power(k - 1)
  }

  function Signed(s: seq<Byte>): int {
    var u := Unsigned(s);
    if u >= Power(|s|) / 2 then u - Power(|s|) else u
  }

  lemma {:induction false} UnsignedBytes(n: int, k: nat)
    ensures Unsigned(Bytes(n, k)) == n % Power(k)
    decreases k
  {
    if k > 0 {
      var p, low, rest := Power(k - 1), n % 256, n / 256;
      UnsignedBytes(rest, k - 1);
      assert Bytes(n, k)[1..] == Bytes(rest, k - 1);
      assert Unsigned(Bytes(n, k)) == low + 256 * (rest % p);
      ModSplit(n, p);
    }
  }

  lemma ModSplit(n: int, p: nat)
    requires p > 0
    ensures n % (256 * p) == n % 256 + 256 * ((n / 256) % p)
  {
    var q := n / 256;
    var r, t := q % p, q / p;
    Quotient(q, p);
    Quotient(n, 256);
    assert n == t * (256 * p) + (256 * r + n % 256);
    ModUnique(n, 256 * r + n % 256, t, 256 * p);
  }

  lemma PowerValues()
    ensures Power(1) == 0x100 && Power(2) == 0x1_0000 && Power(4) == 0x1_0000_0000 && Power(8) == 0x1_0000_0000_0000_0000
  {
    assert Power(0) == 1;
    assert Power(3) == 256 * Power(2);
    assert Power(5) == 256 * Power(4);
    assert Power(6) == 256 * Power(5);
    assert Power(7) == 256 * Power(6);
  }

  lemma SignedBytes(n: int, k: nat)
    ensures Signed(Bytes(n, k)) == SignExtended(n, k)
  {
    UnsignedBytes(n, k);
  }

  /** A number that fits its bytes is recovered from them. */
  lemma SignedFits(n: int, k: nat)
    requires k == 1 || k == 2 || k == 4 || k == 8
    requires -Half(k) <= n < Half(k)
    ensures SignExtended(n, k) == n
  {
    PowerValues();
    if n >= 0 {
      ModUnique(n, n, 0, Power(k));
    } else {
      ModUnique(n, n + Power(k), -1, Power(k));
    }
  }

  function Half(k: nat): int {
    Power(k) / 2
  }

  /** Truncation to `k` bytes, and extension to 64 bits by the sign. */
  function SignExtended(n: int, k: nat): int {
    var u := n % Power(k);
    if u >= Power(k) / 2 then u - Power(k) else u
  }

  // ---------- members ----------

  /** A value: its payload, a signed 64-bit number, and its meta word. */
  datatype Val = Val(n: int, meta: int)

  predicate ValidVal(v: Val) {
    -0x8000_0000_0000_0000 <= v.n < 0x8000_0000_0000_0000 && 0 <= v.meta < 0x1_0000_0000_0000_0000
  }

  const UNDEFINED := 0
  const INT := 1
  const FLOAT := 2

  /** The kinds of member that have storage here. */
  datatype Kind = Variable | Int(size: nat) | UInt(size: nat)

  predicate ValidKind(k: Kind) {
    match k
    case Variable => true
    case Int(s) => s == 1 || s == 2 || s == 4 || s == 8
    case UInt(s) => s == 1 || s == 2 || s == 4 || s == 8
  }

  datatype Member = Member(kind: Kind, isStatic: bool)

  function DeclOf(m: Member): Decl {
    Decl(if m.kind.Variable? then Dynamic else Typed(m.kind.size), m.isStatic)
  }

  /** ptrs_vartoi; `truncate` is the conversion of the bits of a float. */
  function ToInt(v: Val, truncate: int -> int): int {
    if v.meta % 256 == UNDEFINED then 0 else if v.meta % 256 == FLOAT then truncate(v.n) else v.n
  }

  /** What a member holds after a write: a `var` the value itself, an integer member the low bytes of the
      value as an integer. */
  function Stored(k: Kind, v: Val, truncate: int -> int): Val {
    match k
    case Variable => v
    case Int(s) => Val(SignExtended(ToInt(v, truncate), s), INT)
    case UInt(s) => Val(Wrapped(ToInt(v, truncate) % Power(s)), INT)
  }

  /** An unsigned 64-bit number as the payload of a value. */
  function Wrapped(u: nat): int {
    if u >= 0x8000_0000_0000_0000 then u - 0x1_0000_0000_0000_0000 else u
  }

  /** The bytes that a write puts into memory. */
  function Encode(k: Kind, v: Val, truncate: int -> int): (r: seq<Byte>)
    ensures |r| == Extent(DeclOf(Member(k, false)))
  {
    match k
    case Variable => Bytes(v.n, 8) + Bytes(v.meta, 8)
    case Int(s) => Bytes(ToInt(v, truncate), s)
    case UInt(s) => Bytes(ToInt(v, truncate), s)
  }

  /** What a read makes of them. */
  function Decode(k: Kind, b: seq<Byte>): Val
    requires |b| == Extent(DeclOf(Member(k, false)))
  {
    match k
    case Variable => Val(Signed(b[..8]), Unsigned(b[8..]))
    case Int(_) => Val(Signed(b), INT)
    case UInt(_) => Val(Wrapped(Unsigned(b)), INT)
  }

  lemma DecodeEncode(k: Kind, v: Val, truncate: int -> int)
    requires ValidKind(k) && ValidVal(v)
    ensures Decode(k, Encode(k, v, truncate)) == Stored(k, v, truncate)
  {
    PowerValues();
    match k
    case Variable =>
      var a, b := Bytes(v.n, 8), Bytes(v.meta, 8);
      assert (a + b)[..8] == a && (a + b)[8..] == b;
      SignedBytes(v.n, 8);
      SignedFits(v.n, 8);
      ModUnique(v.meta, v.meta, 0, Power(8));
      UnsignedBytes(v.meta, 8);
    case Int(s) => SignedBytes(ToInt(v, truncate), s);
    case UInt(s) => UnsignedBytes(ToInt(v, truncate), s);
  }

  // ---------- what is read back ----------

  /** The numbers that an integer member can give back, as signed 64-bit payloads: `Count` many from `Lowest` on. */
  function Count(k: Kind): int
    requires ValidKind(k) && !k.Variable?
  {
    match k.size
    case 1 => 0x100
    case 2 => 0x1_0000
    case 4 => 0x1_0000_0000
    case _ => 0x1_0000_0000_0000_0000
  }

  function Lowest(k: Kind): int
    requires ValidKind(k) && !k.Variable?
  {
    if k.UInt? && k.size < 8 then 0 else -(Count(k) / 2)
  }

  predicate FitsMember(k: Kind, n: int)
    requires ValidKind(k) && !k.Variable?
  {
    Lowest(k) <= n < Lowest(k) + Count(k)
  }

  /** `n` is the integer that a value stands for: 0 for undefined, the truncated float, or the payload. */
  predicate IsInteger(v: Val, truncate: int -> int, n: int) {
    && (v.meta % 256 == UNDEFINED ==> n == 0)
    && (v.meta % 256 == FLOAT ==> n == truncate(v.n))
    && (v.meta % 256 != UNDEFINED && v.meta % 256 != FLOAT ==> n == v.n)
  }

  /** What a read gives after `v` was written: a `var` the value itself, an integer member an int that fits it and
      differs from the written integer by a multiple of its range. */
  ghost predicate ReadsBack(k: Kind, v: Val, truncate: int -> int, r: Val)
    requires ValidKind(k)
  {
    if k.Variable? then r == v
    else r.meta == INT && FitsMember(k, r.n) && exists n :: IsInteger(v, truncate, n) && (r.n - n) % Count(k) == 0
  }

  lemma StoredReadsBack(k: Kind, v: Val, truncate: int -> int)
    requires ValidKind(k) && ValidVal(v)
    ensures ReadsBack(k, v, truncate, Stored(k, v, truncate))
    ensures ReadsBack(k, v, truncate, Decode(k, Encode(k, v, truncate)))
  {
    DecodeEncode(k, v, truncate);
    if !k.Variable? {
      StoredInteger(k, v, truncate);
    }
  }

  lemma CountIsPower(k: Kind)
    requires ValidKind(k) && !k.Variable?
    ensures Count(k) == Power(k.size) == 2 * Half(k.size) && Count(k) > 0
  {
    PowerValues();
  }

  lemma StoredInteger(k: Kind, v: Val, truncate: int -> int)
    requires ValidKind(k) && !k.Variable?
    ensures ReadsBack(k, v, truncate, Stored(k, v, truncate))
  {
    hide Power;
    var n, c := ToInt(v, truncate), Count(k);
    CountIsPower(k);
    Reduced(n, c);
    assert IsInteger(v, truncate, n);
    var u := n % c;
    assert 0 <= u < c;
    assert Stored(k, v, truncate).n == u || Stored(k, v, truncate).n == u - c;
  }

  /** A remainder, and the one below it, differ from the number by a multiple. */
  lemma Reduced(n: int, c: nat)
    requires c > 0
    ensures (n % c - n) % c == 0 && (n % c - c - n) % c == 0
  {
    var q := n / c;
    Quotient(n, c);
    ModUnique(n % c - n, 0, -q, c);
    assert (-q - 1) * c == -q * c - c;
    ModUnique(n % c - c - n, 0, -q - 1, c);
  }

  lemma Nearest(r: int, n: int, lo: int, c: nat)
    requires c > 0 && lo <= r < lo + c && lo <= n < lo + c && (r - n) % c == 0
    ensures r == n
  {
    Quotient(r - n, c);
    if (r - n) / c != 0 {
      Apart((r - n) / c, 0, c);
    }
  }

  /** An integer is read back unchanged if and only if it fits the member. */
  lemma FittingExact(k: Kind, v: Val, truncate: int -> int, n: int)
    requires ValidKind(k) && !k.Variable? && ValidVal(v) && IsInteger(v, truncate, n)
    ensures Decode(k, Encode(k, v, truncate)) == Val(n, INT) <==> FitsMember(k, n)
  {
    hide Decode, Encode, Count, Lowest;
    var r := Decode(k, Encode(k, v, truncate));
    StoredReadsBack(k, v, truncate);
    CountIsPower(k);
    if FitsMember(k, n) {
      Nearest(r.n, n, Lowest(k), Count(k));
    }
  }

  // ---------- objects ----------

  function Decls(members: seq<Member>): (r: seq<Decl>)
    ensures |r| == |members| && forall i :: 0 <= i < |members| ==> r[i] == DeclOf(members[i])
  {
    seq(|members|, i requires 0 <= i < |members| => DeclOf(members[i]))
  }

  ghost predicate ValidMembers(members: seq<Member>) {
    forall i :: 0 <= i < |members| ==> ValidKind(members[i].kind)
  }

  /** ptrs_struct_t: the members, where they lie, and the memory of the static ones. */
  class Struct {
    const members: seq<Member>
    const layout: Layout
    const staticData: array<Byte>
    const truncate: int -> int

    ghost predicate Valid() {
      && ValidMembers(members) && |layout.offsets| == |members|
      && Disjoint(Decls(members), layout) && Inside(Decls(members), layout)
      && staticData.Length == layout.staticSize
    }

    constructor (members: seq<Member>, truncate: int -> int)
      requires ValidMembers(members)
      ensures Valid() && this.members == members && this.truncate == truncate && fresh(staticData)
    {
      var decls := Decls(members);
      var l := ParseMembers(decls);
      this.members, layout, this.truncate := members, l, truncate;
      staticData := new Byte[l.staticSize];
    }
  }

  /** An instance: the memory of the members that are not static. */
  class Instance {
    const struc: Struct
    const data: array<Byte>

    ghost predicate Valid() {
      struc.Valid() && data.Length == struc.layout.size && data != struc.staticData
    }

    constructor (struc: Struct)
      requires struc.Valid()
      ensures Valid() && this.struc == struc && fresh(data)
    {
      this.struc := struc;
      data := new Byte[struc.layout.size];
    }

    /** The memory that holds member `j`. */
    function Memory(j: nat): array<Byte>
      requires j < |struc.members|
    {
      if struc.members[j].isStatic then struc.staticData else data
    }

    /** Where member `j` lies in it. */
    lemma Placed(j: nat)
      requires Valid() && j < |struc.members|
      ensures struc.layout.offsets[j] + Extent(DeclOf(struc.members[j])) <= Memory(j).Length
    {
      assert Decls(struc.members)[j] == DeclOf(struc.members[j]);
    }

    /** Two members never share a byte. */
    lemma Apart(j: nat, k: nat)
      requires Valid() && j < |struc.members| && k < |struc.members| && j != k
      requires struc.members[j].isStatic == struc.members[k].isStatic
      ensures var a, b := struc.layout.offsets[j], struc.layout.offsets[k];
        a + Extent(DeclOf(struc.members[j])) <= b || b + Extent(DeclOf(struc.members[k])) <= a
    {
      var d := Decls(struc.members);
      assert SameRegion(d[j], d[k]) && SameRegion(d[k], d[j]);
    }

    ghost function Held(j: nat): seq<Byte>
      requires Valid() && j < |struc.members|
      reads Memory(j)
    {
      Placed(j);
      var at := struc.layout.offsets[j];
      Memory(j)[at..at + Extent(DeclOf(struc.members[j]))]
    }

    /** The value of member `j`: this is the map that the instance stands for. */
    ghost function Value(j: nat): Val
      requires Valid() && j < |struc.members|
      reads Memory(j)
    {
      Decode(struc.members[j].kind, Held(j))
    }

    /** ptrs_struct_getMember. */
    method Get(j: nat) returns (v: Val)
      requires Valid() && j < |struc.members|
      ensures v == Value(j)
    {
      Placed(j);
      var at := struc.layout.offsets[j];
      var size: nat := Extent(DeclOf(struc.members[j]));
      var bytes := Memory(j)[at..at + size];
      v := Decode(struc.members[j].kind, bytes);
    }

    /** ptrs_struct_setMember: a write changes the value of its member and of no other, whether the others are
        read through this instance or through any `other` one; a static member changes for all of them. */
    method Set(j: nat, v: Val, ghost other: Instance?)
      requires Valid() && j < |struc.members| && ValidVal(v)
      requires other != null ==> other.Valid() && other.struc == struc && other.data != data
      modifies Memory(j)
      ensures forall k :: 0 <= k < |struc.members| ==>
        Value(k) == if k == j then Stored(struc.members[j].kind, v, struc.truncate) else old(Value(k))
      ensures other != null ==> forall k :: 0 <= k < |struc.members| ==>
        other.Value(k) == if k == j && struc.members[j].isStatic then Value(j) else old(other.Value(k))
      ensures ReadsBack(struc.members[j].kind, v, struc.truncate, Value(j))
    {
      hide Decode, Encode, Stored, Disjoint, Inside, ReadsBack;
      var kind := struc.members[j].kind;
      var bytes := Encode(kind, v, struc.truncate);
      var at := struc.layout.offsets[j];
      Placed(j);
      DecodeEncode(kind, v, struc.truncate);
      StoredReadsBack(kind, v, struc.truncate);
      ghost var memory := Memory(j)[..];
      Put(Memory(j), at, bytes);
      assert Held(j) == bytes;
      forall k | 0 <= k < |struc.members| && k != j
        ensures Held(k) == old(Held(k)) && (other != null ==> other.Held(k) == old(other.Held(k)))
      {
        Placed(k);
        if other != null { other.Placed(k); }
        if struc.members[j].isStatic == struc.members[k].isStatic {
          Apart(j, k);
          var from: nat := struc.layout.offsets[k];
          var to: nat := from + Extent(DeclOf(struc.members[k]));
          Kept(memory, Memory(j)[..], at, |bytes|, from, to);
          assert old(Held(k)) == memory[from..to] && Held(k) == Memory(j)[..][from..to];
        }
      }
    }

    /** What lies outside of a written part of the memory stays as it was. */
    static lemma Kept(before: seq<Byte>, after: seq<Byte>, at: nat, n: nat, from: nat, to: nat)
      requires |before| == |after| && from <= to <= |after| && (to <= at || at + n <= from)
      requires forall i :: 0 <= i < |after| && !(at <= i < at + n) ==> after[i] == before[i]
      ensures after[from..to] == before[from..to]
    {
    }

    method Put(memory: array<Byte>, at: nat, bytes: seq<Byte>)
      requires at + |bytes| <= memory.Length
      modifies memory
      ensures memory[at..at + |bytes|] == bytes
      ensures forall i :: 0 <= i < memory.Length && !(at <= i < at + |bytes|) ==> memory[i] == old(memory[i])
    {
      for i := 0 to |bytes|
        invariant forall k :: 0 <= k < i ==> memory[at + k] == bytes[k]
        invariant forall k :: 0 <= k < memory.Length && !(at <= k < at + i) ==> memory[k] == old(memory[k])
      {
        memory[at + i] := bytes[i];
      }
    }

    /** After any sequence of writes every member holds what was last written to it. */
    method SetAll(writes: seq<(nat, Val)>, ghost other: Instance?)
      requires Valid() && (other != null ==> other.Valid() && other.struc == struc && other.data != data)
      requires forall i :: 0 <= i < |writes| ==> writes[i].0 < |struc.members| && ValidVal(writes[i].1)
      modifies data, struc.staticData
      ensures forall k :: 0 <= k < |struc.members| ==>
        Value(k) == After(writes, k, struc.members[k].kind, struc.truncate, old(Value(k)))
      ensures other != null ==> forall k :: 0 <= k < |struc.members| ==>
        other.Value(k) == if struc.members[k].isStatic then Value(k) else old(other.Value(k))
    {
      hide Decode, Stored;
      assert writes[..0] == [];
      assert other != null ==>
        forall k :: 0 <= k < |struc.members| && struc.members[k].isStatic ==> other.Held(k) == Held(k);
      for i := 0 to |writes|
        invariant forall k :: 0 <= k < |struc.members| ==>
          Value(k) == After(writes[..i], k, struc.members[k].kind, struc.truncate, old(Value(k)))
        invariant other != null ==> forall k :: 0 <= k < |struc.members| ==>
          other.Value(k) == if struc.members[k].isStatic then Value(k) else old(other.Value(k))
      {
        assert writes[..i + 1][..i] == writes[..i];
        Set(writes[i].0, writes[i].1, other);
      }
      assert writes[..|writes|] == writes;
    }
  }

  /** The value of member `k` after some writes. */
  function After(writes: seq<(nat, Val)>, k: nat, kind: Kind, truncate: int -> int, before: Val): Val {
    if writes == [] then before
    else
      var n := |writes| - 1;
      if writes[n].0 == k then Stored(kind, writes[n].1, truncate) else After(writes[..n], k, kind, truncate, before)
  }
}
