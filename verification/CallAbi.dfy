/** The calling convention of functions with typed parameters: the caller leaves out what the parameter's type
    already says, and the callee puts it back (jit/lib/call.c, jit/lib/error.c). */
module CallAbi {
  import opened Basics

  const UNDEFINED := 0
  const INT := 1
  const FLOAT := 2
  const PTR := 3
  const STRUCT := 4
  const FUNCTION := 5
  const DYNAMIC := 6

  // ---------- meta words ----------

  type Word = w: int | 0 <= w < 0x1_0000_0000_0000_0000

  function TypeOf(meta: Word): int {
    meta % 0x100
  }

  function ArraySize(meta: Word): int {
    meta / 0x1_0000_0000
  }

  /** ptrs_meta_getPointer. */
  function PointerOf(meta: Word): int {
    meta / 0x100
  }

  /** The packed words of ptrs_meta_t: a type byte with a pointer, or with a type index and an array size. */
  lemma MetaFields(tag: int, pointer: int, index: int, size: int)
    requires 0 <= tag < 0x100 && 0 <= pointer < 0x100_0000_0000_0000
    requires 0 <= index < 0x100_0000 && 0 <= size < 0x1_0000_0000
    ensures TypeOf(tag + 0x100 * pointer) == tag && PointerOf(tag + 0x100 * pointer) == pointer
    ensures TypeOf(tag + 0x100 * index + 0x1_0000_0000 * size) == tag
    ensures ArraySize(tag + 0x100 * index + 0x1_0000_0000 * size) == size
  {
  }

  // ---------- arguments and parameters ----------

  /** An argument: payload, meta, and the type that is known when the call is generated, if any. */
  datatype Arg = Arg(val: int, meta: Word, known: Option<int>)

  /** A parameter: its typing, whose type byte may be "dynamic", and its default value. */
  datatype Param = Param(typing: Word, dflt: Option<Arg>)

  predicate ValidArg(a: Arg) {
    0 <= TypeOf(a.meta) < DYNAMIC && (a.known.Some? ==> a.known.value == TypeOf(a.meta))
  }

  predicate ValidParam(p: Param) {
    TypeOf(p.typing) <= DYNAMIC && (p.dflt.Some? ==> ValidArg(p.dflt.value))
  }

  /** The default is taken for an argument that is undefined. */
  function Given(p: Param, a: Arg): Arg {
    if p.dflt.Some? && TypeOf(a.meta) == UNDEFINED then p.dflt.value else a
  }

  /** The conditions that ptrs_jit_assertMetaCompatibility adds; `actualType` is passed by the caller. */
  predicate Compatible(expected: Word, actual: Word, actualType: int) {
    && (if TypeOf(expected) == STRUCT && PointerOf(expected) != 0 then actual == expected else actualType == TypeOf(expected))
    && (TypeOf(expected) == PTR && ArraySize(expected) != 0 ==> ArraySize(actual) >= ArraySize(expected))
  }

  /** checkFunctionParameter on one argument: the argument that is passed on, or none if it is refused.  The
      type is taken from the argument before the default is put in its place. */
  function Checked(p: Param, a: Arg): Option<Arg> {
    var given := Given(p, a);
    if TypeOf(p.typing) == DYNAMIC || Compatible(p.typing, given.meta, TypeOf(a.meta)) then Some(given) else None
  }

  // ---------- the caller's side ----------

  /** type0 and type1 of fillCustomAbiArgumentArray: whether a payload and a meta are passed. */
  function Passes(typing: Word): (bool, bool) {
    match TypeOf(typing)
    case 0 => (false, false)
    case 1 => (true, false)
    case 2 => (true, false)
    case 3 => (true, ArraySize(typing) == 0)
    case 4 => (true, PointerOf(typing) == 0)
    case _ => (true, true)
  }

  function Slots(typing: Word): nat {
    (if Passes(typing).0 then 1 else 0) + (if Passes(typing).1 then 1 else 0)
  }

  /** The words that are passed for an argument. */
  function Packed(typing: Word, a: Arg): (r: seq<int>)
    ensures |r| == Slots(typing)
  {
    (if Passes(typing).0 then [a.val] else []) + (if Passes(typing).1 then [a.meta] else [])
  }

  function PackedAll(params: seq<Param>, args: seq<Arg>): (r: seq<int>)
    requires |params| <= |args|
    ensures |r| == SlotCount(params)
  {
    if params == [] then [] else Packed(params[0].typing, args[0]) + PackedAll(params[1..], args[1..])
  }

  function SlotCount(params: seq<Param>): nat {
    if params == [] then 0 else Slots(params[0].typing) + SlotCount(params[1..])
  }

  /** fillCustomAbiArgumentArray, called without an array to count the arguments.  A parameter for which there
      is no argument is an error. */
  method CountArguments(params: seq<Param>, narg: nat) returns (argCount: Option<nat>)
    ensures argCount == if |params| <= narg then Some(1 + SlotCount(params)) else None
  {
    var count: nat := 1;
    var i := 0;
    while i < |params|
      invariant 0 <= i <= |params| && i <= narg && count + SlotCount(params[i..]) == 1 + SlotCount(params)
    {
      if i >= narg {
        return None;
      }
      assert params[i..][1..] == params[i + 1..];
      if Passes(params[i].typing).0 { count := count + 1; }
      if Passes(params[i].typing).1 { count := count + 1; }
      i := i + 1;
    }
    argCount := Some(count);
  }

  lemma PackedNext(params: seq<Param>, args: seq<Arg>, i: nat)
    requires i < |params| <= |args|
    ensures PackedAll(params[i..], args[i..]) ==
      Packed(params[i].typing, args[i]) + PackedAll(params[i + 1..], args[i + 1..])
  {
    assert params[i..][1..] == params[i + 1..] && args[i..][1..] == args[i + 1..];
  }

  /** fillCustomAbiArgumentArray. */
  method FillArguments(params: seq<Param>, thisArg: int, args: seq<Arg>) returns (ok: bool, jitArgs: array<int>)
    ensures ok == (|params| <= |args|) && fresh(jitArgs)
    ensures ok ==> jitArgs[..] == [thisArg] + PackedAll(params, args)
  {
    hide Passes, PackedAll, SlotCount;
    var counted := CountArguments(params, |args|);
    ok := counted.Some?;
    if !ok {
      jitArgs := new int[0];
      return;
    }
    var count := counted.value;
    jitArgs := new int[count];
    jitArgs[0] := thisArg;
    ghost var all := [thisArg] + PackedAll(params, args);
    var argCount, i := 1, 0;
    assert jitArgs[..1] == [thisArg] && params[0..] == params && args[0..] == args;
    while i < |params|
      invariant 0 <= i <= |params| && 1 <= argCount <= count == |all| == jitArgs.Length
      invariant jitArgs[..argCount] + PackedAll(params[i..], args[i..]) == all
    {
      PackedNext(params, args, i);
      ghost var done, here, rest :=
        jitArgs[..argCount], Packed(params[i].typing, args[i]), PackedAll(params[i + 1..], args[i + 1..]);
      assert all == done + (here + rest);
      if Passes(params[i].typing).0 {
        jitArgs[argCount] := args[i].val;
        argCount := argCount + 1;
      }
      if Passes(params[i].typing).1 {
        jitArgs[argCount] := args[i].meta;
        argCount := argCount + 1;
      }
      assert jitArgs[..argCount] == done + here;
      assert done + (here + rest) == (done + here) + rest;
      i := i + 1;
    }
    assert PackedAll(params[i..], args[i..]) == [] by { PackedNone(params[i..], args[i..]); }
    assert jitArgs[..argCount] == jitArgs[..];
  }

  lemma PackedNone(params: seq<Param>, args: seq<Arg>)
    requires params == []
    ensures PackedAll(params, args) == []
  {
  }

  // ---------- the callee's side ----------

  /** What retrieveParameterArray finds in a parameter. */
  datatype Received = Received(val: int, meta: Word)

  /** The parameters that the callee reads from its slots, starting at `pos`, and the position behind them. */
  method Retrieve(params: seq<Param>, slots: seq<int>) returns (r: seq<Received>, argPos: nat)
    requires Readable(params, slots, 1)
    ensures |r| == |params|
    ensures (r, argPos) == Unpacked(params, slots, 1)
  {
    argPos := 1;
    r := [];
    var i := 0;
    ghost var all, last := Unpacked(params, slots, 1).0, Unpacked(params, slots, 1).1;
    assert params[0..] == params && [] + all == all;
    while i < |params|
      invariant 0 <= i == |r| <= |params| && Readable(params[i..], slots, argPos)
      invariant r + Unpacked(params[i..], slots, argPos).0 == all && Unpacked(params[i..], slots, argPos).1 == last
    {
      var one, next := RetrieveOne(params[i].typing, slots, argPos);
      assert params[i..][1..] == params[i + 1..];
      assert r + ([one] + Unpacked(params[i + 1..], slots, next).0) == (r + [one]) + Unpacked(params[i + 1..], slots, next).0;
      r, argPos := r + [one], next;
      i := i + 1;
    }
    assert params[i..] == [] && r + [] == r;
  }

  method RetrieveOne(typing: Word, slots: seq<int>, pos: nat) returns (r: Received, argPos: nat)
    requires CanRead(typing, slots, pos)
    ensures r == ReadOne(typing, slots, pos) && argPos == pos + Width(typing)
  {
    argPos := pos;
    var t := TypeOf(typing);
    if t == UNDEFINED {
      r := Received(0, UNDEFINED);
    } else if t == INT || t == FLOAT {
      r := Received(slots[argPos], t);
      argPos := argPos + 1;
    } else if t == PTR {
      argPos := argPos + 1;
      if ArraySize(typing) == 0 {
        r := Received(slots[pos], slots[argPos]);
        argPos := argPos + 1;
      } else {
        r := Received(slots[pos], typing);
      }
    } else if t == STRUCT {
      argPos := argPos + 1;
      if PointerOf(typing) != 0 {
        r := Received(slots[pos], typing);
      } else {
        r := Received(slots[pos], slots[argPos]);
        argPos := argPos + 1;
      }
    } else {
      r := Received(slots[argPos], slots[argPos + 1]);
      argPos := argPos + 2;
    }
  }

  /** How many slots the callee takes for a parameter, and whether the last one is a meta. */
  function Width(typing: Word): nat {
    var t := TypeOf(typing);
    if t == UNDEFINED then 0
    else if t == INT || t == FLOAT || (t == PTR && ArraySize(typing) != 0) || (t == STRUCT && PointerOf(typing) != 0) then 1
    else 2
  }

  predicate CanRead(typing: Word, slots: seq<int>, pos: nat) {
    var w := Width(typing);
    pos + w <= |slots| && (w == 2 ==> 0 <= slots[pos + 1] < 0x1_0000_0000_0000_0000)
  }

  function ReadOne(typing: Word, slots: seq<int>, pos: nat): Received
    requires CanRead(typing, slots, pos)
  {
    var w := Width(typing);
    Received(if w == 0 then 0 else slots[pos],
             if w == 2 then slots[pos + 1] else if TypeOf(typing) <= FLOAT then TypeOf(typing) else typing)
  }

  predicate Readable(params: seq<Param>, slots: seq<int>, pos: nat)
    decreases |params|
  {
    params == [] || (CanRead(params[0].typing, slots, pos) && Readable(params[1..], slots, pos + Width(params[0].typing)))
  }

  function Unpacked(params: seq<Param>, slots: seq<int>, pos: nat): (seq<Received>, nat)
    requires Readable(params, slots, pos)
    decreases |params|
  {
    if params == [] then ([], pos)
    else
      var (rest, end) := Unpacked(params[1..], slots, pos + Width(params[0].typing));
      ([ReadOne(params[0].typing, slots, pos)] + rest, end)
  }

  // ---------- both sides agree ----------

  /** `a` has the declared type: the type byte, the struct if one is named, and at least the declared size. */
  predicate Fits(a: Arg, typing: Word) {
    && TypeOf(a.meta) == TypeOf(typing)
    && (TypeOf(typing) == STRUCT && PointerOf(typing) != 0 ==> a.meta == typing)
    && (TypeOf(typing) == PTR ==> ArraySize(typing) <= ArraySize(a.meta))
  }

  /** What is passed on for a parameter: its declared type tells the callee what is left out. */
  predicate Accepted(p: Param, a: Arg) {
    ValidParam(p) && ValidArg(a) && (TypeOf(p.typing) == DYNAMIC || TypeOf(p.typing) == UNDEFINED || Fits(a, p.typing))
  }

  /** What arrives for the argument or the default `a` that was passed on: its value and its meta; but of an int or
      a float only the type, of a sized pointer the declared meta, whose size is no larger than the actual one, and
      for a parameter typed as undefined nothing. */
  predicate Arrives(p: Param, a: Arg, r: Received) {
    var t := TypeOf(p.typing);
    if t == UNDEFINED then r == Received(0, UNDEFINED)
    else
      && r.val == a.val && TypeOf(r.meta) == TypeOf(a.meta)
      && (if t == PTR && ArraySize(p.typing) != 0 then
            ArraySize(r.meta) == ArraySize(p.typing) <= ArraySize(a.meta) && r.meta == p.typing
          else t == INT || t == FLOAT || r.meta == a.meta)
  }

  lemma OneArrives(p: Param, a: Arg, slots: seq<int>, pos: nat)
    requires Accepted(p, a) && pos + |Packed(p.typing, a)| <= |slots|
    requires slots[pos..pos + |Packed(p.typing, a)|] == Packed(p.typing, a)
    ensures Slots(p.typing) == Width(p.typing) && CanRead(p.typing, slots, pos)
    ensures Arrives(p, a, ReadOne(p.typing, slots, pos))
  {
    var n := |Packed(p.typing, a)|;
    assert n > 0 ==> slots[pos..pos + n][0] == slots[pos];
    assert n > 1 ==> slots[pos..pos + n][1] == slots[pos + 1];
  }

  lemma ArriveNext(params: seq<Param>, args: seq<Arg>, r: seq<Received>)
    requires 0 < |params| == |r| <= |args| && Arrives(params[0], args[0], r[0])
    requires forall i :: 0 <= i < |params| - 1 ==> Arrives(params[1..][i], args[1..][i], r[1..][i])
    ensures forall i :: 0 <= i < |params| ==> Arrives(params[i], args[i], r[i])
  {
    hide Arrives;
    forall i | 1 <= i < |params| ensures Arrives(params[i], args[i], r[i]) {
      assert Arrives(params[1..][i - 1], args[1..][i - 1], r[1..][i - 1]);
    }
  }

  /** Caller and callee agree on the slot of every parameter and on their number, and every argument that
      passes the check arrives. */
  lemma {:induction false} RoundTrip(params: seq<Param>, args: seq<Arg>, slots: seq<int>, pos: nat)
    requires |params| <= |args| && pos + |PackedAll(params, args)| == |slots|
    requires slots[pos..] == PackedAll(params, args)
    requires forall i :: 0 <= i < |params| ==> Accepted(params[i], args[i])
    ensures Readable(params, slots, pos)
    ensures var (r, end) := Unpacked(params, slots, pos);
      end == |slots| && |r| == |params| && forall i :: 0 <= i < |params| ==> Arrives(params[i], args[i], r[i])
    decreases |params|
  {
    hide Accepted, Arrives, Width, Slots, Packed, CanRead, ReadOne, SlotCount;
    if params != [] {
      var here := Packed(params[0].typing, args[0]);
      var n := |here|;
      assert slots[pos..pos + n] == slots[pos..][..n] == here;
      assert slots[pos + n..] == slots[pos..][n..] == PackedAll(params[1..], args[1..]);
      OneArrives(params[0], args[0], slots, pos);
      forall i | 0 <= i < |params| - 1 ensures Accepted(params[1..][i], args[1..][i]) {
        assert Accepted(params[i + 1], args[i + 1]);
      }
      RoundTrip(params[1..], args[1..], slots, pos + n);
      ArriveNext(params, args, Unpacked(params, slots, pos).0);
    }
  }

  // ---------- what the check accepts ----------

  /** The default takes the place of the argument. */
  predicate Defaulted(p: Param, a: Arg) {
    p.dflt.Some? && TypeOf(a.meta) == UNDEFINED
  }

  /** Which arguments a parameter takes.  A typed one takes an argument that has its type; but a default is taken
      only if it is an instance of the one struct that is declared, or if the declared type is undefined. */
  predicate Takes(p: Param, a: Arg) {
    var t := TypeOf(p.typing);
    if t == DYNAMIC then true
    else if Defaulted(p, a) then
      t == UNDEFINED || (t == STRUCT && PointerOf(p.typing) != 0 && p.dflt.value.meta == p.typing)
    else Fits(a, p.typing)
  }

  lemma CheckExact(p: Param, a: Arg)
    requires ValidParam(p) && ValidArg(a)
    ensures Checked(p, a) == if !Takes(p, a) then None else if Defaulted(p, a) then p.dflt else Some(a)
  {
  }

  /** What a parameter receives in a call: the argument, with its own type, or the default; a default of a parameter
      typed as undefined is replaced by undefined. */
  predicate Receives(p: Param, a: Arg, r: Received) {
    if Defaulted(p, a) then Arrives(p, p.dflt.value, r) else Arrives(p, a, r) && TypeOf(r.meta) == TypeOf(a.meta)
  }

  lemma CheckedReceives(p: Param, a: Arg, c: Arg)
    requires ValidParam(p) && ValidArg(a) && Checked(p, a) == Some(c)
    ensures Accepted(p, c)
    ensures forall r :: Arrives(p, c, r) ==> Receives(p, a, r)
  {
    CheckExact(p, a);
  }

  /** A typed call: the arguments are checked, packed, and read by the callee. */
  method Call(params: seq<Param>, thisArg: int, args: seq<Arg>) returns (r: Option<seq<Received>>)
    requires |params| <= |args| && (forall i :: 0 <= i < |params| ==> ValidParam(params[i]))
    requires forall i :: 0 <= i < |args| ==> ValidArg(args[i])
    ensures r.Some? <==> forall i :: 0 <= i < |params| ==> Takes(params[i], args[i])
    ensures r.Some? ==> |r.value| == |params|
    ensures r.Some? ==> forall i :: 0 <= i < |params| ==> Receives(params[i], args[i], r.value[i])
  {
    hide Arrives, Receives, Takes, Accepted;
    var checked: seq<Arg> := [];
    var i := 0;
    while i < |params|
      invariant 0 <= i == |checked| <= |params|
      invariant forall k :: 0 <= k < i ==> Takes(params[k], args[k]) && Accepted(params[k], checked[k])
      invariant forall k, v :: 0 <= k < i && Arrives(params[k], checked[k], v) ==> Receives(params[k], args[k], v)
    {
      var c := Checked(params[i], args[i]);
      CheckExact(params[i], args[i]);
      if c.None? {
        return None;
      }
      CheckedReceives(params[i], args[i], c.value);
      checked := checked + [c.value];
      i := i + 1;
    }
    var _, jitArgs := FillArguments(params, thisArg, checked);
    var slots := jitArgs[..];
    assert slots[1..] == PackedAll(params, checked);
    RoundTrip(params, checked, slots, 1);
    var received, end := Retrieve(params, slots);
    r := Some(received);
  }
}
