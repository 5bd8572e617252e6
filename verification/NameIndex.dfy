/** The index from names to the members of a struct: an open-addressing hash table with linear probing
    (parser/ast.c, createStructHashmap; jit/lib/struct.c, ptrs_struct_find), and the walk that a
    `foreach` makes over it (jit/statements.c, structIterator). */
module NameIndex {
  import opened Basics
  import opened Numbers

  /** A char, which is signed. */
  type Char = c: int | -128 <= c < 128

  datatype Kind = KVar | KFunction | KGetter | KSetter | KArray | KTyped

  datatype Member = Member(name: seq<Char>, kind: Kind, isStatic: bool, protection: nat)

  /** A name ends at its terminator, so it holds no 0. */
  predicate IsName(s: seq<Char>) {
    forall i :: 0 <= i < |s| ==> s[i] != 0
  }

  // ---------- hashing ----------

  function HashFrom(hash: nat, s: seq<Char>): nat
    decreases |s|
  {
    if s == [] then hash else HashFrom((hash * 31 + s[0]) % 0x1_0000_0000_0000_0000, s[1..])
  }

  /** ptrs_struct_hashName. */
  function Hash(name: seq<Char>): nat {
    HashFrom(7, name)
  }

  /** The part of a key that counts: up to its terminator, if there is one, else all of it. */
  function KeyOf(key: seq<Char>): (r: seq<Char>)
    ensures IsName(r) && |r| <= |key| && r == key[..|r|] && (|r| < |key| ==> key[|r|] == 0)
  {
    if key == [] || key[0] == 0 then [] else
      var r := [key[0]] + KeyOf(key[1..]);
      r
  }

  /** ptrs_struct_nHashName, which stops at the terminator or at the end of the key. */
  method HashKey(key: seq<Char>) returns (hash: nat)
    ensures hash == Hash(KeyOf(key))
  {
    hash := 7;
    var i := 0;
    while i < |key| && key[i] != 0
      invariant 0 <= i <= |key|
      invariant HashFrom(hash, KeyOf(key[i..])) == Hash(KeyOf(key))
    {
      assert key[i..][1..] == key[i + 1..];
      assert KeyOf(key[i..])[1..] == KeyOf(key[i + 1..]);
      hash := (hash * 31 + key[i]) % 0x1_0000_0000_0000_0000;
      i := i + 1;
    }
    assert KeyOf(key[i..]) == [];
  }

  /** The comparison of the lookup: strncmp, and then either the key has its terminator or the name ends
      where the key does. */
  predicate Matches(name: seq<Char>, key: seq<Char>) {
    PrefixEqual(name, key) && ((exists i :: 0 <= i < |key| && key[i] == 0) || |name| == |key|)
  }

  /** strncmp(name, key, |key|) == 0, for a name that is followed by its terminator. */
  predicate PrefixEqual(name: seq<Char>, key: seq<Char>)
    decreases |key|
  {
    if key == [] then true
    else if name == [] then key[0] == 0
    else name[0] == key[0] && PrefixEqual(name[1..], key[1..])
  }

  /** Whether or not the key is zero-terminated within its length, it matches the name it spells. */
  lemma {:induction false} MatchesExact(name: seq<Char>, key: seq<Char>)
    requires IsName(name)
    ensures Matches(name, key) <==> name == KeyOf(key)
    decreases |key|
  {
    if key == [] {
    } else if key[0] == 0 {
      assert key[0] == 0;
      if name != [] { assert name[0] != 0; }
    } else if name != [] {
      MatchesExact(name[1..], key[1..]);
      if exists i :: 0 <= i < |key| && key[i] == 0 {
        var i :| 0 <= i < |key| && key[i] == 0;
        assert key[1..][i - 1] == 0;
      }
      if exists i :: 0 <= i < |key[1..]| && key[1..][i] == 0 {
        var i :| 0 <= i < |key[1..]| && key[1..][i] == 0;
        assert key[i + 1] == 0;
      }
      assert name == [name[0]] + name[1..];
    }
  }

  // ---------- the table ----------

  const PRIMES: seq<nat> :=
    [2, 3, 5, 7, 11, 13, 17, 19, 23, 29, 31, 37, 41, 43, 47, 53, 59, 61, 67, 71, 73, 79, 83, 89, 97]

  /** A position of the probe sequence that starts at `h`. */
  function Slot(h: nat, d: nat, n: nat): (r: nat)
    requires n > 0
    ensures r < n
  {
    (h + d) % n
  }

  /** Every slot is on every probe sequence. */
  function Reach(h: nat, t: nat, n: nat): (d: nat)
    requires t < n
    ensures d < n && Slot(h, d, n) == t
  {
    ReachFacts(h, t, n);
    (t - h) % n
  }

  lemma ReachFacts(h: nat, t: nat, n: nat)
    requires t < n
    ensures (h + (t - h) % n) % n == t
  {
    var q, r := (t - h) / n, (t - h) % n;
    assert t - h == q * n + r;
    ModUnique(h + r, t, -q, n);
  }

  lemma SlotInjective(h: nat, d: nat, e: nat, n: nat)
    requires d < n && e < n && Slot(h, d, n) == Slot(h, e, n)
    ensures d == e
  {
    Quotient(h + d, n);
    Quotient(h + e, n);
    var p, q := (h + d) / n, (h + e) / n;
    if p != q {
      Apart(p, q, n);
    }
  }

  lemma NextSlot(h: nat, d: nat, n: nat)
    requires n > 0
    ensures (Slot(h, d, n) + 1) % n == Slot(h, d + 1, n)
  {
    var q, r := (h + d) / n, (h + d) % n;
    assert h + d == q * n + r;
    if r + 1 < n {
      ModUnique(h + d + 1, r + 1, q, n);
      ModUnique(r + 1, r + 1, 0, n);
    } else {
      assert h + d + 1 == (q + 1) * n + 0;
      ModUnique(h + d + 1, 0, q + 1, n);
      ModUnique(r + 1, 0, 1, n);
    }
  }

  /** The members `decl[..k]` were inserted in order: each stands at distance `dist[j]` from its hash, and
      the slots before it hold members that were inserted earlier. */
  ghost predicate Filled(slots: seq<Option<nat>>, decl: seq<Member>, dist: seq<nat>) {
    var n := |slots|;
    && n > 0 && |dist| <= |decl|
    && (forall j :: 0 <= j < |dist| ==> dist[j] < n && slots[Slot(Hash(decl[j].name), dist[j], n)] == Some(j))
    && (forall j, d :: 0 <= j < |dist| && 0 <= d < dist[j] ==>
        var s := slots[Slot(Hash(decl[j].name), d, n)]; s.Some? && s.value < j)
    && (forall t :: 0 <= t < n && slots[t].Some? ==>
        slots[t].value < |dist| && t == Slot(Hash(decl[slots[t].value].name), dist[slots[t].value], n))
  }

  /** A table with more slots than members has an empty one. */
  lemma HasEmpty(slots: seq<Option<nat>>, decl: seq<Member>, dist: seq<nat>) returns (t: nat)
    requires Filled(slots, decl, dist) && |dist| < |slots|
    ensures t < |slots| && slots[t].None?
  {
    if forall i :: 0 <= i < |slots| ==> slots[i].Some? {
      Pigeons(slots, |dist|);
    }
    t :| 0 <= t < |slots| && slots[t].None?;
  }

  function Below(k: nat): (r: set<nat>)
    ensures |r| == k && forall v :: v in r <==> 0 <= v < k
  {
    if k == 0 then {} else Below(k - 1) + {k - 1}
  }

  function Values(slots: seq<Option<nat>>, m: nat): (r: set<nat>)
    requires m <= |slots| && forall i :: 0 <= i < m ==> slots[i].Some?
    ensures forall v :: v in r <==> exists i :: 0 <= i < m && slots[i].value == v
  {
    if m == 0 then {} else Values(slots, m - 1) + {slots[m - 1].value}
  }

  lemma {:induction false} CountValues(slots: seq<Option<nat>>, m: nat)
    requires m <= |slots| && (forall i :: 0 <= i < |slots| ==> slots[i].Some?)
    requires forall i, j :: 0 <= i < j < |slots| ==> slots[i].value != slots[j].value
    ensures |Values(slots, m)| == m
  {
    if m > 0 {
      CountValues(slots, m - 1);
      assert slots[m - 1].value !in Values(slots, m - 1);
    }
  }

  lemma Pigeons(slots: seq<Option<nat>>, k: nat)
    requires forall i :: 0 <= i < |slots| ==> slots[i].Some? && slots[i].value < k
    requires forall i, j :: 0 <= i < j < |slots| ==> slots[i].value != slots[j].value
    ensures |slots| <= k
  {
    CountValues(slots, |slots|);
    Subset(Values(slots, |slots|), Below(k));
  }

  lemma Subset(a: set<nat>, b: set<nat>)
    requires a <= b
    ensures |a| <= |b|
  {
    assert b == a + (b - a);
  }

  // ---------- insertion ----------

  lemma Inserted(slots: seq<Option<nat>>, decl: seq<Member>, dist: seq<nat>, d: nat)
    requires Filled(slots, decl, dist) && |dist| < |decl| && d < |slots|
    requires var h, n := Hash(decl[|dist|].name), |slots|;
      slots[Slot(h, d, n)].None? && forall e :: 0 <= e < d ==> slots[Slot(h, e, n)].Some?
    ensures var n := |slots|;
      Filled(slots[Slot(Hash(decl[|dist|].name), d, n) := Some(|dist|)], decl, dist + [d])
  {
    var h, n, j := Hash(decl[|dist|].name), |slots|, |dist|;
    var t := Slot(h, d, n);
    var after, dist1 := slots[t := Some(j)], dist + [d];
    forall k | 0 <= k < |dist1|
      ensures dist1[k] < n && after[Slot(Hash(decl[k].name), dist1[k], n)] == Some(k)
    {
      if k < j { assert slots[Slot(Hash(decl[k].name), dist[k], n)] == Some(k); }
    }
    forall k, e | 0 <= k < |dist1| && 0 <= e < dist1[k]
      ensures var s := after[Slot(Hash(decl[k].name), e, n)]; s.Some? && s.value < k
    {
      if k < j { assert slots[Slot(Hash(decl[k].name), e, n)].Some?; }
    }
  }

  // ---------- lookup ----------

  /** Of the members called `key`, those before `next` stand at distances below `d`, the others do not. */
  ghost predicate Passed(decl: seq<Member>, dist: seq<nat>, key: seq<Char>, next: nat, d: nat)
    requires |dist| == |decl|
  {
    forall k :: 0 <= k < |decl| && decl[k].name == key ==> (k < next <==> dist[k] < d)
  }

  lemma NonePassed(decl: seq<Member>, dist: seq<nat>, key: seq<Char>)
    requires |dist| == |decl|
    ensures Passed(decl, dist, key, 0, 0)
  {
  }

  lemma Probed(slots: seq<Option<nat>>, decl: seq<Member>, dist: seq<nat>, key: seq<Char>, next: nat, d: nat, j: nat)
    requires Filled(slots, decl, dist) && |dist| == |decl| && d < |slots| && Passed(decl, dist, key, next, d)
    requires slots[Slot(Hash(key), d, |slots|)] == Some(j)
    ensures j < |decl|
    ensures decl[j].name != key ==> Passed(decl, dist, key, next, d + 1)
    ensures decl[j].name == key ==>
      next <= j && (forall k :: next <= k < j ==> decl[k].name != key) && Passed(decl, dist, key, j + 1, d + 1)
  {
    var n := |slots|;
    if decl[j].name == key {
      SlotInjective(Hash(key), d, dist[j], n);
      forall k | next <= k < j ensures decl[k].name != key {
        assert slots[Slot(Hash(decl[k].name), dist[k], n)] == Some(k);
      }
      forall k | 0 <= k < |decl| && decl[k].name == key ensures k < j + 1 <==> dist[k] < d + 1 {
        assert slots[Slot(Hash(key), dist[k], n)] == Some(k);
      }
    } else {
      forall k | 0 <= k < |decl| && decl[k].name == key ensures k < next <==> dist[k] < d + 1 {
        assert slots[Slot(Hash(key), dist[k], n)] == Some(k);
      }
    }
  }

  /** An empty slot ends the search: no member of that name comes later. */
  lemma Ended(slots: seq<Option<nat>>, decl: seq<Member>, dist: seq<nat>, key: seq<Char>, next: nat, d: nat)
    requires Filled(slots, decl, dist) && |dist| == |decl| && d < |slots| && Passed(decl, dist, key, next, d)
    requires slots[Slot(Hash(key), d, |slots|)].None?
    ensures forall k :: next <= k < |decl| ==> decl[k].name != key
  {
    forall k | next <= k < |decl| ensures decl[k].name != key {
      assert slots[Slot(Hash(decl[k].name), dist[k], |slots|)] == Some(k);
      assert dist[k] > d ==> slots[Slot(Hash(decl[k].name), d, |slots|)].Some?;
    }
  }

  // ---------- what a lookup has to find ----------

  /** What access protection says of a member: it may be used, it is an error to use it, or (when there is
      no place in the program to check) it is passed over. */
  datatype Access = Allowed | Refused | PassedOver

  datatype Lookup = Found(j: nat) | AccessError(j: nat) | Missing

  /** The declaration list searched from its start: the first member of that name that is not of the
      excluded kind and not passed over; else the last one that is of the excluded kind. */
  function Search(decl: seq<Member>, key: seq<Char>, exclude: Option<Kind>, access: Member -> Access, j: nat,
                  ignored: Lookup): Lookup
    requires j <= |decl|
    decreases |decl| - j
  {
    if j == |decl| then ignored
    else if decl[j].name != key then Search(decl, key, exclude, access, j + 1, ignored)
    else if exclude == Some(decl[j].kind) then Search(decl, key, exclude, access, j + 1, Found(j))
    else match access(decl[j])
      case Allowed => Found(j)
      case Refused => AccessError(j)
      case PassedOver => Search(decl, key, exclude, access, j + 1, ignored)
  }

  lemma {:induction false} SearchSkips(decl: seq<Member>, key: seq<Char>, exclude: Option<Kind>, access: Member -> Access,
                                       a: nat, b: nat, r: Lookup)
    requires a <= b <= |decl| && forall k :: a <= k < b ==> decl[k].name != key
    ensures Search(decl, key, exclude, access, a, r) == Search(decl, key, exclude, access, b, r)
    decreases b - a
  {
    if a < b {
      SearchSkips(decl, key, exclude, access, a + 1, b, r);
    }
  }

  predicate Candidate(m: Member, key: seq<Char>, exclude: Option<Kind>, access: Member -> Access) {
    m.name == key && exclude != Some(m.kind) && access(m) != PassedOver
  }

  predicate Excluded(m: Member, key: seq<Char>, exclude: Option<Kind>) {
    m.name == key && exclude == Some(m.kind)
  }

  /** The lookup finds the first candidate in the order of declaration ... */
  lemma {:induction false} FindsFirst(decl: seq<Member>, key: seq<Char>, exclude: Option<Kind>, access: Member -> Access,
                                      a: nat, ignored: Lookup, j: nat)
    requires a <= j < |decl| && Candidate(decl[j], key, exclude, access)
    requires forall k :: a <= k < j ==> !Candidate(decl[k], key, exclude, access)
    ensures Search(decl, key, exclude, access, a, ignored) == if access(decl[j]) == Allowed then Found(j) else AccessError(j)
    decreases j - a
  {
    if a < j {
      FindsFirst(decl, key, exclude, access, a + 1, if Excluded(decl[a], key, exclude) then Found(a) else ignored, j);
    }
  }

  /** ... without a candidate, the last member of the excluded kind ... */
  lemma {:induction false} FindsExcluded(decl: seq<Member>, key: seq<Char>, exclude: Option<Kind>, access: Member -> Access,
                                         a: nat, ignored: Lookup, j: nat)
    requires a <= j < |decl| && Excluded(decl[j], key, exclude)
    requires forall k :: a <= k < |decl| ==> !Candidate(decl[k], key, exclude, access)
    requires forall k :: j < k < |decl| ==> !Excluded(decl[k], key, exclude)
    ensures Search(decl, key, exclude, access, a, ignored) == Found(j)
    decreases j - a
  {
    if a < j {
      FindsExcluded(decl, key, exclude, access, a + 1, if Excluded(decl[a], key, exclude) then Found(a) else ignored, j);
    } else {
      FindsNothing(decl, key, exclude, access, a + 1, Found(j));
    }
  }

  /** ... and without that, nothing. */
  lemma {:induction false} FindsNothing(decl: seq<Member>, key: seq<Char>, exclude: Option<Kind>, access: Member -> Access,
                                        a: nat, ignored: Lookup)
    requires a <= |decl|
    requires forall k :: a <= k < |decl| ==> !Candidate(decl[k], key, exclude, access) && !Excluded(decl[k], key, exclude)
    ensures Search(decl, key, exclude, access, a, ignored) == ignored
    decreases |decl| - a
  {
    if a < |decl| {
      FindsNothing(decl, key, exclude, access, a + 1, ignored);
    }
  }

  lemma SearchHere(decl: seq<Member>, key: seq<Char>, exclude: Option<Kind>, access: Member -> Access, j: nat, r: Lookup)
    requires j < |decl| && decl[j].name == key
    ensures Search(decl, key, exclude, access, j, r) ==
      if exclude == Some(decl[j].kind) then Search(decl, key, exclude, access, j + 1, Found(j))
      else match access(decl[j])
        case Allowed => Found(j)
        case Refused => AccessError(j)
        case PassedOver => Search(decl, key, exclude, access, j + 1, r)
  {
  }

  /** No member called `key` is left. */
  lemma SearchOver(decl: seq<Member>, key: seq<Char>, exclude: Option<Kind>, access: Member -> Access, a: nat, r: Lookup)
    requires a <= |decl| && forall k :: a <= k < |decl| ==> decl[k].name != key
    ensures Search(decl, key, exclude, access, a, r) == r
  {
    SearchSkips(decl, key, exclude, access, a, |decl|, r);
  }

  /** What the lookup does with member `j`: the result so far, and whether it ends here. */
  function Judge(m: Member, j: nat, key: seq<Char>, exclude: Option<Kind>, access: Member -> Access, r: Lookup): (Lookup, bool) {
    if !Matches(m.name, key) then (r, false)
    else if exclude == Some(m.kind) then (Found(j), false)
    else match access(m)
      case Allowed => (Found(j), true)
      case Refused => (AccessError(j), true)
      case PassedOver => (r, false)
  }

  lemma JudgeRight(slots: seq<Option<nat>>, decl: seq<Member>, dist: seq<nat>, key: seq<Char>, exclude: Option<Kind>,
                   access: Member -> Access, next: nat, d: nat, j: nat, r: Lookup) returns (next': nat)
    requires Filled(slots, decl, dist) && |dist| == |decl| && d < |slots| && Passed(decl, dist, KeyOf(key), next, d)
    requires slots[Slot(Hash(KeyOf(key)), d, |slots|)] == Some(j) && next <= |decl|
    requires forall k :: 0 <= k < |decl| ==> IsName(decl[k].name)
    ensures j < |decl| && next' <= |decl| && Passed(decl, dist, KeyOf(key), next', d + 1)
    ensures var (r', stop) := Judge(decl[j], j, key, exclude, access, r);
      Search(decl, KeyOf(key), exclude, access, next, r) ==
      if stop then r' else Search(decl, KeyOf(key), exclude, access, next', r')
  {
    hide Filled, Slot, Hash, Matches, KeyOf, Passed, IsName, Search;
    Probed(slots, decl, dist, KeyOf(key), next, d, j);
    MatchesExact(decl[j].name, key);
    next' := next;
    if Matches(decl[j].name, key) {
      SearchSkips(decl, KeyOf(key), exclude, access, next, j, r);
      SearchHere(decl, KeyOf(key), exclude, access, j, r);
      next' := j + 1;
    }
  }

  // ---------- the struct ----------

  class StructIndex {
    const decl: seq<Member>
    var slots: array<Option<nat>>
    ghost var dist: seq<nat>

    ghost predicate Valid()
      reads this, slots
    {
      && |decl| <= 96
      && (forall j :: 0 <= j < |decl| ==> IsName(decl[j].name))
      && |dist| == |decl|
      && (if decl == [] then slots.Length == 0 else slots.Length > |decl| && Filled(slots[..], decl, dist))
    }

    /** createStructHashmap.  More than 96 members are an error of the parser. */
    static method Create(decl: seq<Member>) returns (index: StructIndex?)
      requires forall j :: 0 <= j < |decl| ==> IsName(decl[j].name)
      ensures index == null <==> |decl| > 96
      ensures index != null ==> fresh(index) && index.Valid() && index.decl == decl
    {
      if |decl| >= 97 {
        return null;
      }
      index := new StructIndex(decl);
    }

    constructor (decl: seq<Member>)
      requires |decl| <= 96 && forall j :: 0 <= j < |decl| ==> IsName(decl[j].name)
      ensures Valid() && this.decl == decl && fresh(slots)
    {
      this.decl := decl;
      var n := 0;
      if decl != [] {
        n := TableSize(|decl|);
      }
      slots := new Option<nat>[n](_ => None);
      dist := [];
      new;
      if decl != [] {
        var j := 0;
        while j < |decl|
          invariant 0 <= j == |dist| <= |decl| < slots.Length && fresh(slots)
          invariant Filled(slots[..], decl, dist)
        {
          Insert(j);
          j := j + 1;
        }
      }
    }

    /** The smallest prime of the list that is larger than the number of members. */
    static method TableSize(count: nat) returns (n: nat)
      requires count <= 96
      ensures n in PRIMES && n > count && forall p :: p in PRIMES && p > count ==> n <= p
    {
      var i := 0;
      while PRIMES[i] <= count
        invariant 0 <= i < |PRIMES|
        invariant forall k :: 0 <= k < i ==> PRIMES[k] <= count
        decreases |PRIMES| - i
      {
        assert i < |PRIMES| - 1 by { assert PRIMES[24] == 97; }
        i := i + 1;
      }
      n := PRIMES[i];
      forall p | p in PRIMES && p > count ensures n <= p {
        var k :| 0 <= k < |PRIMES| && PRIMES[k] == p;
        assert k >= i;
        Increasing(i, k);
      }
    }

    static lemma Increasing(i: nat, k: nat)
      requires i <= k < |PRIMES|
      ensures PRIMES[i] <= PRIMES[k]
      decreases k - i
    {
      if i < k {
        Increasing(i, k - 1);
      }
    }

    method Insert(j: nat)
      requires j == |dist| < |decl| < slots.Length && Filled(slots[..], decl, dist)
      modifies this`dist, slots
      ensures |dist| == j + 1 && Filled(slots[..], decl, dist)
    {
      hide Filled, Slot, Hash, Reach;
      var n := slots.Length;
      ghost var h, table, before := Hash(decl[j].name), slots[..], dist;
      ghost var free := HasEmpty(table, decl, dist);
      var i := Hash(decl[j].name) % n;
      ghost var d := 0;
      assert i == Slot(h, 0, n) by { SlotStart(h, n); }
      while slots[i].Some?
        invariant 0 <= i < n && i == Slot(h, d, n) && d <= Reach(h, free, n) && slots[..] == table && dist == before
        invariant forall e :: 0 <= e < d ==> table[Slot(h, e, n)].Some?
        decreases n - d
      {
        assert d != Reach(h, free, n);
        NextSlot(h, d, n);
        i := (i + 1) % n;
        d := d + 1;
      }
      Inserted(table, decl, dist, d);
      slots[i] := Some(j);
      dist := dist + [d];
      assert slots[..] == table[i := Some(j)];
    }

    /** ptrs_struct_find. */
    method Find(key: seq<Char>, exclude: Option<Kind>, access: Member -> Access) returns (r: Lookup)
      requires Valid()
      ensures r == Search(decl, KeyOf(key), exclude, access, 0, Missing)
    {
      if slots.Length == 0 {
        assert decl == [];
        return Missing;
      }
      hide Filled, Slot, Hash, Reach, Judge, KeyOf, Passed, IsName, Search;
      var n := slots.Length;
      ghost var name, table := KeyOf(key), slots[..];
      var hash := HashKey(key);
      ghost var free := HasEmpty(table, decl, dist);
      var i := hash % n;
      ghost var d: nat, next: nat := 0, 0;
      assert i == Slot(hash, 0, n) by { SlotStart(hash, n); }
      r := Missing;
      assert Passed(decl, dist, name, 0, 0) by { NonePassed(decl, dist, name); }
      while slots[i].Some?
        invariant 0 <= i < n && i == Slot(hash, d, n) && d <= Reach(hash, free, n) && next <= |decl|
        invariant Search(decl, name, exclude, access, 0, Missing) == Search(decl, name, exclude, access, next, r)
        invariant Passed(decl, dist, name, next, d)
        decreases n - d
      {
        assert d != Reach(hash, free, n);
        var j := slots[i].value;
        next := JudgeRight(table, decl, dist, key, exclude, access, next, d, j, r);
        var (found, stop) := Judge(decl[j], j, key, exclude, access, r);
        r := found;
        if stop {
          return;
        }
        NextSlot(hash, d, n);
        i := (i + 1) % n;
        d := d + 1;
      }
      Ended(table, decl, dist, name, next, d);
      SearchOver(decl, name, exclude, access, next, r);
    }
  }

  // ---------- foreach ----------

  /** Members that a default `foreach` shows: no setters, and without an instance only static ones. */
  predicate Shown(m: Member, isInstance: bool) {
    m.kind != KSetter && (m.isStatic || isInstance)
  }

  /** The members the walk still has to visit, from position `pos` on. */
  function Remaining(slots: seq<Option<nat>>, decl: seq<Member>, isInstance: bool, pos: nat): seq<nat>
    requires pos <= |slots| && forall t :: 0 <= t < |slots| && slots[t].Some? ==> slots[t].value < |decl|
    decreases |slots| - pos
  {
    if pos == |slots| then []
    else
      var rest := Remaining(slots, decl, isInstance, pos + 1);
      if slots[pos].Some? && Shown(decl[slots[pos].value], isInstance) then [slots[pos].value] + rest else rest
  }

  /** The save area of a `foreach` over a struct. */
  class StructIterator {
    const struc: StructIndex
    const isInstance: bool
    var pos: nat

    ghost predicate Valid()
      reads this, struc, struc.slots
    {
      struc.Valid() && pos <= struc.slots.Length
    }

    constructor (struc: StructIndex, isInstance: bool)
      requires struc.Valid()
      ensures Valid() && pos == 0 && this.struc == struc && this.isInstance == isInstance
    {
      this.struc, this.isInstance, pos := struc, isInstance, 0;
    }

    ghost function Left(): seq<nat>
      requires Valid()
      reads this, struc, struc.slots
    {
      Remaining(struc.slots[..], struc.decl, isInstance, pos)
    }

    /** structIterator: the next member, or none when the walk is over. */
    method Next() returns (r: Option<nat>)
      requires Valid()
      modifies this`pos
      ensures Valid()
      ensures r == if old(Left()) == [] then None else Some(old(Left())[0])
      ensures Left() == if r.None? then [] else old(Left())[1..]
    {
      while true
        invariant Valid() && Left() == old(Left())
        decreases struc.slots.Length - pos
      {
        if pos >= struc.slots.Length {
          return None;
        }
        var curr := struc.slots[pos];
        pos := pos + 1;
        if curr.Some? && Shown(struc.decl[curr.value], isInstance) {
          return Some(curr.value);
        }
      }
    }

    lemma AllVisited()
      requires Valid() && pos == 0
      ensures forall j :: j in Left() <==> 0 <= j < |struc.decl| && Shown(struc.decl[j], isInstance)
      ensures forall a, b :: 0 <= a < b < |Left()| ==> Left()[a] != Left()[b]
    {
      if struc.decl != [] {
        EachOnce(struc.slots[..], struc.decl, struc.dist, isInstance);
      }
    }

    /** The whole walk, in which every shown member turns up exactly once. */
    method Walk() returns (visited: seq<nat>)
      requires Valid() && pos == 0
      modifies this`pos
      ensures Valid() && Left() == [] && visited == old(Left())
      ensures forall j :: j in visited <==>
        0 <= j < |struc.decl| && struc.decl[j].kind != KSetter && (isInstance || struc.decl[j].isStatic)
      ensures forall a, b :: 0 <= a < b < |visited| ==> visited[a] != visited[b]
    {
      hide Filled, Remaining, Hash, Slot;
      ghost var all := Left();
      AllVisited();
      visited := [];
      var r := Next();
      while r.Some?
        invariant Valid() && all == visited + (if r.Some? then [r.value] else []) + Left()
        invariant r.None? ==> Left() == []
        decreases |all| - |visited| + (if r.Some? then 1 else 0)
      {
        visited := visited + [r.value];
        r := Next();
      }
    }
  }

  lemma {:induction false} RemainingHas(slots: seq<Option<nat>>, decl: seq<Member>, isInstance: bool, pos: nat, j: nat)
    requires pos <= |slots| && forall t :: 0 <= t < |slots| && slots[t].Some? ==> slots[t].value < |decl|
    ensures j in Remaining(slots, decl, isInstance, pos) <==>
      j < |decl| && Shown(decl[j], isInstance) && exists t :: pos <= t < |slots| && slots[t] == Some(j)
    decreases |slots| - pos
  {
    if pos < |slots| {
      RemainingHas(slots, decl, isInstance, pos + 1, j);
    }
  }

  lemma {:induction false} RemainingOnce(slots: seq<Option<nat>>, decl: seq<Member>, isInstance: bool, pos: nat)
    requires pos <= |slots| && forall t :: 0 <= t < |slots| && slots[t].Some? ==> slots[t].value < |decl|
    requires forall t, u :: 0 <= t < u < |slots| && slots[t].Some? && slots[u].Some? ==> slots[t].value != slots[u].value
    ensures var r := Remaining(slots, decl, isInstance, pos); forall a, b :: 0 <= a < b < |r| ==> r[a] != r[b]
    decreases |slots| - pos
  {
    hide Shown;
    if pos < |slots| {
      var rest := Remaining(slots, decl, isInstance, pos + 1);
      RemainingOnce(slots, decl, isInstance, pos + 1);
      if slots[pos].Some? {
        RemainingHas(slots, decl, isInstance, pos + 1, slots[pos].value);
        assert slots[pos].value !in rest;
        FrontOnce(slots[pos].value, rest);
      }
    }
  }

  lemma FrontOnce(j: nat, rest: seq<nat>)
    requires j !in rest && forall a, b :: 0 <= a < b < |rest| ==> rest[a] != rest[b]
    ensures var r := [j] + rest; forall a, b :: 0 <= a < b < |r| ==> r[a] != r[b]
  {
  }

  /** In every table that the parser builds, every shown member is visited exactly once. */
  lemma EachOnce(slots: seq<Option<nat>>, decl: seq<Member>, dist: seq<nat>, isInstance: bool)
    requires Filled(slots, decl, dist) && |dist| == |decl|
    ensures var r := Remaining(slots, decl, isInstance, 0);
      && (forall j :: j in r <==> 0 <= j < |decl| && decl[j].kind != KSetter && (isInstance || decl[j].isStatic))
      && (forall a, b :: 0 <= a < b < |r| ==> r[a] != r[b])
  {
    var r := Remaining(slots, decl, isInstance, 0);
    RemainingOnce(slots, decl, isInstance, 0);
    forall j: nat ensures j in r <==> 0 <= j < |decl| && Shown(decl[j], isInstance) {
      RemainingHas(slots, decl, isInstance, 0, j);
      if j < |decl| {
        assert slots[Slot(Hash(decl[j].name), dist[j], |slots|)] == Some(j);
      }
    }
  }

  lemma SlotStart(h: nat, n: nat)
    requires n > 0
    ensures Slot(h, 0, n) == h % n
  {
  }
}
