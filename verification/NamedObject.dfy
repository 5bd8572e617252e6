/** Index, layout and codecs together: members read and written by name are a plain map from names to values
    (jit/lib/struct.c, ptrs_struct_get and ptrs_struct_set). */
module NamedObject {
  import opened Basics
  import N = NameIndex
  import O = StructObject

  type Name = seq<N.Char>

  // ---------- which member a name stands for ----------

  /** The first member of that name, from member `j` on, that access protection does not pass over. */
  function Visible(decl: seq<N.Member>, access: N.Member -> N.Access, name: Name, j: nat): (r: Option<nat>)
    requires j <= |decl|
    ensures r.Some? ==> j <= r.value < |decl| && decl[r.value].name == name && access(decl[r.value]) != N.PassedOver
    ensures forall k :: j <= k < |decl| && decl[k].name == name && access(decl[k]) != N.PassedOver ==> r.Some? && r.value <= k
    decreases |decl| - j
  {
    if j == |decl| then None
    else if decl[j].name == name && access(decl[j]) != N.PassedOver then Some(j)
    else Visible(decl, access, name, j + 1)
  }

  /** Without members of the excluded kind the lookup finds just that member. */
  lemma {:induction false} SearchVisible(decl: seq<N.Member>, access: N.Member -> N.Access, exclude: N.Kind, name: Name, j: nat)
    requires j <= |decl| && forall k :: 0 <= k < |decl| ==> decl[k].kind != exclude
    ensures var v := Visible(decl, access, name, j);
      N.Search(decl, name, Some(exclude), access, j, N.Missing) ==
      if v.None? then N.Missing else if access(decl[v.value]) == N.Allowed then N.Found(v.value) else N.AccessError(v.value)
    decreases |decl| - j
  {
    if j < |decl| {
      SearchVisible(decl, access, exclude, name, j + 1);
    }
  }

  function Names(decl: seq<N.Member>): set<Name> {
    set j | 0 <= j < |decl| :: decl[j].name
  }

  /** The index and the layout describe the same members, all of which have storage. */
  ghost predicate SameMembers(decl: seq<N.Member>, members: seq<O.Member>) {
    && |decl| == |members|
    && forall j :: 0 <= j < |decl| ==>
      && decl[j].isStatic == members[j].isStatic && decl[j].kind == if members[j].kind.Variable? then N.KVar else N.KTyped
  }

  // ---------- the map ----------

  /** A field: what kind of member it is, whether it may be used here, and its value. */
  datatype Field = Field(kind: O.Kind, allowed: bool, value: O.Val)

  type Fields = map<Name, Field>

  datatype Op = Read(key: seq<N.Char>) | Write(key: seq<N.Char>, v: O.Val)

  datatype Answer = Value(v: O.Val) | Written | NoProperty | NoAccess

  predicate ValidOp(op: Op) {
    op.Write? ==> O.ValidVal(op.v)
  }

  /** What an operation answers on a plain map ... */
  function Reply(op: Op, m: Fields): Answer {
    var name := N.KeyOf(op.key);
    if name !in m then NoProperty
    else if !m[name].allowed then NoAccess
    else if op.Read? then Value(m[name].value)
    else Written
  }

  /** ... and what it makes of the map. */
  function Effect(op: Op, m: Fields, truncate: int -> int): Fields {
    var name := N.KeyOf(op.key);
    if op.Read? || name !in m || !m[name].allowed then m
    else m[name := m[name].(value := O.Stored(m[name].kind, op.v, truncate))]
  }

  function Replies(ops: seq<Op>, m: Fields, truncate: int -> int): (seq<Answer>, Fields) {
    if ops == [] then ([], m)
    else
      var (rest, end) := Replies(ops[1..], Effect(ops[0], m, truncate), truncate);
      ([Reply(ops[0], m)] + rest, end)
  }

  // ---------- the object ----------

  /** The map that values of the members make, in the order of declaration. */
  function FieldsOf(decl: seq<N.Member>, members: seq<O.Member>, access: N.Member -> N.Access, values: seq<O.Val>): Fields
    requires |decl| == |members| == |values|
  {
    map name | name in Names(decl) && Visible(decl, access, name, 0).Some? ::
      FieldAt(decl, members, access, values, Visible(decl, access, name, 0).value)
  }

  function FieldAt(decl: seq<N.Member>, members: seq<O.Member>, access: N.Member -> N.Access, values: seq<O.Val>, j: nat): Field
    requires |decl| == |members| == |values| && j < |decl|
  {
    Field(members[j].kind, access(decl[j]) == N.Allowed, values[j])
  }

  lemma FieldNamed(decl: seq<N.Member>, members: seq<O.Member>, access: N.Member -> N.Access, values: seq<O.Val>, name: Name)
    requires |decl| == |members| == |values|
    ensures var m, v := FieldsOf(decl, members, access, values), Visible(decl, access, name, 0);
      (name in m <==> v.Some?) && (v.Some? ==> m[name] == FieldAt(decl, members, access, values, v.value))
  {
    var v := Visible(decl, access, name, 0);
    if v.Some? {
      assert decl[v.value].name in Names(decl);
    }
  }

  /** When the value of one member changes, the map changes at its name only, and not at all if the name stands
      for another member. */
  lemma OneChanged(decl: seq<N.Member>, members: seq<O.Member>, access: N.Member -> N.Access, values: seq<O.Val>, name: Name,
                   j: nat, v: O.Val)
    requires |decl| == |members| == |values| && j < |decl| && Visible(decl, access, name, 0) == Some(j)
    ensures var m := FieldsOf(decl, members, access, values);
      name in m && FieldsOf(decl, members, access, values[j := v]) == m[name := m[name].(value := v)]
  {
    var m, m' := FieldsOf(decl, members, access, values), FieldsOf(decl, members, access, values[j := v]);
    FieldNamed(decl, members, access, values, name);
    assert m'.Keys == m.Keys;
    forall n | n in m ensures m'[n] == if n == name then m[n].(value := v) else m[n] {
      FieldNamed(decl, members, access, values, n);
      FieldNamed(decl, members, access, values[j := v], n);
    }
  }

  class Object {
    const index: N.StructIndex
    const instance: O.Instance
    const access: N.Member -> N.Access

    ghost predicate Valid()
      reads index, index.slots
    {
      index.Valid() && Fit()
    }

    ghost predicate Fit() {
      instance.Valid() && SameMembers(index.decl, instance.struc.members)
    }

    constructor (index: N.StructIndex, instance: O.Instance, access: N.Member -> N.Access)
      requires index.Valid() && instance.Valid() && SameMembers(index.decl, instance.struc.members)
      ensures Valid() && this.index == index && this.instance == instance && this.access == access
    {
      this.index, this.instance, this.access := index, instance, access;
    }

    ghost function Values(): (r: seq<O.Val>)
      requires Fit()
      reads instance.data, instance.struc.staticData
      ensures |r| == |index.decl| && forall j :: 0 <= j < |r| ==> r[j] == instance.Value(j)
    {
      seq(|index.decl|, j requires 0 <= j < |index.decl| reads instance.data, instance.struc.staticData => instance.Value(j))
    }

    /** The map that the object stands for. */
    ghost function Contents(): Fields
      requires Fit()
      reads instance.data, instance.struc.staticData
    {
      FieldsOf(index.decl, instance.struc.members, access, Values())
    }

    /** ptrs_struct_get. */
    method Get(key: seq<N.Char>) returns (r: Answer)
      requires Valid()
      ensures r == Reply(Read(key), Contents())
    {
      hide FieldsOf, Visible, N.Search, N.KeyOf;
      SearchVisible(index.decl, access, N.KSetter, N.KeyOf(key), 0);
      FieldNamed(index.decl, instance.struc.members, access, Values(), N.KeyOf(key));
      var found := index.Find(key, Some(N.KSetter), access);
      match found
      case Missing => r := NoProperty;
      case AccessError(_) => r := NoAccess;
      case Found(j) =>
        var v := instance.Get(j);
        r := Value(v);
    }

    /** ptrs_struct_set. */
    method Set(key: seq<N.Char>, v: O.Val) returns (r: Answer)
      requires Valid() && O.ValidVal(v)
      modifies instance.data, instance.struc.staticData
      ensures Valid() && r == Reply(Write(key, v), old(Contents()))
      ensures Contents() == Effect(Write(key, v), old(Contents()), instance.struc.truncate)
      ensures r == Written ==> N.KeyOf(key) in Contents() && ShowsWritten(Contents()[N.KeyOf(key)], v)
    {
      hide FieldsOf, Visible, N.Search, N.KeyOf, O.Stored, O.ReadsBack, O.ValidKind;
      ghost var values, name := Values(), N.KeyOf(key);
      SearchVisible(index.decl, access, N.KGetter, name, 0);
      FieldNamed(index.decl, instance.struc.members, access, values, name);
      var found := index.Find(key, Some(N.KGetter), access);
      match found
      case Missing => r := NoProperty;
      case AccessError(_) => r := NoAccess;
      case Found(j) =>
        r := Written;
        SetMember(j, v);
        assert O.ValidKind(instance.struc.members[j].kind);
        O.StoredReadsBack(instance.struc.members[j].kind, v, instance.struc.truncate);
        OneChanged(index.decl, instance.struc.members, access, values, name, j,
                   O.Stored(instance.struc.members[j].kind, v, instance.struc.truncate));
    }

    ghost predicate ShowsWritten(f: Field, v: O.Val) {
      O.ValidKind(f.kind) && O.ReadsBack(f.kind, v, instance.struc.truncate, f.value)
    }

    method SetMember(j: nat, v: O.Val)
      requires Fit() && O.ValidVal(v) && j < |index.decl|
      modifies instance.data, instance.struc.staticData
      ensures Values() == old(Values())[j := O.Stored(instance.struc.members[j].kind, v, instance.struc.truncate)]
    {
      hide O.Stored, O.Decode;
      instance.Set(j, v, null);
    }

    /** Any sequence of reads and writes answers as on a plain map, and leaves the object standing for that map. */
    method Perform(ops: seq<Op>) returns (answers: seq<Answer>)
      requires Valid() && forall i :: 0 <= i < |ops| ==> ValidOp(ops[i])
      modifies instance.data, instance.struc.staticData
      ensures Valid() && (answers, Contents()) == Replies(ops, old(Contents()), instance.struc.truncate)
    {
      hide Reply, Effect, FieldsOf, O.Decode;
      ghost var truncate, all := instance.struc.truncate, Replies(ops, Contents(), instance.struc.truncate);
      answers := [];
      assert ops[0..] == ops && [] + all.0 == all.0;
      for i := 0 to |ops|
        invariant Valid()
        invariant answers + Replies(ops[i..], Contents(), truncate).0 == all.0
        invariant Replies(ops[i..], Contents(), truncate).1 == all.1
      {
        ghost var m, op := Contents(), ops[i];
        assert ops[i..][1..] == ops[i + 1..];
        var answer := Step(ops[i]);
        ghost var rest := Replies(ops[i + 1..], Contents(), truncate).0;
        assert answers + ([answer] + rest) == (answers + [answer]) + rest;
        answers := answers + [answer];
      }
      assert ops[|ops|..] == [] && answers + [] == answers;
    }

    method Step(op: Op) returns (r: Answer)
      requires Valid() && ValidOp(op)
      modifies instance.data, instance.struc.staticData
      ensures Valid() && r == Reply(op, old(Contents())) && Contents() == Effect(op, old(Contents()), instance.struc.truncate)
    {
      match op
      case Read(key) => r := Get(key);
      case Write(key, v) => r := Set(key, v);
    }
  }
}
