/** The linked list of predictions that a flow owns (jit/lib/flow.c): reading, writing, duplicating and
    merging it in place. */
module FlowLists {
  import opened Basics
  import opened Flow

  /** ptrs_predictions_t. */
  class Entry {
    var variable: nat
    var prediction: Pred
    var next: Entry?

    constructor (variable: nat, prediction: Pred)
      ensures this.variable == variable && this.prediction == prediction && this.next == null
    {
      this.variable, this.prediction, this.next := variable, prediction, null;
    }
  }

  // ---------- the map that a list of entries holds ----------

  type Row = (nat, Pred)

  ghost predicate Distinct(rows: seq<Row>) {
    forall i, j :: 0 <= i < j < |rows| ==> rows[i].0 != rows[j].0
  }

  ghost predicate Lists(rows: seq<Row>, x: nat) {
    exists i :: 0 <= i < |rows| && rows[i].0 == x
  }

  function ToMap(rows: seq<Row>): map<nat, Pred> {
    if rows == [] then map[] else ToMap(rows[1..])[rows[0].0 := rows[0].1]
  }

  lemma {:induction false} RowsMap(rows: seq<Row>, x: nat)
    requires Distinct(rows)
    ensures x in ToMap(rows) <==> Lists(rows, x)
    ensures forall i :: 0 <= i < |rows| && rows[i].0 == x ==> x in ToMap(rows) && ToMap(rows)[x] == rows[i].1
    decreases |rows|
  {
    if rows != [] {
      var rest := rows[1..];
      RowsMap(rest, x);
      if rows[0].0 == x {
        assert Lists(rows, x);
      } else {
        if Lists(rest, x) {
          var i :| 0 <= i < |rest| && rest[i].0 == x;
          assert rows[i + 1].0 == x;
        }
        forall i | 0 <= i < |rows| && rows[i].0 == x ensures x in ToMap(rows) && ToMap(rows)[x] == rows[i].1 {
          assert rest[i - 1] == rows[i];
        }
      }
    }
  }

  lemma RowsUpdate(rows: seq<Row>, at: nat, p: Pred)
    requires Distinct(rows) && at < |rows|
    ensures var x := rows[at].0;
      Distinct(rows[at := (x, p)]) && ToMap(rows[at := (x, p)]) == ToMap(rows)[x := p]
  {
    var x := rows[at].0;
    var after := rows[at := (x, p)];
    forall y: nat ensures y in ToMap(after) <==> y in ToMap(rows)[x := p]
      ensures y in ToMap(after) ==> ToMap(after)[y] == ToMap(rows)[x := p][y]
    {
      RowsMap(rows, y);
      RowsMap(after, y);
      if Lists(rows, y) {
        var i :| 0 <= i < |rows| && rows[i].0 == y;
        assert after[i].0 == y;
      }
      if Lists(after, y) {
        var i :| 0 <= i < |after| && after[i].0 == y;
        assert rows[i].0 == y;
      }
    }
  }

  lemma RowsAppend(rows: seq<Row>, x: nat, p: Pred)
    requires Distinct(rows) && x !in ToMap(rows)
    ensures Distinct(rows + [(x, p)]) && ToMap(rows + [(x, p)]) == ToMap(rows)[x := p]
  {
    RowsMap(rows, x);
    var after := rows + [(x, p)];
    assert Distinct(after) by {
      forall i, j | 0 <= i < j < |after| ensures after[i].0 != after[j].0 {
        if j == |rows| { assert after[i] == rows[i]; }
      }
    }
    forall y: nat ensures y in ToMap(after) <==> y in ToMap(rows)[x := p]
      ensures y in ToMap(after) ==> ToMap(after)[y] == ToMap(rows)[x := p][y]
    {
      RowsMap(rows, y);
      RowsMap(after, y);
      assert after[|rows|].0 == x;
      if Lists(rows, y) {
        var i :| 0 <= i < |rows| && rows[i].0 == y;
        assert after[i].0 == y;
      }
      if Lists(after, y) {
        var i :| 0 <= i < |after| && after[i].0 == y;
        assert i < |rows| ==> rows[i].0 == y;
      }
    }
  }

  /** A row's variable is not among the rows before it. */
  lemma NotYet(rows: seq<Row>, at: nat)
    requires Distinct(rows) && at < |rows|
    ensures Distinct(rows[..at]) && rows[at].0 !in ToMap(rows[..at])
  {
    RowsMap(rows[..at], rows[at].0);
  }

  lemma MergeKeys(m: map<nat, Pred>, s: map<nat, Pred>, x: nat)
    requires x !in s
    ensures x in MergeMaps(m, s) <==> x in m
    ensures x in m ==> MergeMaps(m, s)[x] == m[x]
  {
  }

  lemma FirstRows(rows: seq<Row>, at: nat)
    requires at < |rows|
    ensures rows[..at + 1] == rows[..at] + [rows[at]]
  {
  }

  lemma AllRows(rows: seq<Row>)
    ensures rows[..|rows|] == rows
  {
  }

  lemma MergeNone(m: map<nat, Pred>, rows: seq<Row>)
    ensures MergeMaps(m, ToMap(rows[..0])) == m
  {
  }

  lemma MergeStep(m: map<nat, Pred>, s: map<nat, Pred>, x: nat, p: Pred)
    requires x !in s
    ensures MergeMaps(m, s[x := p]) == MergeMaps(m, s)[x := if x in m then MergePred(m[x], p) else p]
  {
  }

  // ---------- chains of entries ----------

  ghost function At(list: seq<Entry>, i: nat): Entry? {
    if i < |list| then list[i] else null
  }

  ghost function Rows(list: seq<Entry>): (rows: seq<Row>)
    reads list
    ensures |rows| == |list| && forall i :: 0 <= i < |list| ==> rows[i] == (list[i].variable, list[i].prediction)
  {
    if list == [] then [] else [(list[0].variable, list[0].prediction)] + Rows(list[1..])
  }

  /** `list` is the chain of entries from `first` on, and no variable has two entries. */
  ghost predicate Chain(first: Entry?, list: seq<Entry>)
    reads list
  {
    && first == At(list, 0)
    && (forall i :: 0 <= i < |list| ==> list[i].next == At(list, i + 1))
    && Distinct(Rows(list))
  }

  lemma ChainDistinct(first: Entry?, list: seq<Entry>)
    requires Chain(first, list)
    ensures forall i, j :: 0 <= i < j < |list| ==> list[i] != list[j]
  {
    var rows := Rows(list);
    forall i, j | 0 <= i < j < |list| ensures list[i] != list[j] {
      assert rows[i].0 != rows[j].0;
    }
  }

  lemma ChainLinks(first: Entry?, list: seq<Entry>)
    requires Chain(first, list)
    ensures first == At(list, 0) && |Rows(list)| == |list| && Distinct(Rows(list))
    ensures forall i :: 0 <= i < |list| ==> list[i].next == At(list, i + 1)
    ensures forall i :: 0 <= i < |list| ==> Rows(list)[i] == (list[i].variable, list[i].prediction)
  {
  }

  /** ptrs_flow_t. */
  class FlowState {
    var dryRun: bool
    var endsInDead: bool
    var predictions: Entry?
    ghost var list: seq<Entry>

    ghost predicate Valid()
      reads this, list
    {
      Chain(predictions, list)
    }

    ghost function Contents(): map<nat, Pred>
      reads this, list
    {
      ToMap(Rows(list))
    }

    /** The state of the analysis that this flow stands for. */
    ghost function Abs(): State
      reads this, list
    {
      State(dryRun, endsInDead, Contents(), 0)
    }

    constructor (dryRun: bool)
      ensures Valid() && list == [] && Abs() == State(dryRun, false, map[], 0)
    {
      this.dryRun, endsInDead, predictions, list := dryRun, false, null, [];
    }

    /** The entry of a variable, and the last entry before it. */
    method Find(x: nat) returns (e: Entry?, last: Entry?, ghost at: nat)
      requires Valid()
      ensures at <= |list| && e == At(list, at) && last == (if at == 0 then null else list[at - 1])
      ensures e != null ==> e.variable == x && x in Contents() && Contents()[x] == e.prediction
      ensures e == null ==> at == |list| && x !in Contents()
    {
      e, last, at := predictions, null, 0;
      while e != null && e.variable != x
        invariant at <= |list| && e == At(list, at)
        invariant last == (if at == 0 then null else list[at - 1])
        invariant forall i :: 0 <= i < at ==> list[i].variable != x
        decreases |list| - at
      {
        e, last, at := e.next, e, at + 1;
      }
      RowsMap(Rows(list), x);
      if e != null {
        assert Rows(list)[at].0 == x;
      }
    }

    /** getVariablePrediction. */
    method GetPrediction(x: nat) returns (p: Pred)
      requires Valid()
      ensures p == Get(Abs(), x)
    {
      if dryRun {
        return UNKNOWN;
      }
      var e, _, at := Find(x);
      p := if e != null then e.prediction else UNKNOWN;
    }

    /** setVariablePrediction. */
    method SetPrediction(x: nat, prediction: Pred)
      requires Valid()
      modifies this`predictions, this`list, list
      ensures Valid() && Abs() == Put(old(Abs()), x, prediction)
      ensures old(list) <= list && fresh(list[|old(list)|..])
    {
      var p := if dryRun then UNKNOWN else prediction;
      var e, last, at := Find(x);
      if e != null {
        ReplaceAt(e, at, p);
      } else {
        var _ := AppendAt(last, x, p);
      }
    }

    method ReplaceAt(e: Entry, ghost at: nat, p: Pred)
      requires Valid() && at < |list| && e == list[at]
      modifies e`prediction
      ensures Valid() && Contents() == old(Contents())[e.variable := p]
    {
      hide Distinct, ToMap, Rows;
      ghost var rows := Rows(list);
      ChainDistinct(predictions, list);
      e.prediction := p;
      RowsUpdate(rows, at, p);
      assert Rows(list) == rows[at := (e.variable, p)];
    }

    method AppendAt(last: Entry?, x: nat, p: Pred) returns (added: Entry)
      requires Valid() && x !in Contents() && last == (if |list| == 0 then null else list[|list| - 1])
      modifies this`predictions, this`list, last
      ensures Valid() && Contents() == old(Contents())[x := p] && Rows(list) == old(Rows(list)) + [(x, p)]
      ensures list == old(list) + [added] && fresh(added) && dryRun == old(dryRun) && endsInDead == old(endsInDead)
    {
      hide Distinct, ToMap;
      ghost var rows := Rows(list);
      ChainDistinct(predictions, list);
      added := new Entry(x, p);
      if last == null {
        predictions := added;
      } else {
        last.next := added;
      }
      list := list + [added];
      RowsAppend(rows, x, p);
      assert Rows(list) == rows + [(x, p)];
    }

    /** dupFlow. */
    method Dup() returns (copy: FlowState)
      requires Valid()
      ensures copy.Valid() && fresh(copy) && fresh(copy.list) && copy.Abs() == Abs()
    {
      hide Distinct, ToMap, Rows, Chain;
      copy := new FlowState(dryRun);
      copy.endsInDead := endsInDead;
      copy.CopyFrom(this);
    }

    method CopyFrom(src: FlowState)
      requires Valid() && list == [] && src != this && src.Valid()
      modifies this`predictions, this`list
      ensures Valid() && fresh(list) && Rows(list) == Rows(src.list)
      ensures dryRun == old(dryRun) && endsInDead == old(endsInDead)
    {
      hide Distinct, ToMap, Rows, Chain;
      ChainLinks(src.predictions, src.list);
      ghost var rows := Rows(src.list);
      var curr, last: Entry? := src.predictions, null;
      ghost var at := 0;
      while curr != null
        invariant fresh(list) && dryRun == old(dryRun) && endsInDead == old(endsInDead)
        invariant at == |list| <= |rows| && curr == At(src.list, at)
        invariant last == (if at == 0 then null else list[at - 1])
        invariant Valid() && Rows(list) == rows[..at]
        decreases |rows| - at
      {
        NotYet(rows, at);
        FirstRows(rows, at);
        last := AppendAt(last, curr.variable, curr.prediction);
        curr, at := curr.next, at + 1;
      }
      AllRows(rows);
    }

    /** mergePredictions: the entries of the other flow are merged into this one's, or moved over. */
    method MergeFrom(src: FlowState)
      requires Valid() && src.Valid() && src != this && (forall e :: e in list ==> e !in src.list)
      modifies this, list, src.list
      ensures Valid() && Abs() == Merge(old(Abs()), old(src.Abs()))
    {
      hide Distinct, ToMap, Rows, MergeMaps;
      if dryRun || src.dryRun {
        return;
      }
      if endsInDead {
        predictions, list, endsInDead := src.predictions, src.list, src.endsInDead;
        return;
      }
      if src.endsInDead {
        return;
      }
      MergeLists(src, (set e | e in list) + (set e | e in src.list));
    }

    method MergeLists(src: FlowState, ghost entries: set<Entry>)
      requires Valid() && src.Valid() && src != this && (forall e :: e in list ==> e !in src.list)
      requires forall e :: e in list || e in src.list ==> e in entries
      modifies this`predictions, this`list, entries
      ensures Valid() && Contents() == MergeMaps(old(Contents()), old(src.Contents()))
    {
      hide Distinct, ToMap, MergeMaps;
      ghost var m, theirs, rest := Contents(), Rows(src.list), src.list;
      ChainDistinct(src.predictions, src.list);
      var curr := src.predictions;
      ghost var at := 0;
      MergeNone(m, theirs);
      while curr != null
        invariant at <= |theirs| == |rest| && curr == At(rest, at)
        invariant Valid()
        invariant forall i :: at <= i < |rest| ==> rest[i] !in list
        invariant forall i :: at <= i < |rest| ==> rest[i].next == At(rest, i + 1)
        invariant forall i :: at <= i < |rest| ==> (rest[i].variable, rest[i].prediction) == theirs[i]
        invariant Contents() == MergeMaps(m, ToMap(theirs[..at]))
        invariant forall e :: e in list ==> e in entries
        decreases |rest| - at
      {
        var next := curr.next;
        ghost var x, p := curr.variable, curr.prediction;
        NotYet(theirs, at);
        FirstRows(theirs, at);
        RowsAppend(theirs[..at], x, p);
        MergeStep(m, ToMap(theirs[..at]), x, p);
        MergeKeys(m, ToMap(theirs[..at]), x);
        MergeOne(curr);
        curr, at := next, at + 1;
      }
      AllRows(theirs);
    }

    /** One entry of the other list. */
    method MergeOne(src: Entry)
      requires Valid() && src !in list
      modifies this`predictions, this`list, list, src
      ensures Valid() && (list == old(list) || list == [src] + old(list))
      ensures src.variable == old(src.variable)
      ensures var x := src.variable;
        Contents() == old(Contents())[x :=
          if x in old(Contents()) then MergePred(old(Contents())[x], old(src.prediction)) else old(src.prediction)]
    {
      var e, _, at := Find(src.variable);
      if e != null {
        ReplaceAt(e, at, MergePred(e.prediction, src.prediction));
      } else {
        Prepend(src);
      }
    }

    method Prepend(e: Entry)
      requires Valid() && e !in list && e.variable !in Contents()
      modifies this`predictions, this`list, e`next
      ensures Valid() && list == [e] + old(list) && Contents() == old(Contents())[e.variable := e.prediction]
    {
      ghost var rows := Rows(list);
      ghost var before := list;
      RowsMap(rows, e.variable);
      e.next := predictions;
      predictions := e;
      list := [e] + list;
      assert Rows(before) == rows;
      assert Rows(list) == [(e.variable, e.prediction)] + rows;
      assert Rows(list)[1..] == rows;
      assert Distinct(Rows(list)) by {
        forall i, j | 0 <= i < j < |Rows(list)| ensures Rows(list)[i].0 != Rows(list)[j].0 {
          assert Rows(list)[j] == rows[j - 1];
          if i == 0 { assert Lists(rows, rows[j - 1].0); }
        }
      }
    }
  }
}
