/** String interpolation: a literal with insertions becomes a format for snprintf (parser/ast.c, readString;
    jit/specialexpr.c, ptrs_handle_stringformat). */
module FormatString {
  import opened Basics

  /** What stands between the quotes: a character, written as it is or by an escape sequence, or an insertion
      `$name` or `${expr}`. */
  datatype Item = Char(c: char, escaped: bool) | Insert(id: nat)

  // ---------- what the literal means ----------

  /** The text, with the stringified pieces in place of the insertions; `k` insertions came before. */
  function Text(items: seq<Item>, pieces: seq<string>, k: nat): string
    requires k + Inserts(items) <= |pieces|
  {
    if items == [] then ""
    else match items[0]
      case Char(c, _) => [c] + Text(items[1..], pieces, k)
      case Insert(_) => pieces[k] + Text(items[1..], pieces, k + 1)
  }

  function Inserts(items: seq<Item>): nat {
    if items == [] then 0 else (if items[0].Insert? then 1 else 0) + Inserts(items[1..])
  }

  /** The inserted expressions, in order. */
  function Ids(items: seq<Item>): (r: seq<nat>)
    ensures |r| == Inserts(items)
  {
    if items == [] then [] else (if items[0].Insert? then [items[0].id] else []) + Ids(items[1..])
  }

  // ---------- what the parser makes of it ----------

  /** insertionMode. */
  datatype Mode = Start | HadPercent | Inserting

  /** The characters that are put into the buffer for an item. */
  function Put(item: Item, mode: Mode): string {
    match item
    case Char(c, escaped) => if c == '%' && !escaped && mode == Inserting then "%%" else [c]
    case Insert(_) => "%s"
  }

  function Next(item: Item, mode: Mode): Mode {
    match item
    case Char(c, escaped) => if c == '%' && !escaped && mode == Start then HadPercent else mode
    case Insert(_) => Inserting
  }

  /** "String insertions cannot come after % in a string" */
  predicate Refused(item: Item, mode: Mode) {
    item.Insert? && mode == HadPercent
  }

  function Format(items: seq<Item>, mode: Mode): Option<string> {
    if items == [] then Some("")
    else if Refused(items[0], mode) then None
    else
      var rest := Format(items[1..], Next(items[0], mode));
      if rest.None? then None else Some(Put(items[0], mode) + rest.value)
  }

  /** The insertions of a literal are refused exactly when a plain `%` stands before the first of them. */
  ghost predicate PercentFirst(items: seq<Item>) {
    exists i, j :: 0 <= i < j < |items| && items[i] == Char('%', false) && items[j].Insert?
      && forall k :: 0 <= k < i ==> items[k].Char?
  }

  lemma {:induction false} FormatExists(items: seq<Item>, mode: Mode)
    ensures mode == Inserting ==> Format(items, mode).Some?
    ensures mode == HadPercent ==> (Format(items, mode).Some? <==> Inserts(items) == 0)
    ensures mode == Start ==> (Format(items, mode).Some? <==> !PercentFirst(items))
    decreases |items|
  {
    if items != [] {
      var rest := items[1..];
      FormatExists(rest, Next(items[0], mode));
      if mode == Start {
        StartFacts(items);
      }
    }
  }

  lemma {:induction false} NoInserts(items: seq<Item>)
    ensures Inserts(items) == 0 <==> forall i :: 0 <= i < |items| ==> items[i].Char?
    decreases |items|
  {
    if items != [] {
      NoInserts(items[1..]);
      assert forall i :: 1 <= i < |items| ==> items[i] == items[1..][i - 1];
    }
  }

  lemma StartFacts(items: seq<Item>)
    requires items != []
    ensures items[0].Insert? ==> !PercentFirst(items)
    ensures items[0] == Char('%', false) ==> (PercentFirst(items) <==> Inserts(items[1..]) != 0)
    ensures items[0].Char? && items[0] != Char('%', false) ==> (PercentFirst(items) <==> PercentFirst(items[1..]))
  {
    var rest := items[1..];
    NoInserts(rest);
    assert forall i :: 1 <= i < |items| ==> items[i] == rest[i - 1];
    if items[0] == Char('%', false) && Inserts(rest) != 0 {
      var j :| 0 <= j < |rest| && !rest[j].Char?;
      assert items[j + 1].Insert?;
    }
    if items[0].Char? && PercentFirst(rest) {
      var i, j :| 0 <= i < j < |rest| && rest[i] == Char('%', false) && rest[j].Insert?
        && forall k :: 0 <= k < i ==> rest[k].Char?;
      assert items[i + 1] == Char('%', false) && items[j + 1].Insert?;
    }
    if items[0].Char? && items[0] != Char('%', false) && PercentFirst(items) {
      var i, j :| 0 <= i < j < |items| && items[i] == Char('%', false) && items[j].Insert?
        && forall k :: 0 <= k < i ==> items[k].Char?;
      assert rest[i - 1] == Char('%', false) && rest[j - 1].Insert?;
      assert forall k :: 0 <= k < i - 1 ==> rest[k].Char?;
    }
  }

  // ---------- what snprintf makes of that ----------

  /** The formats that occur: text up to the terminator, `%%`, and `%s` for the next argument.  Anything else
      after a `%` has no meaning here. */
  function Expand(fmt: string, args: seq<string>): Option<string> {
    if fmt == "" || fmt[0] == '\0' then Some("")
    else if fmt[0] != '%' then
      var rest := Expand(fmt[1..], args);
      if rest.None? then None else Some([fmt[0]] + rest.value)
    else if |fmt| > 1 && fmt[1] == '%' then
      var rest := Expand(fmt[2..], args);
      if rest.None? then None else Some("%" + rest.value)
    else if |fmt| > 1 && fmt[1] == 's' && args != [] then
      var rest := Expand(fmt[2..], args[1..]);
      if rest.None? then None else Some(args[0] + rest.value)
    else None
  }

  /** No escape sequence stands for `%`, and none for the terminator. */
  predicate PlainEscapes(items: seq<Item>) {
    forall i :: 0 <= i < |items| && items[i].Char? ==> items[i].c != '\0' && (items[i].c == '%' ==> !items[i].escaped)
  }

  /** In a literal that has had an insertion, `%` is doubled; before the first insertion there is none. */
  lemma {:induction false} ExpandFormat(items: seq<Item>, mode: Mode, pieces: seq<string>, k: nat)
    requires PlainEscapes(items) && k + Inserts(items) <= |pieces| && Format(items, mode).Some?
    requires mode == Inserting || (mode == Start && Inserts(items) > 0)
    ensures Expand(Format(items, mode).value, pieces[k..]) == Some(Text(items, pieces, k))
    decreases |items|
  {
    if items != [] {
      var item, rest, next := items[0], items[1..], Next(items[0], mode);
      FormatExists(rest, next);
      var f := Format(rest, next).value;
      var fmt := Format(items, mode).value;
      assert fmt == Put(item, mode) + f;
      assert PlainEscapes(rest) by {
        assert forall i :: 0 <= i < |rest| ==> rest[i] == items[i + 1];
      }
      if item.Insert? {
        ExpandFormat(rest, next, pieces, k + 1);
        assert fmt[2..] == f && pieces[k..][0] == pieces[k] && pieces[k..][1..] == pieces[k + 1..];
      } else {
        ExpandFormat(rest, next, pieces, k);
        if item.c == '%' {
          assert fmt[2..] == f;
        } else {
          assert fmt[1..] == f;
        }
      }
    }
  }

  /** The value of a literal: without insertions the buffer itself, else the expansion of its format. */
  function Value(items: seq<Item>, pieces: seq<string>): Option<string> {
    var f := Format(items, Start);
    if f.None? then None
    else if Inserts(items) == 0 then f
    else Expand(f.value, pieces)
  }

  lemma {:induction false} PlainFormat(items: seq<Item>, mode: Mode, pieces: seq<string>, k: nat)
    requires Inserts(items) == 0 && mode != Inserting && k <= |pieces|
    ensures Format(items, mode) == Some(Text(items, pieces, k))
    decreases |items|
  {
    if items != [] {
      PlainFormat(items[1..], Next(items[0], mode), pieces, k);
    }
  }

  /** Interpolation is faithful: for every literal that is not refused, the value is the literal text with the
      stringified pieces in place. */
  lemma Faithful(items: seq<Item>, pieces: seq<string>)
    requires Inserts(items) <= |pieces| && (PlainEscapes(items) || Inserts(items) == 0)
    ensures Value(items, pieces) == if PercentFirst(items) then None else Some(Text(items, pieces, 0))
  {
    FormatExists(items, Start);
    if Inserts(items) == 0 {
      NoInserts(items);
      PlainFormat(items, Start, pieces, 0);
    } else if !PercentFirst(items) {
      ExpandFormat(items, Start, pieces, 0);
      assert pieces[0..] == pieces;
    }
  }

  // ---------- and for exactly which literals ----------

  function Percents(s: string): nat {
    if s == "" then 0 else (if s[0] == '%' then 1 else 0) + Percents(s[1..])
  }

  /** How often `%` stands in a literal, as itself or by an escape sequence. */
  function Signs(items: seq<Item>, escaped: bool): nat {
    if items == [] then 0 else (if items[0] == Char('%', escaped) then 1 else 0) + Signs(items[1..], escaped)
  }

  lemma {:induction false} SignsFound(items: seq<Item>, i: nat)
    requires i < |items| && items[i] == Char('%', true)
    ensures Signs(items, true) > 0
  {
    if i > 0 {
      SignsFound(items[1..], i - 1);
    }
  }

  lemma {:induction false} PercentsJoin(a: string, b: string)
    ensures Percents(a + b) == Percents(a) + Percents(b)
  {
    if a == "" {
      assert a + b == b;
    } else {
      PercentsJoin(a[1..], b);
      assert (a + b)[1..] == a[1..] + b;
    }
  }

  /** The format has one `%` for every escaped one and for every insertion, and two for every plain one. */
  lemma {:induction false} FormatPercents(items: seq<Item>, mode: Mode)
    requires Format(items, mode).Some? && (mode == Inserting || (mode == Start && Inserts(items) > 0))
    ensures Percents(Format(items, mode).value) == Signs(items, true) + 2 * Signs(items, false) + Inserts(items)
    decreases |items|
  {
    if items != [] {
      var rest, next := items[1..], Next(items[0], mode);
      FormatExists(rest, next);
      FormatPercents(rest, next);
      PercentsJoin(Put(items[0], mode), Format(rest, next).value);
      var put := Put(items[0], mode);
      assert put == "%%" || put == "%s" || |put| == 1;
      assert "%%"[1..] == "%" && "%"[1..] == "" && "%s"[1..] == "s" && "s"[1..] == "";
      assert |put| == 1 ==> put[1..] == "";
    }
  }

  lemma {:induction false} TextPercents(items: seq<Item>, pieces: seq<string>, k: nat)
    requires k + Inserts(items) <= |pieces| && forall i :: 0 <= i < |pieces| ==> Percents(pieces[i]) == 0
    ensures Percents(Text(items, pieces, k)) == Signs(items, true) + Signs(items, false)
    decreases |items|
  {
    if items != [] {
      match items[0]
      case Char(c, _) =>
        TextPercents(items[1..], pieces, k);
        PercentsJoin([c], Text(items[1..], pieces, k));
        assert [c][1..] == "";
      case Insert(_) =>
        TextPercents(items[1..], pieces, k + 1);
        PercentsJoin(pieces[k], Text(items[1..], pieces, k + 1));
    }
  }

  lemma {:induction false} TextLong(items: seq<Item>, pieces: seq<string>, k: nat, i: nat)
    requires k + Inserts(items) <= |pieces| && k <= i < k + Inserts(items)
    ensures |Text(items, pieces, k)| >= |pieces[i]|
    decreases |items|
  {
    if items[0].Char? {
      TextLong(items[1..], pieces, k, i);
    } else if k < i {
      TextLong(items[1..], pieces, k + 1, i);
    }
  }

  /** An expansion uses the `%` of its format in pairs, of which one is printed, and singly, for the `q`
      arguments it takes. */
  lemma {:induction false} ExpandPercents(fmt: string, args: seq<string>) returns (q: nat)
    requires Expand(fmt, args).Some? && '\0' !in fmt && forall i :: 0 <= i < |args| ==> Percents(args[i]) == 0
    ensures q <= |args| && Percents(fmt) == 2 * Percents(Expand(fmt, args).value) + q
    ensures (forall i :: 0 <= i < q ==> args[i] == "") ==> |Expand(fmt, args).value| <= |fmt|
    decreases |fmt|
  {
    if fmt == "" {
      q := 0;
    } else if fmt[0] != '%' {
      q := ExpandPercents(fmt[1..], args);
      PercentsJoin([fmt[0]], Expand(fmt[1..], args).value);
      assert [fmt[0]][1..] == "";
    } else if fmt[1] == '%' {
      q := ExpandPercents(fmt[2..], args);
      assert fmt[1..][1..] == fmt[2..] && "%"[1..] == "";
      PercentsJoin("%", Expand(fmt[2..], args).value);
    } else {
      var n := ExpandPercents(fmt[2..], args[1..]);
      q := n + 1;
      assert fmt[1..][1..] == fmt[2..];
      PercentsJoin(args[0], Expand(fmt[2..], args[1..]).value);
      assert forall i :: 0 <= i < n ==> args[1..][i] == args[i + 1];
    }
  }

  lemma {:induction false} ExpandEnds(fmt: string, args: seq<string>)
    requires Expand(fmt, args).Some? && forall i :: 0 <= i < |args| ==> '\0' !in args[i]
    ensures '\0' !in Expand(fmt, args).value
    decreases |fmt|
  {
    if fmt != "" && fmt[0] != '\0' {
      if fmt[0] != '%' {
        ExpandEnds(fmt[1..], args);
      } else if fmt[1] == '%' {
        ExpandEnds(fmt[2..], args);
      } else {
        ExpandEnds(fmt[2..], args[1..]);
      }
    }
  }

  lemma {:induction false} TextEnds(items: seq<Item>, pieces: seq<string>, k: nat, i: nat)
    requires k + Inserts(items) <= |pieces| && i < |items| && items[i].Char? && items[i].c == '\0'
    ensures '\0' in Text(items, pieces, k)
    decreases |items|
  {
    if i > 0 {
      TextEnds(items[1..], pieces, if items[0].Char? then k else k + 1, i - 1);
    }
  }

  lemma {:induction false} FormatEnds(items: seq<Item>, mode: Mode)
    requires Format(items, mode).Some? && forall i :: 0 <= i < |items| && items[i].Char? ==> items[i].c != '\0'
    ensures '\0' !in Format(items, mode).value
    decreases |items|
  {
    if items != [] {
      FormatEnds(items[1..], Next(items[0], mode));
      assert '\0' !in Put(items[0], mode);
    }
  }

  /** Pieces that tell: all are empty but the last one, which is longer than the format. */
  function Telling(n: nat, long: nat): (r: seq<string>)
    requires n > 0
    ensures |r| == n && |r[n - 1]| == long && forall i :: 0 <= i < n - 1 ==> r[i] == ""
    ensures forall i :: 0 <= i < n ==> '%' !in r[i] && '\0' !in r[i]
  {
    seq(n - 1, _ => "") + [seq(long, _ => 'a')]
  }

  lemma {:induction false} NoPercents(s: string)
    requires '%' !in s
    ensures Percents(s) == 0
  {
    if s != "" {
      NoPercents(s[1..]);
    }
  }

  /** An escape sequence that stands for `%` is not doubled, and one that stands for the terminator cuts the
      format off: then some pieces come out wrong. */
  lemma SomePiecesWrong(items: seq<Item>) returns (pieces: seq<string>)
    requires !PercentFirst(items) && Inserts(items) > 0 && !PlainEscapes(items)
    ensures |pieces| == Inserts(items) && Value(items, pieces) != Some(Text(items, pieces, 0))
  {
    FormatExists(items, Start);
    var fmt := Format(items, Start).value;
    var n := Inserts(items);
    pieces := Telling(n, |fmt| + 1);
    if Value(items, pieces).Some? {
      var text := Text(items, pieces, 0);
      if i :| 0 <= i < |items| && items[i].Char? && items[i].c == '\0' {
        TextEnds(items, pieces, 0, i);
        ExpandEnds(fmt, pieces);
      } else {
        var i :| 0 <= i < |items| && items[i] == Char('%', true);
        SignsFound(items, i);
        forall k | 0 <= k < n ensures Percents(pieces[k]) == 0 {
          NoPercents(pieces[k]);
        }
        FormatPercents(items, Start);
        TextPercents(items, pieces, 0);
        FormatEnds(items, Start);
        TextLong(items, pieces, 0, n - 1);
        var q := ExpandPercents(fmt, pieces);
        assert Value(items, pieces) == Some(text) ==> q < n;
      }
    }
  }

  /** Interpolation is faithful for all pieces exactly for the literals without insertions and those in which no
      escape sequence stands for `%` or for the terminator. */
  lemma FaithfulExact(items: seq<Item>)
    requires !PercentFirst(items)
    ensures (forall pieces: seq<string> :: |pieces| == Inserts(items) ==> Value(items, pieces) == Some(Text(items, pieces, 0)))
      <==> (Inserts(items) == 0 || PlainEscapes(items))
  {
    if Inserts(items) == 0 || PlainEscapes(items) {
      forall pieces: seq<string> | |pieces| == Inserts(items) ensures Value(items, pieces) == Some(Text(items, pieces, 0)) {
        Faithful(items, pieces);
      }
    } else {
      var pieces := SomePiecesWrong(items);
    }
  }

  /** An instance: `\x25s$x` takes its piece at the wrong place, whatever the piece is. */
  lemma EscapedPercent(piece: string)
    ensures var items := [Char('%', true), Char('s', false), Insert(0)];
      !PercentFirst(items) && Value(items, [piece]) != Some(Text(items, [piece], 0))
  {
    var items := [Char('%', true), Char('s', false), Insert(0)];
    assert items[1..] == [Char('s', false), Insert(0)] && items[1..][1..] == [Insert(0)] && items[1..][1..][1..] == [];
    assert "%s" + "" == "%s" && [Insert(0)][1..] == [];
    assert Format([Insert(0)], Start) == Some("%s");
    assert "s" + "%s" == "s%s" && "%" + "s%s" == "%s%s";
    assert [Char('s', false), Insert(0)][1..] == [Insert(0)];
    assert Format([Char('s', false), Insert(0)], Start) == Some("s%s");
    assert Format(items, Start) == Some("%s%s");
    assert "%s%s"[2..] == "%s" && [piece][1..] == [];
    assert Expand("%s", []) == None;
    assert Expand("%s%s", [piece]) == None;
  }

  // ---------- the parser's loop ----------

  function Join(parts: seq<seq<Item>>): seq<Item> {
    if parts == [] then [] else parts[0] + Join(parts[1..])
  }

  /** The buffer of readString, which is replaced by one of twice its size before it can overflow. */
  class Buffer {
    var buff: array<char>
    var i: nat

    ghost predicate Valid()
      reads this
    {
      buff.Length >= 32 && i + 3 <= buff.Length
    }

    ghost function Contents(): string
      requires Valid()
      reads this, buff
    {
      buff[..i]
    }

    constructor ()
      ensures Valid() && Contents() == "" && fresh(buff)
    {
      buff, i := new char[32], 0;
    }

    method Add(s: string)
      requires Valid() && |s| <= 2
      modifies this, buff
      ensures Valid() && Contents() == old(Contents()) + s && (buff == old(buff) || fresh(buff))
    {
      var j := 0;
      while j < |s|
        invariant 0 <= j <= |s| && i == old(i) + j && buff == old(buff) && old(i) + 3 <= buff.Length
        invariant buff[..i] == old(buff[..i]) + s[..j]
      {
        buff[i] := s[j];
        i, j := i + 1, j + 1;
      }
      assert s[..j] == s;
      if i > buff.Length - 3 {
        Grow();
      }
    }

    method Grow()
      requires 32 <= buff.Length && i <= buff.Length
      modifies this`buff
      ensures buff.Length == 2 * old(buff.Length) && fresh(buff) && buff[..i] == old(buff[..i])
    {
      var bigger := new char[buff.Length * 2];
      var k := 0;
      while k < i
        modifies bigger
        invariant 0 <= k <= i
        invariant bigger[..k] == buff[..k]
      {
        bigger[k] := buff[k];
        k := k + 1;
      }
      buff := bigger;
    }
  }

  /** readString over adjacent literals: the format, and the inserted expressions in order; or nothing, when
      an insertion is refused. */
  method ReadString(parts: seq<seq<Item>>) returns (fmt: Option<string>, insertions: seq<nat>)
    ensures fmt == Format(Join(parts), Start)
    ensures fmt.Some? ==> insertions == Ids(Join(parts))
  {
    hide Format, Behind, Ids, Join, Put, Next;
    var buffer := new Buffer();
    var mode := Start;
    insertions := [];
    BehindEnds(Join(parts), mode);
    var p := 0;
    ghost var goal, ids := Format(Join(parts), Start), Ids(Join(parts));
    assert parts[0..] == parts;
    while p < |parts|
      invariant 0 <= p <= |parts| && buffer.Valid() && fresh(buffer) && fresh(buffer.buff)
      invariant Behind(buffer.Contents(), Join(parts[p..]), mode) == goal
      invariant insertions + Ids(Join(parts[p..])) == ids
    {
      var items := parts[p];
      ghost var rest := Join(parts[p + 1..]);
      assert parts[p..][1..] == parts[p + 1..];
      JoinNext(parts, p);
      assert items[0..] == items;
      var i := 0;
      while i < |items|
        invariant 0 <= i <= |items| && buffer.Valid() && fresh(buffer) && fresh(buffer.buff)
        invariant Behind(buffer.Contents(), items[i..] + rest, mode) == goal
        invariant insertions + Ids(items[i..] + rest) == ids
      {
        assert (items[i..] + rest)[0] == items[i] && (items[i..] + rest)[1..] == items[i + 1..] + rest;
        BehindNext(buffer.Contents(), items[i..] + rest, mode);
        if items[i].Insert? {
          if mode == HadPercent {
            return None, [];
          }
          insertions := insertions + [items[i].id];
        }
        buffer.Add(Put(items[i], mode));
        mode := Next(items[i], mode);
        i := i + 1;
      }
      assert items[i..] + rest == rest;
      p := p + 1;
    }
    JoinNext(parts, p);
    BehindDone(buffer.Contents(), mode);
    fmt := Some(buffer.buff[..buffer.i]);
  }

  /** The whole format, when `done` is written already. */
  function Behind(done: string, items: seq<Item>, mode: Mode): Option<string> {
    var f := Format(items, mode);
    if f.None? then None else Some(done + f.value)
  }

  lemma BehindEnds(items: seq<Item>, mode: Mode)
    ensures Behind("", items, mode) == Format(items, mode)
  {
    var f := Format(items, mode);
    if f.Some? {
      assert "" + f.value == f.value;
    }
  }

  lemma BehindDone(done: string, mode: Mode)
    ensures Behind(done, [], mode) == Some(done) && Ids([]) == []
  {
    assert done + "" == done;
  }

  lemma JoinNext(parts: seq<seq<Item>>, p: nat)
    requires p <= |parts|
    ensures Join(parts[p..]) == if p < |parts| then parts[p] + Join(parts[p + 1..]) else []
  {
    if p < |parts| { assert parts[p..][1..] == parts[p + 1..]; }
  }

  lemma BehindNext(done: string, items: seq<Item>, mode: Mode)
    requires items != []
    ensures Ids(items) == (if items[0].Insert? then [items[0].id] else []) + Ids(items[1..]) && |Put(items[0], mode)| <= 2
    ensures Behind(done, items, mode) ==
      if Refused(items[0], mode) then None else Behind(done + Put(items[0], mode), items[1..], Next(items[0], mode))
  {
    var f := Format(items[1..], Next(items[0], mode));
    if !Refused(items[0], mode) && f.Some? {
      assert done + (Put(items[0], mode) + f.value) == (done + Put(items[0], mode)) + f.value;
    }
  }
}
