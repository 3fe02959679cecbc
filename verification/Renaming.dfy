/**
 * The table of unique strings behind the output filter prrte/debug/tcfilter.c: every
 * process id, namespace and host found in the text is replaced by a tag with the
 * string's number, so that two runs can be compared. The matches themselves come
 * from regular expressions and are taken as given.
 */
module Renaming {
  import opened CStrings

  const ARRAY_MAX := 100

  // What a run of calls of replace_text ends in: the numbers used, or exit(1).
  datatype Outcome = Exit | Numbers(indices: seq<nat>)

  // The strings of a sequence of matches in order of first occurrence.
  function Firsts(matches: seq<string>): (table: seq<string>)
  {
    if matches == [] then []
    else
      var before := Firsts(matches[..|matches| - 1]);
      var m := matches[|matches| - 1];
      if m in before then before else before + [m]
  }

  // The place of a string in the table, or the table's size.
  function PlaceOf(table: seq<string>, m: string): (i: nat)
    ensures i <= |table|
    ensures i < |table| ==> table[i] == m
    ensures forall j | 0 <= j < i :: table[j] != m
  {
    if table == [] || table[0] == m then 0 else 1 + PlaceOf(table[1..], m)
  }

  // One call of replace_text: full tables end the program, known strings or not.
  datatype Call = Fail | Found(index: nat, table: seq<string>)

  function Assign(table: seq<string>, m: string): (r: Call)
  {
    if |table| == ARRAY_MAX then Fail
    else
      var i := PlaceOf(table, m);
      Found(i, if i == |table| then table + [m] else table)
  }

  // The calls for a sequence of matches, on an empty table.
  function Run(matches: seq<string>): (r: (Outcome, seq<string>))
  {
    if matches == [] then (Numbers([]), [])
    else
      var (before, table) := Run(matches[..|matches| - 1]);
      match before
      case Exit => (Exit, table)
      case Numbers(indices) =>
        match Assign(table, matches[|matches| - 1])
        case Fail => (Exit, table)
        case Found(index, table') => (Numbers(indices + [index]), table')
  }

  function Indices(matches: seq<string>): (r: Outcome) { Run(matches).0 }

  // ---------- the text ----------

  function Tag(prefix: string, index: nat): (t: string)
  {
    "@" + prefix + "<" + Decimal(index) + ">"
  }

  // A text with the stretch from `so` to `eo` replaced.
  function Replaced(text: string, so: nat, eo: nat, tag: string): (t: string)
    requires so <= eo <= |text|
  {
    text[..so] + tag + text[eo..]
  }

  // The text before and behind the stretch is untouched, and the tag stands between.
  predicate InputReads(was: string, now: string, so: nat, eo: nat, tag: string)
    requires so <= eo <= |was|
  {
    && |now| == so + |tag| + (|was| - eo)
    && now[..so] == was[..so] && now[so..so + |tag|] == tag && now[so + |tag|..] == was[eo..]
  }

  // The match has number i: its place in the table, at the end of which it is put if it is new.
  predicate NumberOf(was: seq<string>, now: seq<string>, m: string, i: nat)
  {
    && i < |now| && now[i] == m && was <= now
    && (forall j | 0 <= j < i :: now[j] != m)
    && |now| == |was| + if m in was then 0 else 1
  }

  lemma ReplacedReads(text: string, so: nat, eo: nat, tag: string)
    requires so <= eo <= |text|
    ensures InputReads(text, Replaced(text, so, eo, tag), so, eo, tag)
  {
    assert Replaced(text, so, eo, tag)[..so] == text[..so];
    assert Replaced(text, so, eo, tag)[so..so + |tag|] == tag;
  }

  /** A call on a table that is not full: the number of the match, and what becomes of the table. */
  lemma AssignExact(table: seq<string>, m: string)
    ensures Assign(table, m) == Fail <==> |table| == ARRAY_MAX
    ensures |table| != ARRAY_MAX ==>
              var c := Assign(table, m); NumberOf(table, c.table, m, c.index)
  {
    var i := PlaceOf(table, m);
    if i == |table| {
      assert m !in table;
    }
  }

  /** Tags with the same prefix are the same exactly when the numbers are. */
  lemma TagsDistinct(prefix: string, i: nat, j: nat)
    requires i <= LONG_MAX && j <= LONG_MAX
    ensures Tag(prefix, i) == Tag(prefix, j) <==> i == j
  {
    if Tag(prefix, i) == Tag(prefix, j) {
      var head := |prefix| + 2;
      assert Tag(prefix, i)[head..] == Decimal(i) + ">";
      assert Tag(prefix, j)[head..] == Decimal(j) + ">";
      StrtolDecimal(i, ">");
      StrtolDecimal(j, ">");
    }
  }

  class Filter {
    var input: string
    var strings: array<string>
    var size: nat

    ghost predicate Valid()
      reads this
    {
      strings.Length == ARRAY_MAX && size <= ARRAY_MAX
    }

    ghost function Table(): (t: seq<string>)
      requires Valid()
      reads this, strings
    {
      strings[..size]
    }

    constructor (input: string)
      ensures Valid() && fresh(strings) && Table() == [] && this.input == input
    {
      this.input := input;
      strings := new string[ARRAY_MAX];
      size := 0;
    }

    method Lookup(m: string) returns (i: nat)
      requires Valid()
      ensures i == PlaceOf(Table(), m)
    {
      ghost var table := Table();
      i := 0;
      while i < size && m != strings[i]
        invariant i <= size
        invariant PlaceOf(table, m) == i + PlaceOf(table[i..], m)
      {
        i := i + 1;
      }
    }

    // replace_text; `ok` is false where the program exits.
    method ReplaceText(so: nat, eo: nat, prefix: string) returns (ok: bool)
      requires Valid() && so <= eo <= |input|
      modifies this`input, this`size, strings
      ensures Valid()
      ensures var call := Assign(old(Table()), old(input[so..eo]));
              && ok == call.Found?
              && (ok ==> && Table() == call.table
                         && input == Replaced(old(input), so, eo, Tag(prefix, call.index)))
              && (!ok ==> Table() == old(Table()) && input == old(input))
      ensures ok <==> |old(Table())| < ARRAY_MAX
      ensures ok ==> exists i: nat :: InputReads(old(input), input, so, eo, "@" + prefix + "<" + Decimal(i) + ">")
                                      && NumberOf(old(Table()), Table(), old(input)[so..eo], i)
    {
      if size == ARRAY_MAX {
        return false;
      }
      var matchText := input[so..eo];
      ghost var table := Table();
      AssignExact(table, matchText);
      var i := Lookup(matchText);
      if i >= size {
        strings[size] := matchText;
        size := size + 1;
        assert Table() == table + [matchText];
      }
      var output := if so != 0 then input[..so] else [];
      output := output + Tag(prefix, i);
      output := output + input[eo..];
      ReplacedReads(input, so, eo, Tag(prefix, i));
      input := output;
      ok := true;
    }
  }

  // ---------- numbers by first occurrence ----------

  ghost predicate Distinct(table: seq<string>)
  {
    forall i, j | 0 <= i < j < |table| :: table[i] != table[j]
  }

  lemma {:induction false} FirstsDistinct(matches: seq<string>)
    ensures Distinct(Firsts(matches))
    ensures forall m :: m in Firsts(matches) <==> m in matches
  {
    if matches != [] {
      var init := matches[..|matches| - 1];
      FirstsDistinct(init);
      assert matches == init + [matches[|matches| - 1]];
    }
  }

  // The table of a longer run extends the table of a shorter one.
  lemma {:induction false} FirstsExtend(matches: seq<string>, k: nat)
    requires k <= |matches|
    ensures Firsts(matches[..k]) <= Firsts(matches)
  {
    if k < |matches| {
      var init := matches[..|matches| - 1];
      FirstsExtend(init, k);
      assert init[..k] == matches[..k];
    } else {
      assert matches[..k] == matches;
    }
  }

  // A string keeps its place when the table grows.
  lemma PlaceInPrefix(a: seq<string>, b: seq<string>, m: string)
    requires a <= b && m in a
    ensures PlaceOf(a, m) == PlaceOf(b, m) < |a|
  {
    var i := PlaceOf(a, m);
    var k :| 0 <= k < |a| && a[k] == m;
    assert i < |a|;
    assert b[i] == m && forall j | 0 <= j < i :: b[j] != m;
  }

  lemma LastPlace(table: seq<string>, m: string)
    requires m !in table
    ensures PlaceOf(table, m) == |table| == PlaceOf(table + [m], m)
  {
    assert (table + [m])[|table|] == m;
  }

  // Every match with the place of its string in the final table.
  function Numbered(matches: seq<string>): (indices: seq<nat>)
  {
    seq(|matches|, i requires 0 <= i < |matches| => PlaceOf(Firsts(matches), matches[i]))
  }

  lemma NumberedStep(matches: seq<string>)
    requires matches != []
    ensures var n := |matches| - 1;
            Numbered(matches) == Numbered(matches[..n]) + [PlaceOf(Firsts(matches[..n]), matches[n])]
  {
    var n := |matches| - 1;
    var init, m := matches[..n], matches[n];
    var table := Firsts(init);
    FirstsDistinct(init);
    FirstsExtend(matches, n);
    forall i | 0 <= i < n ensures Numbered(matches)[i] == Numbered(init)[i] {
      assert init[i] in init;
      PlaceInPrefix(table, Firsts(matches), init[i]);
    }
    if m in table {
      PlaceInPrefix(table, Firsts(matches), m);
    } else {
      LastPlace(table, m);
    }
  }

  // What the run computes, as long as no call finds the table full.
  lemma {:induction false} RunNumbers(matches: seq<string>)
    requires matches == [] || |Firsts(matches[..|matches| - 1])| < ARRAY_MAX
    ensures Run(matches) == (Numbers(Numbered(matches)), Firsts(matches))
  {
    if matches == [] {
      assert Numbered(matches) == [];
    } else {
      var n := |matches| - 1;
      var init, m := matches[..n], matches[n];
      if n > 0 {
        FirstsExtend(init, n - 1);
      }
      RunNumbers(init);
      NumberedStep(matches);
      KnownPlace(Firsts(init), m);
    }
  }

  lemma KnownPlace(table: seq<string>, m: string)
    ensures PlaceOf(table, m) == |table| <==> m !in table
  {
    if m in table {
      PlaceInPrefix(table, table, m);
    }
  }

  /**
   * The program gets through exactly those match sequences that show at most 99
   * different strings before the last one, whatever that is.
   */
  lemma {:induction false} ExitExact(matches: seq<string>)
    ensures Indices(matches) == Exit <==>
              matches != [] && |Firsts(matches[..|matches| - 1])| >= ARRAY_MAX
    ensures |Run(matches).1| <= ARRAY_MAX
  {
    if matches == [] {
    } else {
      var n := |matches| - 1;
      var init := matches[..n];
      ExitExact(init);
      if n > 0 {
        FirstsExtend(init, n - 1);
      }
      if |Firsts(init)| < ARRAY_MAX {
        RunNumbers(matches);
        FirstsStep(matches);
      } else if Indices(init) != Exit {
        RunNumbers(init);
        FirstsBound(init);
      }
    }
  }

  lemma FirstsStep(matches: seq<string>)
    requires matches != []
    ensures |Firsts(matches)| <= |Firsts(matches[..|matches| - 1])| + 1
  {
  }

  // The table cannot have passed its limit before it reached it.
  lemma FirstsBound(init: seq<string>)
    requires Indices(init) != Exit
    requires init == [] || |Firsts(init[..|init| - 1])| < ARRAY_MAX
    requires |Firsts(init)| >= ARRAY_MAX
    ensures |Firsts(init)| == ARRAY_MAX
  {
    FirstsStep(init);
  }

  // Numbers are given by first occurrence: a match gets the number of different
  // strings before its own first occurrence.
  lemma {:induction false} FirstPlace(matches: seq<string>, k: nat)
    requires k < |matches| && matches[k] !in matches[..k]
    ensures PlaceOf(Firsts(matches), matches[k]) == |Firsts(matches[..k])|
  {
    var m := matches[k];
    FirstsDistinct(matches[..k]);
    FirstsExtend(matches, k + 1);
    assert matches[..k + 1][..k] == matches[..k];
    assert Firsts(matches[..k + 1]) == Firsts(matches[..k]) + [m];
    LastPlace(Firsts(matches[..k]), m);
    PlaceInPrefix(Firsts(matches[..k + 1]), Firsts(matches), m);
  }

  /**
   * Two matches get the same number exactly when they are equal, and the number
   * of a string counts the different strings that came before it.
   */
  lemma SameNumberExact(matches: seq<string>, i: nat, j: nat)
    requires i < |matches| && j < |matches| && Indices(matches).Numbers?
    ensures |Indices(matches).indices| == |matches|
    ensures Indices(matches).indices[i] == Indices(matches).indices[j] <==> matches[i] == matches[j]
    ensures matches[i] !in matches[..i] ==> Indices(matches).indices[i] == |Firsts(matches[..i])|
  {
    ExitExact(matches);
    RunNumbers(matches);
    FirstsDistinct(matches);
    var table := Firsts(matches);
    PlaceInPrefix(table, table, matches[i]);
    PlaceInPrefix(table, table, matches[j]);
    if matches[i] !in matches[..i] {
      FirstPlace(matches, i);
    }
  }

  // Two sequences differ by a one-to-one renaming of their strings.
  ghost predicate Renamed(a: seq<string>, b: seq<string>)
  {
    |a| == |b| && forall i, j | 0 <= i < |a| && 0 <= j < |a| :: a[i] == a[j] <==> b[i] == b[j]
  }

  lemma {:induction false} RenamedPlaces(a: seq<string>, b: seq<string>)
    requires Renamed(a, b)
    ensures |Firsts(a)| == |Firsts(b)|
    ensures forall i | 0 <= i < |a| :: PlaceOf(Firsts(a), a[i]) == PlaceOf(Firsts(b), b[i])
  {
    if a != [] {
      var n := |a| - 1;
      var a0, b0 := a[..n], b[..n];
      assert Renamed(a0, b0) by {
        assert forall i | 0 <= i < n :: a0[i] == a[i] && b0[i] == b[i];
      }
      RenamedPlaces(a0, b0);
      FirstsDistinct(a0);
      FirstsDistinct(b0);
      FirstsExtend(a, n);
      FirstsExtend(b, n);
      KnownInBoth(a, b);
      forall i | 0 <= i < n ensures PlaceOf(Firsts(a), a[i]) == PlaceOf(Firsts(b), b[i]) {
        assert a0[i] in a0 && b0[i] in b0;
        PlaceInPrefix(Firsts(a0), Firsts(a), a0[i]);
        PlaceInPrefix(Firsts(b0), Firsts(b), b0[i]);
      }
      if a[n] in a0 {
        var k :| 0 <= k < n && a0[k] == a[n];
        assert a[k] == a[n] && b[k] == b[n];
      } else {
        LastPlace(Firsts(a0), a[n]);
        LastPlace(Firsts(b0), b[n]);
      }
    }
  }

  lemma KnownInBoth(a: seq<string>, b: seq<string>)
    requires Renamed(a, b) && a != []
    ensures var n := |a| - 1; a[n] in a[..n] <==> b[n] in b[..n]
  {
    var n := |a| - 1;
    if a[n] in a[..n] {
      var k :| 0 <= k < n && a[..n][k] == a[n];
      assert a[k] == a[n];
      assert b[..n][k] == b[n];
    }
    if b[n] in b[..n] {
      var k :| 0 <= k < n && b[..n][k] == b[n];
      assert b[k] == b[n];
      assert a[..n][k] == a[n];
    }
  }

  lemma RenamingKeepsNumbers(a: seq<string>, b: seq<string>)
    requires Indices(a).Numbers? && Renamed(a, b)
    ensures Indices(b) == Indices(a)
  {
    ExitExact(a);
    RenamedPlaces(a, b);
    if a != [] {
      var n := |a| - 1;
      assert Renamed(a[..n], b[..n]) by {
        assert forall i | 0 <= i < n :: a[..n][i] == a[i] && b[..n][i] == b[i];
      }
      RenamedPlaces(a[..n], b[..n]);
    }
    RunNumbers(a);
    RunNumbers(b);
    assert Numbered(a) == Numbered(b);
  }

  lemma NumbersTellRenaming(a: seq<string>, b: seq<string>)
    requires Indices(a).Numbers? && Indices(b) == Indices(a) && |a| == |b|
    ensures Renamed(a, b)
  {
    forall i, j | 0 <= i < |a| && 0 <= j < |a| ensures a[i] == a[j] <==> b[i] == b[j] {
      SameNumberExact(a, i, j);
      SameNumberExact(b, i, j);
    }
  }

  lemma OneNumberEach(a: seq<string>)
    requires Indices(a).Numbers?
    ensures |Indices(a).indices| == |a|
  {
    ExitExact(a);
    RunNumbers(a);
  }

  /**
   * Two runs use the same numbers exactly when their matches differ only by a
   * one-to-one renaming of strings, which also decides nothing about getting through.
   */
  lemma SameNumbersExact(a: seq<string>, b: seq<string>)
    requires Indices(a).Numbers?
    ensures Indices(b) == Indices(a) <==> Renamed(a, b)
  {
    if Renamed(a, b) {
      RenamingKeepsNumbers(a, b);
    } else if Indices(b) == Indices(a) {
      OneNumberEach(a);
      OneNumberEach(b);
      NumbersTellRenaming(a, b);
    }
  }
}
