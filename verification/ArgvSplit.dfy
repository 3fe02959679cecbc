/**
 * Splitting a string into an argument vector and joining one into a string,
 * unit/argv.c. A vector is the sequence of its entries before the final NULL; a
 * NULL vector, which is what splitting returns when it appended nothing, has none.
 */
module ArgvSplit {
  import opened CStrings
  import opened Sequences

  // The fields of `s`, when `field` has been read of the first one already.
  function Fields(s: string, field: string, delimiter: char, includeEmpty: bool): (v: seq<string>)
    decreases |s|
  {
    if s == [] then if field == [] then [] else [field]
    else if s[0] != delimiter then Fields(s[1..], field + [s[0]], delimiter, includeEmpty)
    else (if field != [] || includeEmpty then [field] else []) + Fields(s[1..], [], delimiter, includeEmpty)
  }

  // pmix_argv_split_inter.
  function SplitInter(s: string, delimiter: char, includeEmpty: bool): (v: seq<string>)
  {
    Fields(s, [], delimiter, includeEmpty)
  }

  function Split(s: string, delimiter: char): (v: seq<string>) { SplitInter(s, delimiter, false) }

  function SplitWithEmpty(s: string, delimiter: char): (v: seq<string>) { SplitInter(s, delimiter, true) }

  function NonEmpty(v: seq<string>): (w: seq<string>)
  {
    if v == [] then [] else (if v[0] == [] then [] else [v[0]]) + NonEmpty(v[1..])
  }

  predicate Free(v: seq<string>, delimiter: char)
  {
    forall k | 0 <= k < |v| :: delimiter !in v[k]
  }

  // ---------- splitting undoes joining, and the other way round ----------

  // Reading on over characters that are not the delimiter.
  lemma {:induction false} ReadOver(a: string, rest: string, field: string, d: char, includeEmpty: bool)
    requires d !in a
    ensures Fields(a + rest, field, d, includeEmpty) == Fields(rest, field + a, d, includeEmpty)
    decreases |a|
  {
    if a == [] {
      assert a + rest == rest && field + a == field;
    } else {
      assert (a + rest)[1..] == a[1..] + rest;
      ReadOver(a[1..], rest, field + [a[0]], d, includeEmpty);
      assert (field + [a[0]]) + a[1..] == field + a;
    }
  }

  // A string that only a trailing delimiter would end is one the split loop forgets.
  function WithoutLast(s: string, d: char): (t: string)
  {
    if s != [] && s[|s| - 1] == d then s[..|s| - 1] else s
  }

  lemma JoinCons(s: string, v: seq<string>, d: char)
    requires v != []
    ensures Join([s] + v, d) == (s + [d]) + Join(v, d)
  {
    assert ([s] + v)[1..] == v;
  }

  lemma WithoutLastAppend(a: string, b: string, d: char)
    requires b != []
    ensures WithoutLast(a + b, d) == a + WithoutLast(b, d)
  {
    assert (a + b)[..|a + b| - 1] == a + b[..|b| - 1];
  }

  lemma {:induction false} SomeField(s: string, field: string, d: char)
    requires field + s != []
    ensures Fields(s, field, d, true) != []
    decreases |s|
  {
    if s != [] && s[0] != d {
      SomeField(s[1..], field + [s[0]], d);
    }
  }

  // The step over a delimiter, for whatever fields follow it.
  lemma JoinOverDelimiter(field: string, rest: string, w: seq<string>, d: char)
    requires Join(w, d) == WithoutLast(rest, d)
    requires w == [] ==> rest == []
    requires rest == [] ==> w == []
    ensures Join([field] + w, d) == WithoutLast(field + ([d] + rest), d)
  {
    if rest == [] {
      assert field + ([d] + rest) == field + [d];
    } else {
      JoinCons(field, w, d);
      assert field + ([d] + rest) == (field + [d]) + rest;
      WithoutLastAppend(field + [d], rest, d);
    }
  }

  lemma {:induction false} JoinOfFields(s: string, field: string, d: char)
    requires d !in field
    ensures Join(Fields(s, field, d, true), d) == WithoutLast(field + s, d)
    decreases |s|
  {
    if s == [] {
      assert field + s == field;
    } else if s[0] != d {
      JoinOfFields(s[1..], field + [s[0]], d);
      assert (field + [s[0]]) + s[1..] == field + s;
    } else {
      var rest := s[1..];
      JoinOfFields(rest, [], d);
      assert [] + rest == rest && s == [d] + rest;
      if rest != [] {
        SomeField(rest, [], d);
      }
      JoinOverDelimiter(field, rest, Fields(rest, [], d, true), d);
    }
  }

  /** Joining the fields gives the string back, less a delimiter at its very end. */
  lemma JoinOfSplit(s: string, d: char)
    ensures Join(SplitWithEmpty(s, d), d) == WithoutLast(s, d)
  {
    JoinOfFields(s, [], d);
    assert [] + s == s;
  }

  /**
   * Splitting a joined vector gives the vector back, less an empty entry at its
   * very end, which the split loop cannot see.
   */
  lemma {:induction false} SplitOfJoin(v: seq<string>, d: char)
    requires Free(v, d)
    ensures SplitWithEmpty(Join(v, d), d) == if v != [] && v[|v| - 1] == [] then v[..|v| - 1] else v
  {
    if |v| == 1 {
      ReadOver(v[0], [], [], d, true);
      assert v[0] + [] == v[0] && [] + v[0] == v[0];
    } else if |v| > 1 {
      var rest := Join(v[1..], d);
      assert Free(v[1..], d);
      SplitOfJoin(v[1..], d);
      ReadOver(v[0], [d] + rest, [], d, true);
      assert v[0] + ([d] + rest) == v[0] + [d] + rest && [] + v[0] == v[0];
      assert ([d] + rest)[1..] == rest;
      assert v == [v[0]] + v[1..];
    }
  }

  /** The round trip holds exactly for the vectors without an empty last entry. */
  lemma RoundTripExact(v: seq<string>, d: char)
    requires Free(v, d)
    ensures SplitWithEmpty(Join(v, d), d) == v <==> v == [] || v[|v| - 1] != []
  {
    SplitOfJoin(v, d);
  }

  lemma {:induction false} FieldsFilter(s: string, field: string, d: char)
    requires d !in field
    ensures Fields(s, field, d, false) == NonEmpty(Fields(s, field, d, true))
    ensures Free(Fields(s, field, d, true), d)
    decreases |s|
  {
    if s != [] {
      FieldsFilter(s[1..], if s[0] == d then [] else field + [s[0]], d);
      if s[0] == d {
        assert Fields(s, field, d, true)[1..] == Fields(s[1..], [], d, true);
      }
    }
  }

  /** Split is split_with_empty with the empty fields left out. */
  lemma SplitFilters(s: string, d: char)
    ensures Split(s, d) == NonEmpty(SplitWithEmpty(s, d))
    ensures Free(SplitWithEmpty(s, d), d)
  {
    FieldsFilter(s, [], d);
  }

  lemma {:induction false} NonEmptyAll(v: seq<string>)
    requires forall k | 0 <= k < |v| :: v[k] != []
    ensures NonEmpty(v) == v
  {
    if v != [] {
      NonEmptyAll(v[1..]);
    }
  }

  /** The result of a split is a fixed point: joined and split again it is the same. */
  lemma SplitStable(s: string, d: char)
    ensures Split(Join(Split(s, d), d), d) == Split(s, d)
  {
    SplitFilters(s, d);
    var v := Split(s, d);
    NonEmptyKeeps(SplitWithEmpty(s, d), d);
    SplitFilters(Join(v, d), d);
    SplitOfJoin(v, d);
    NonEmptyAll(v);
  }

  lemma {:induction false} NonEmptyKeeps(v: seq<string>, d: char)
    requires Free(v, d)
    ensures Free(NonEmpty(v), d)
    ensures forall k | 0 <= k < |NonEmpty(v)| :: NonEmpty(v)[k] != []
  {
    if v != [] {
      NonEmptyKeeps(v[1..], d);
    }
  }

  // ---------- the split loop ----------

  method SplitLoop(source: string, delimiter: char, includeEmpty: bool) returns (argv: seq<string>)
    ensures argv == SplitInter(source, delimiter, includeEmpty)
  {
    argv := [];
    var from: nat := 0;
    ghost var rest := SplitInter(source, delimiter, includeEmpty);
    ghost var whole := rest;
    assert source[0..] == source;
    while from < |source|
      invariant from <= |source| + 1
      invariant from <= |source| ==> rest == Fields(source[from..], [], delimiter, includeEmpty)
      invariant from > |source| ==> rest == []
      invariant argv + rest == whole
    {
      var p := from;
      assert source[from..p] == [];
      while p < |source| && source[p] != delimiter
        invariant from <= p <= |source|
        invariant rest == Fields(source[p..], source[from..p], delimiter, includeEmpty)
      {
        assert source[p..][1..] == source[p + 1..] && source[from..p] + [source[p]] == source[from..p + 1];
        p := p + 1;
      }
      ghost var next := [];
      if p < |source| {
        assert source[p..][0] == delimiter && source[p..][1..] == source[p + 1..];
        next := Fields(source[p + 1..], [], delimiter, includeEmpty);
      }
      if p == from {
        if includeEmpty {
          Regroup(argv, [[]], next);
          argv := argv + [[]];
        } else {
          assert rest == [] + next == next;
        }
      } else if p == |source| {
        assert source[from..p] == source[from..];
        argv := argv + [source[from..]];
      } else {
        Regroup(argv, [source[from..p]], next);
        argv := argv + [source[from..p]];
      }
      rest := next;
      from := p + 1;
    }
  }

  // ---------- the join loops ----------

  // Bytes needed for the entries with one more byte each.
  function Size(v: seq<string>): (size: nat)
  {
    if v == [] then 0 else |v[0]| + 1 + Size(v[1..])
  }

  // What the pair of pointers still has to read: the rest of entry k from `at` on,
  // then the entries behind it, each after a delimiter.
  ghost function Reading(v: seq<string>, k: nat, at: nat, d: char): (s: string)
    requires k < |v| && at <= |v[k]|
    decreases |v| - k, |v[k]| - at
  {
    if at < |v[k]| then [v[k][at]] + Reading(v, k, at + 1, d)
    else if k + 1 < |v| then [d] + Reading(v, k + 1, 0, d)
    else []
  }

  // ... where the entries behind entry k are read as follows.
  ghost function Behind(v: seq<string>, k: nat, d: char): (s: string)
    requires k < |v|
  {
    if k + 1 < |v| then [d] + Reading(v, k + 1, 0, d) else []
  }

  lemma {:induction false} ReadingEntry(v: seq<string>, k: nat, at: nat, d: char)
    requires k < |v| && at <= |v[k]|
    ensures Reading(v, k, at, d) == v[k][at..] + Behind(v, k, d)
    decreases |v[k]| - at
  {
    if at < |v[k]| {
      ReadingEntry(v, k, at + 1, d);
      assert v[k][at..] == [v[k][at]] + v[k][at + 1..];
      Regroup([v[k][at]], v[k][at + 1..], Behind(v, k, d));
    }
  }

  lemma {:induction false} ReadingIsJoin(v: seq<string>, k: nat, d: char)
    requires k < |v|
    ensures Reading(v, k, 0, d) == Join(v[k..], d)
    decreases |v| - k
  {
    ReadingEntry(v, k, 0, d);
    assert v[k][0..] == v[k];
    var w := v[k..];
    if k + 1 < |v| {
      ReadingIsJoin(v, k + 1, d);
      assert w[1..] == v[k + 1..];
      Regroup(v[k], [d], Join(v[k + 1..], d));
    }
  }

  lemma {:induction false} JoinLength(v: seq<string>, d: char)
    requires v != []
    ensures |Join(v, d)| == Size(v) - 1
  {
    if |v| > 1 {
      JoinLength(v[1..], d);
    }
  }

  // The fill loop shared by both joins. It counts characters and never looks at
  // the end of the vector, yet the pointers do not run past the last entry.
  method Fill(v: seq<string>, d: char, length: nat) returns (s: string)
    requires v != [] && length == Size(v) - 1
    ensures s == Join(v, d)
  {
    JoinLength(v, d);
    ReadingIsJoin(v, 0, d);
    assert v[0..] == v;
    s := FillFrom(v, d, length, Join(v, d));
  }

  method FillFrom(v: seq<string>, d: char, length: nat, ghost whole: string) returns (s: string)
    requires v != [] && length == |whole| && whole == Reading(v, 0, 0, d)
    ensures s == whole
  {
    var str := new char[length];
    var p: nat, pp: nat := 0, 0;
    var i := 0;
    ghost var left := whole;
    while i < length
      invariant 0 <= i <= length && |left| == length - i
      invariant p < |v| && pp <= |v[p]|
      invariant left == Reading(v, p, pp, d)
      invariant str[..i] + left == whole
    {
      ghost var done := str[..i];
      Regroup(done, left[..1], left[1..]);
      if pp == |v[p]| {
        str[i] := d;
        p := p + 1;
        pp := 0;
      } else {
        str[i] := v[p][pp];
        pp := pp + 1;
      }
      assert str[..i + 1] == done + [str[i]];
      left := left[1..];
      i := i + 1;
    }
    s := str[..];
    assert str[..i] == s;
  }

  // pmix_argv_join.
  method JoinAll(v: seq<string>, delimiter: char) returns (s: string)
    ensures s == Join(v, delimiter)
  {
    if v == [] {
      return "";
    }
    var length := 0;
    var p := 0;
    assert v[0..] == v;
    while p < |v|
      invariant 0 <= p <= |v|
      invariant length + Size(v[p..]) == Size(v)
    {
      assert v[p..][1..] == v[p + 1..];
      length := length + |v[p]| + 1;
      p := p + 1;
    }
    s := Fill(v, delimiter, length - 1);
  }

  // What joining a range comes to: a string, or a length of -1 in an unsigned
  // variable, which the source then uses as an index.
  datatype Ranged = Text(s: string) | Underflow

  function JoinRange(v: seq<string>, start: nat, end: nat, delimiter: char): (r: Ranged)
  {
    if v == [] || start > |v| then Text("")
    else if start == |v| || end <= start then Underflow
    else Text(Join(v[start..Min(end, |v|)], delimiter))
  }

  // pmix_argv_join_range, for ranges that an int can count.
  method JoinRangeLoop(v: seq<string>, start: nat, end: nat, delimiter: char) returns (r: Ranged)
    ensures r == JoinRange(v, start, end, delimiter)
  {
    if v == [] || start > |v| {
      return Text("");
    }
    var length := 0;
    var p := start;
    while p < |v| && p < end
      invariant start <= p <= |v| && (p <= end || p == start)
      invariant length == Size(v[start..p])
    {
      SizeAppend(v[start..p], v[p]);
      assert v[start..p + 1] == v[start..p] + [v[p]];
      length := length + |v[p]| + 1;
      p := p + 1;
    }
    if length == 0 {
      return Underflow;
    }
    var s := Fill(v[start..p], delimiter, length - 1);
    r := Text(s);
  }

  lemma {:induction false} SizeAppend(v: seq<string>, s: string)
    ensures Size(v + [s]) == Size(v) + |s| + 1
    ensures Size(v) >= |v|
  {
    if v != [] {
      SizeAppend(v[1..], s);
      assert (v + [s])[1..] == v[1..] + [s];
    }
  }

  /**
   * The length underflows exactly when the range starts inside or right behind a
   * non-empty vector and takes no entry of it; otherwise joining two adjacent
   * ranges and joining the results is joining the whole.
   */
  lemma RangesCompose(v: seq<string>, start: nat, mid: nat, end: nat, d: char)
    ensures JoinRange(v, start, end, d) == Underflow <==>
              v != [] && (start == |v| || (start < |v| && end <= start))
    ensures start < mid < end <= |v| ==>
              && JoinRange(v, start, mid, d).Text? && JoinRange(v, mid, end, d).Text?
              && JoinRange(v, start, end, d) ==
                   Text(JoinRange(v, start, mid, d).s + [d] + JoinRange(v, mid, end, d).s)
  {
    if start < mid < end <= |v| {
      JoinAppend(v[start..mid], v[mid..end], d);
      assert v[start..end] == v[start..mid] + v[mid..end];
    }
  }

  /**
   * What a range takes: nothing of an empty vector or from behind the end; an end
   * past the last entry counts as the number of entries; one entry is itself.
   */
  lemma RangeTakes(v: seq<string>, start: nat, end: nat, d: char)
    ensures v == [] || start > |v| ==> JoinRange(v, start, end, d) == Text("")
    ensures end >= |v| ==> JoinRange(v, start, end, d) == JoinRange(v, start, |v|, d)
    ensures start < |v| ==> JoinRange(v, start, start + 1, d) == Text(v[start])
  {
    if start < |v| {
      assert v[start..start + 1] == [v[start]];
      if end >= |v| {
        assert Min(end, |v|) == |v|;
      }
    }
  }

  /** strtok yields the same fields as splitting without empty ones. */
  lemma {:induction false} TokensAreSplit(s: string, d: char)
    ensures Tokens(s, d) == Split(s, d)
    decreases |s|
  {
    if s != [] {
      if s[0] == d {
        TokensAreSplit(s[1..], d);
        assert [] + Split(s[1..], d) == Split(s[1..], d);
      } else {
        var k := IndexOf(s, d);
        FieldEnds(s, [], d, k);
        assert [] + s[..k] == s[..k];
        TokensAreSplit(s[k..], d);
      }
    }
  }

  // Reading on to the end of a field.
  lemma {:induction false} FieldEnds(s: string, field: string, d: char, k: nat)
    requires k <= |s| && d !in s[..k] && (k < |s| ==> s[k] == d) && field + s[..k] != []
    ensures Fields(s, field, d, false) == [field + s[..k]] + Split(s[k..], d)
    decreases |s|
  {
    if k == 0 {
      assert s[0..] == s && field + s[..0] == field;
      if s != [] {
        assert [] + Fields(s[1..], [], d, false) == Fields(s[1..], [], d, false);
      }
    } else {
      assert s[..k] == [s[0]] + s[1..][..k - 1];
      assert s[1..][k - 1..] == s[k..];
      assert field + [s[0]] + s[1..][..k - 1] == field + s[..k];
      FieldEnds(s[1..], field + [s[0]], d, k - 1);
    }
  }

  lemma {:induction false} JoinAppend(a: seq<string>, b: seq<string>, d: char)
    requires a != [] && b != []
    ensures Join(a + b, d) == Join(a, d) + [d] + Join(b, d)
  {
    assert (a + b)[1..] == a[1..] + b;
    if |a| > 1 {
      JoinAppend(a[1..], b, d);
    }
  }
}
