/**
 * The comparison of a test output with its baseline, prrte/debug/compare.py: both
 * files as sequences of lines, counted and classified by nested loops.
 */
module Comparison {
  import opened Renaming

  datatype Entry = Entry(line: string, num: nat, found: nat)

  datatype Report = Report(missing: seq<string>, extras: seq<string>, mismatched: seq<Entry>, exitcode: int)

  // The lines of one sequence that the other does not have, in order.
  function Absent(lines: seq<string>, others: seq<string>): (r: seq<string>)
  {
    if lines == [] then []
    else Absent(lines[..|lines| - 1], others)
           + if lines[|lines| - 1] in others then [] else [lines[|lines| - 1]]
  }

  // The lines of the output, in order of first occurrence, with the number of times
  // each occurs there and in the part of the baseline read so far.
  function Matrix(output: seq<string>, baseline: seq<string>): (m: seq<Entry>)
  {
    var lines := Firsts(output);
    seq(|lines|, i requires 0 <= i < |lines| =>
      Entry(lines[i], multiset(output)[lines[i]], multiset(baseline)[lines[i]]))
  }

  // The entries with different counts, but for the lines listed as extras.
  function Mismatched(entries: seq<Entry>, extras: seq<string>): (r: seq<Entry>)
  {
    if entries == [] then []
    else
      var e := entries[|entries| - 1];
      Mismatched(entries[..|entries| - 1], extras)
        + if e.num == e.found || e.line in extras then [] else [e]
  }

  function Compared(output: seq<string>, baseline: seq<string>): (r: Report)
  {
    var missing := Absent(baseline, output);
    var extras := Absent(Firsts(output), baseline);
    var mismatched := Mismatched(Matrix(output, baseline), extras);
    Report(missing, extras, mismatched, if missing == [] && extras == [] && mismatched == [] then 0 else 1)
  }

  // ---------- the loops that count ----------

  // The entry for a line, or the number of entries.
  function EntryOf(m: seq<Entry>, line: string): (i: nat)
    ensures i <= |m|
    ensures i < |m| ==> m[i].line == line
    ensures forall j | 0 <= j < i :: m[j].line != line
  {
    if m == [] || m[0].line == line then 0 else 1 + EntryOf(m[1..], line)
  }

  // One line of the output.
  function Bump(m: seq<Entry>, line: string): (n: seq<Entry>)
  {
    var i := EntryOf(m, line);
    if i < |m| then m[i := m[i].(num := m[i].num + 1)] else m + [Entry(line, 1, 0)]
  }

  function Bumped(output: seq<string>): (m: seq<Entry>)
  {
    if output == [] then [] else Bump(Bumped(output[..|output| - 1]), output[|output| - 1])
  }

  // One line of the baseline: the entries, and the lines found missing.
  function Mark(m: seq<Entry>, missing: seq<string>, line: string): (r: (seq<Entry>, seq<string>))
  {
    var i := EntryOf(m, line);
    if i < |m| then (m[i := m[i].(found := m[i].found + 1)], missing) else (m, missing + [line])
  }

  function Marked(m: seq<Entry>, baseline: seq<string>): (r: (seq<Entry>, seq<string>))
  {
    if baseline == [] then (m, [])
    else
      var (n, missing) := Marked(m, baseline[..|baseline| - 1]);
      Mark(n, missing, baseline[|baseline| - 1])
  }

  // The inner search loops over the counted lines.
  method Search(m: seq<Entry>, line: string) returns (i: nat)
    ensures i == EntryOf(m, line)
  {
    i := 0;
    while i < |m| && m[i].line != line
      invariant i <= |m|
      invariant EntryOf(m, line) == i + EntryOf(m[i..], line)
    {
      i := i + 1;
    }
  }

  method CountLines(output: seq<string>) returns (matrix: seq<Entry>)
    ensures matrix == Bumped(output)
  {
    matrix := [];
    var k := 0;
    while k < |output|
      invariant 0 <= k <= |output|
      invariant matrix == Bumped(output[..k])
    {
      assert output[..k + 1][..k] == output[..k];
      var i := Search(matrix, output[k]);
      if i < |matrix| {
        matrix := matrix[i := matrix[i].(num := matrix[i].num + 1)];
      } else {
        matrix := matrix + [Entry(output[k], 1, 0)];
      }
      k := k + 1;
    }
    assert output[..k] == output;
  }

  method FindBaseline(counted: seq<Entry>, baseline: seq<string>) returns (matrix: seq<Entry>, missing: seq<string>)
    ensures (matrix, missing) == Marked(counted, baseline)
  {
    matrix, missing := counted, [];
    var k := 0;
    while k < |baseline|
      invariant 0 <= k <= |baseline|
      invariant (matrix, missing) == Marked(counted, baseline[..k])
    {
      assert baseline[..k + 1][..k] == baseline[..k];
      var i := Search(matrix, baseline[k]);
      if i < |matrix| {
        matrix := matrix[i := matrix[i].(found := matrix[i].found + 1)];
      } else {
        missing := missing + [baseline[k]];
      }
      k := k + 1;
    }
    assert baseline[..k] == baseline;
  }

  // ---------- what was counted ----------

  // The entries stand for these lines, with these counts.
  ghost predicate Counts(m: seq<Entry>, lines: seq<string>, output: multiset<string>, baseline: multiset<string>)
  {
    && |m| == |lines|
    && forall k | 0 <= k < |m| ::
         m[k].line == lines[k] && m[k].num == output[lines[k]] && m[k].found == baseline[lines[k]]
  }

  lemma KnownEntry(m: seq<Entry>, lines: seq<string>, line: string)
    requires |m| == |lines| && forall k | 0 <= k < |m| :: m[k].line == lines[k]
    ensures EntryOf(m, line) < |m| <==> line in lines
  {
    if line in lines {
      var k :| 0 <= k < |lines| && lines[k] == line;
      assert m[k].line == line;
    }
  }

  lemma BumpCounts(m: seq<Entry>, lines: seq<string>, output: multiset<string>, line: string)
    requires Counts(m, lines, output, multiset{}) && Distinct(lines)
    requires line in output <==> line in lines
    ensures Counts(Bump(m, line), if line in lines then lines else lines + [line], output + multiset{line}, multiset{})
  {
    KnownEntry(m, lines, line);
    var i := EntryOf(m, line);
    assert forall k | 0 <= k < |lines| && k != i :: lines[k] != line;
  }

  lemma MarkCounts(m: seq<Entry>, missing: seq<string>, lines: seq<string>, output: multiset<string>,
                   baseline: multiset<string>, line: string)
    requires Counts(m, lines, output, baseline) && Distinct(lines)
    ensures Counts(Mark(m, missing, line).0, lines, output, baseline + multiset{line})
  {
    KnownEntry(m, lines, line);
    var i := EntryOf(m, line);
    assert forall k | 0 <= k < |lines| && k != i :: lines[k] != line;
  }

  lemma MultisetLast(s: seq<string>)
    requires s != []
    ensures multiset(s) == multiset(s[..|s| - 1]) + multiset{s[|s| - 1]}
  {
    assert s == s[..|s| - 1] + [s[|s| - 1]];
  }

  lemma {:induction false} BumpedCounts(output: seq<string>)
    ensures Counts(Bumped(output), Firsts(output), multiset(output), multiset{})
  {
    if output != [] {
      var init, line := output[..|output| - 1], output[|output| - 1];
      BumpedCounts(init);
      FirstsDistinct(init);
      MultisetLast(output);
      assert line in multiset(init) <==> line in init;
      BumpCounts(Bumped(init), Firsts(init), multiset(init), line);
    }
  }

  lemma {:induction false} MarkedCounts(m: seq<Entry>, lines: seq<string>, output: multiset<string>, baseline: seq<string>)
    requires Counts(m, lines, output, multiset{}) && Distinct(lines)
    ensures Counts(Marked(m, baseline).0, lines, output, multiset(baseline))
  {
    if baseline != [] {
      var init, line := baseline[..|baseline| - 1], baseline[|baseline| - 1];
      MarkedCounts(m, lines, output, init);
      MultisetLast(baseline);
      var (n, missing) := Marked(m, init);
      MarkCounts(n, missing, lines, output, multiset(init), line);
    }
  }

  lemma {:induction false} MarkedMissing(m: seq<Entry>, lines: seq<string>, output: multiset<string>, baseline: seq<string>)
    requires Counts(m, lines, output, multiset{}) && Distinct(lines)
    ensures Marked(m, baseline).1 == Absent(baseline, lines)
  {
    if baseline != [] {
      var init, line := baseline[..|baseline| - 1], baseline[|baseline| - 1];
      MarkedMissing(m, lines, output, init);
      MarkedCounts(m, lines, output, init);
      var n := Marked(m, init).0;
      KnownEntry(n, lines, line);
      assert Absent(init, lines) + [] == Absent(init, lines);
    }
  }

  lemma {:induction false} AbsentSame(lines: seq<string>, a: seq<string>, b: seq<string>)
    requires forall x :: x in a <==> x in b
    ensures Absent(lines, a) == Absent(lines, b)
  {
    if lines != [] {
      AbsentSame(lines[..|lines| - 1], a, b);
    }
  }

  lemma CountsIsMatrix(m: seq<Entry>, output: seq<string>, baseline: seq<string>)
    requires Counts(m, Firsts(output), multiset(output), multiset(baseline))
    ensures m == Matrix(output, baseline)
  {
  }

  // The counting loops come to the matrix and the missing lines they should.
  lemma CountingRight(output: seq<string>, baseline: seq<string>)
    ensures Marked(Bumped(output), baseline) == (Matrix(output, baseline), Absent(baseline, output))
  {
    BumpedCounts(output);
    FirstsDistinct(output);
    MarkedCounts(Bumped(output), Firsts(output), multiset(output), baseline);
    MarkedMissing(Bumped(output), Firsts(output), multiset(output), baseline);
    AbsentSame(baseline, Firsts(output), output);
    CountsIsMatrix(Marked(Bumped(output), baseline).0, output, baseline);
  }

  // ---------- the loops that classify ----------

  lemma AbsentStep(lines: seq<string>, others: seq<string>, line: string)
    ensures Absent(lines + [line], others) == Absent(lines, others) + if line in others then [] else [line]
  {
    assert (lines + [line])[..|lines|] == lines;
  }

  // Whether a line is in a list, by a loop that stops at the first match.
  method Contains(lines: seq<string>, line: string) returns (found: bool)
    ensures found <==> line in lines
  {
    found := false;
    var i := 0;
    while i < |lines|
      invariant 0 <= i <= |lines|
      invariant line !in lines[..i]
    {
      if lines[i] == line {
        return true;
      }
      i := i + 1;
    }
    assert lines[..i] == lines;
  }

  method FindExtras(ghost lines: seq<string>, matrix: seq<Entry>, baseline: seq<string>) returns (extras: seq<string>)
    requires |matrix| == |lines| && forall k | 0 <= k < |lines| :: matrix[k].line == lines[k]
    ensures extras == Absent(lines, baseline)
  {
    extras := [];
    var k := 0;
    assert lines[..0] == [];
    while k < |matrix|
      invariant 0 <= k <= |matrix|
      invariant extras == Absent(lines[..k], baseline)
    {
      AbsentStep(lines[..k], baseline, lines[k]);
      assert lines[..k + 1] == lines[..k] + [lines[k]];
      var found := Contains(baseline, matrix[k].line);
      if !found {
        extras := extras + [matrix[k].line];
      }
      k := k + 1;
    }
    assert lines[..k] == lines;
  }

  method FindMismatched(matrix: seq<Entry>, extras: seq<string>) returns (mismatched: seq<Entry>)
    ensures mismatched == Mismatched(matrix, extras)
  {
    mismatched := [];
    var k := 0;
    assert matrix[..0] == [];
    while k < |matrix|
      invariant 0 <= k <= |matrix|
      invariant mismatched == Mismatched(matrix[..k], extras)
    {
      assert matrix[..k + 1][..k] == matrix[..k];
      if matrix[k].found != matrix[k].num {
        var found := Contains(extras, matrix[k].line);
        if !found {
          mismatched := mismatched + [matrix[k]];
        }
      }
      k := k + 1;
    }
    assert matrix[..k] == matrix;
  }

  method Compare(output: seq<string>, baseline: seq<string>) returns (r: Report)
    ensures r == Compared(output, baseline)
  {
    var exitcode := 0;
    var counted := CountLines(output);
    var matrix, missing := FindBaseline(counted, baseline);
    CountingRight(output, baseline);
    if 0 < |missing| {
      exitcode := 1;
    }
    var extras := FindExtras(Firsts(output), matrix, baseline);
    if 0 < |extras| {
      exitcode := 1;
    }
    var mismatched := FindMismatched(matrix, extras);
    if 0 < |mismatched| {
      exitcode := 1;
    }
    r := Report(missing, extras, mismatched, exitcode);
  }

  // ---------- what the report means ----------

  lemma CountLast(s: seq<string>, last: string, x: string)
    ensures multiset(s + [last])[x] == multiset(s)[x] + if x == last then 1 else 0
  {
    assert multiset(s + [last]) == multiset(s) + multiset{last};
  }

  lemma {:induction false} AbsentCounts(lines: seq<string>, others: seq<string>, x: string)
    ensures multiset(Absent(lines, others))[x] == if x in others then 0 else multiset(lines)[x]
  {
    if lines != [] {
      var init, last := lines[..|lines| - 1], lines[|lines| - 1];
      var kept := Absent(init, others);
      AbsentCounts(init, others, x);
      CountLast(init, last, x);
      assert lines == init + [last];
      if last in others {
        assert Absent(lines, others) == kept + [] == kept;
      } else {
        CountLast(kept, last, x);
        assert Absent(lines, others) == kept + [last];
      }
    }
  }

  lemma {:induction false} MismatchedContent(entries: seq<Entry>, extras: seq<string>, e: Entry)
    ensures e in Mismatched(entries, extras) <==> e in entries && e.num != e.found && e.line !in extras
  {
    if entries != [] {
      MismatchedContent(entries[..|entries| - 1], extras, e);
      assert entries == entries[..|entries| - 1] + [entries[|entries| - 1]];
    }
  }

  lemma AbsentMember(lines: seq<string>, others: seq<string>, x: string)
    ensures x in Absent(lines, others) <==> x in lines && x !in others
  {
    AbsentCounts(lines, others, x);
    assert x in Absent(lines, others) <==> multiset(Absent(lines, others))[x] > 0;
    assert x in lines <==> multiset(lines)[x] > 0;
  }

  lemma MatrixMember(output: seq<string>, baseline: seq<string>, e: Entry)
    ensures e in Matrix(output, baseline) <==>
              e.line in output && e.num == multiset(output)[e.line] && e.found == multiset(baseline)[e.line]
  {
    FirstsDistinct(output);
    var lines := Firsts(output);
    if e.line in lines {
      var k :| 0 <= k < |lines| && lines[k] == e.line;
      assert Matrix(output, baseline)[k].line == e.line;
    }
  }

  /**
   * A line is missing when only the baseline has it, extra when only the output has
   * it, and mismatched, with both counts, when both have it a different number of
   * times. A missing line is listed as often as the baseline has it.
   */
  lemma ReportExact(output: seq<string>, baseline: seq<string>, x: string, num: nat, found: nat)
    ensures var r := Compared(output, baseline);
            && (x in r.missing <==> x in baseline && x !in output)
            && (x in r.missing ==> multiset(r.missing)[x] == multiset(baseline)[x])
            && (x in r.extras <==> x in output && x !in baseline)
            && (Entry(x, num, found) in r.mismatched <==>
                  && x in output && x in baseline && num != found
                  && num == multiset(output)[x] && found == multiset(baseline)[x])
  {
    AbsentMember(baseline, output, x);
    AbsentCounts(baseline, output, x);
    FirstsDistinct(output);
    AbsentMember(Firsts(output), baseline, x);
    var e := Entry(x, num, found);
    MatrixMember(output, baseline, e);
    MismatchedContent(Matrix(output, baseline), Absent(Firsts(output), baseline), e);
  }

  /** The exit code is 0 exactly when the files are equal as multisets of lines. */
  lemma ExitZeroExact(output: seq<string>, baseline: seq<string>)
    ensures Compared(output, baseline).exitcode == 0 <==> multiset(output) == multiset(baseline)
  {
    var r := Compared(output, baseline);
    if r.exitcode == 0 {
      forall x: string ensures multiset(output)[x] == multiset(baseline)[x] {
        SameCount(output, baseline, x);
      }
    } else if r.missing != [] {
      ReportExact(output, baseline, r.missing[0], 0, 0);
      Differ(output, baseline, r.missing[0]);
    } else if r.extras != [] {
      ReportExact(output, baseline, r.extras[0], 0, 0);
      Differ(output, baseline, r.extras[0]);
    } else {
      var e := r.mismatched[0];
      ReportExact(output, baseline, e.line, e.num, e.found);
      Differ(output, baseline, e.line);
    }
  }

  lemma SameCount(output: seq<string>, baseline: seq<string>, x: string)
    requires Compared(output, baseline).exitcode == 0
    ensures multiset(output)[x] == multiset(baseline)[x]
  {
    ReportExact(output, baseline, x, multiset(output)[x], multiset(baseline)[x]);
    assert x in output <==> multiset(output)[x] > 0;
    assert x in baseline <==> multiset(baseline)[x] > 0;
  }

  lemma Differ(output: seq<string>, baseline: seq<string>, x: string)
    requires || (x in baseline && x !in output) || (x in output && x !in baseline)
             || multiset(output)[x] != multiset(baseline)[x]
    ensures multiset(output) != multiset(baseline)
  {
    assert x in output <==> multiset(output)[x] > 0;
    assert x in baseline <==> multiset(baseline)[x] > 0;
  }

  /** Comparing a file with itself, or with its lines in another order, succeeds. */
  lemma OrderIrrelevant(output: seq<string>, baseline: seq<string>, shuffled: seq<string>)
    requires multiset(shuffled) == multiset(output)
    ensures Compared(shuffled, baseline).exitcode == Compared(output, baseline).exitcode
  {
    ExitZeroExact(output, baseline);
    ExitZeroExact(shuffled, baseline);
  }
}
