/**
 * The text forms of ranks that unit/test_server.c registers: the list of local
 * peers, printed into a buffer of fixed size, and the map of processes to nodes.
 */
module RankList {
  import opened CStrings
  import ArgvSplit
  import Sequences
  import Partition

  const MAX_DIGIT_LEN := 10

  // The first number that needs ten digits.
  const TEN_DIGITS := 1_000_000_000

  datatype Ranks = NoRanks | Ranks(text: string)

  function RankTexts(base: nat, count: nat): (v: seq<string>)
    ensures |v| == count
  {
    seq(count, i requires i >= 0 => Decimal(base + i))
  }

  // The decimal ranks base, base + 1, ... joined with commas.
  function Listed(base: nat, count: nat): (s: string)
  {
    Join(RankTexts(base, count), ',')
  }

  // ---------- digits ----------

  function Pow10(k: nat): (p: nat) { if k == 0 then 1 else 10 * Pow10(k - 1) }

  lemma {:induction false} DigitsOf(n: nat, k: nat)
    requires k > 0
    ensures |Decimal(n)| <= k <==> n < Pow10(k)
    decreases k
  {
    if k == 1 {
      assert Pow10(1) == 10 * Pow10(0);
    } else {
      DigitsOf(n / 10, k - 1);
      if n < 10 {
        assert n / 10 == 0 && |Decimal(n)| == 1;
        PowPositive(k - 1);
      } else {
        assert n < 10 * Pow10(k - 1) <==> n / 10 < Pow10(k - 1);
      }
    }
  }

  lemma {:induction false} PowPositive(k: nat)
    ensures Pow10(k) >= 1
  {
    if k > 0 {
      PowPositive(k - 1);
    }
  }

  lemma RankDigits(n: nat)
    requires n <= INT_MAX
    ensures |Decimal(n)| <= MAX_DIGIT_LEN
    ensures |Decimal(n)| < MAX_DIGIT_LEN <==> n < TEN_DIGITS
  {
    var p5 := Pow10(5);
    assert p5 == 100_000 by {
      assert Pow10(1) == 10 && Pow10(2) == 100 && Pow10(3) == 1000 && Pow10(4) == 10_000;
    }
    assert Pow10(6) == 1_000_000 && Pow10(7) == 10_000_000 && Pow10(8) == 100_000_000;
    assert Pow10(9) == TEN_DIGITS && Pow10(10) == 10 * TEN_DIGITS;
    DigitsOf(n, 9);
    DigitsOf(n, 10);
  }

  // ---------- the text printed after i rounds ----------

  function Printed(base: nat, count: nat, i: nat): (s: string)
    requires i <= count
  {
    if i == 0 then []
    else Printed(base, count, i - 1) + Decimal(base + i - 1) + if i < count then [','] else []
  }

  lemma {:induction false} PrintedIsPrefix(base: nat, count: nat, i: nat)
    requires i < count
    ensures Listed(base, count) == Printed(base, count, i) + Join(RankTexts(base, count)[i..], ',')
  {
    var v := RankTexts(base, count);
    if i == 0 {
      assert v[0..] == v;
    } else {
      PrintedIsPrefix(base, count, i - 1);
      var w := v[i - 1..];
      assert w[1..] == v[i..] && w[0] == Decimal(base + i - 1);
      var p, d, rest := Printed(base, count, i - 1), Decimal(base + i - 1), Join(v[i..], ',');
      Sequences.Regroup(p, d + [','], rest);
      Sequences.Regroup(p, d, [',']);
    }
  }

  lemma PrintedAll(base: nat, count: nat)
    requires count > 0
    ensures Printed(base, count, count) == Listed(base, count)
  {
    PrintedIsPrefix(base, count, count - 1);
    assert RankTexts(base, count)[count - 1..] == [Decimal(base + count - 1)];
    assert Printed(base, count, count) == Printed(base, count, count - 1) + Decimal(base + count - 1) + [];
  }

  // Every round prints at most ten digits and a comma, and less than that in the
  // first round when the first rank has fewer digits.
  lemma {:induction false} PrintedLength(base: nat, count: nat, i: nat)
    requires i <= count && base + count <= INT_MAX + 1
    ensures |Printed(base, count, i)| <= i * (MAX_DIGIT_LEN + 1) - if i == count > 0 then 1 else 0
    ensures 0 < i && base < TEN_DIGITS ==>
              |Printed(base, count, i)| < i * (MAX_DIGIT_LEN + 1) - if i == count then 1 else 0
    ensures base >= TEN_DIGITS ==>
              |Printed(base, count, i)| == i * (MAX_DIGIT_LEN + 1) - if i == count > 0 then 1 else 0
  {
    if i > 0 {
      PrintedLength(base, count, i - 1);
      RankDigits(base + i - 1);
    }
  }

  // ---------- fill_seq_ranks_array ----------

  // snprintf of a text into the `size` bytes from `at` on: what fits is stored and
  // terminated; the length the whole text has is returned.
  method Snprintf(buf: array<char>, at: nat, size: int, text: string) returns (length: nat)
    requires at + size <= buf.Length
    modifies buf
    ensures length == |text|
    ensures forall k | 0 <= k < at && k < buf.Length :: buf[k] == old(buf[k])
    ensures forall k | 0 <= k < |text| && k < size - 1 :: buf[at + k] == text[k]
  {
    length := |text|;
    if size > 0 {
      var k := 0;
      while k < |text| && k < size - 1
        invariant 0 <= k <= |text| && k < size
        invariant forall j | 0 <= j < at :: buf[j] == old(buf[j])
        invariant forall j | 0 <= j < k :: buf[at + j] == text[j]
      {
        buf[at + k] := text[k];
        k := k + 1;
      }
      buf[at + k] := 0 as char;
    }
  }

  // One more text behind what was printed; it is all there if it leaves two bytes.
  method Append(buf: array<char>, ghost done: string, len: nat, text: string) returns (len': nat)
    requires len == |done| < buf.Length && buf[..len] == done
    modifies buf
    ensures len' == |done + text|
    ensures len' <= buf.Length - 2 ==> buf[..len'] == done + text
  {
    ghost var before := buf[..];
    var n := Snprintf(buf, len, buf.Length - len - 1, text);
    len' := len + n;
    if len' <= buf.Length - 2 {
      forall k | 0 <= k < len' ensures buf[k] == (done + text)[k] {
        if k < len {
          assert before[k] == done[k];
        } else {
          assert buf[len + (k - len)] == text[k - len];
        }
      }
    }
  }

  /**
   * The buffer never truncates the list of ranks below 10^9: the result is the
   * joined list. From 10^9 on every list fills the buffer, and none is returned.
   */
  method FillSeqRanksArray(nprocs: nat, baseRank: nat) returns (r: Ranks)
    requires baseRank + nprocs <= INT_MAX + 1
    requires nprocs * (MAX_DIGIT_LEN + 1) <= INT_MAX
    ensures r == if 0 < nprocs && baseRank < TEN_DIGITS then Ranks(Listed(baseRank, nprocs)) else NoRanks
  {
    if nprocs == 0 {
      return NoRanks;
    }
    var max := nprocs * (MAX_DIGIT_LEN + 1);
    var buf := new char[max];
    var len := 0;
    var i := 0;
    ghost var done := Printed(baseRank, nprocs, 0);
    assert buf[..0] == done;
    while i < nprocs
      invariant 0 <= i <= nprocs
      invariant done == Printed(baseRank, nprocs, i) && len == |done|
      invariant i < nprocs ==> len <= i * (MAX_DIGIT_LEN + 1)
      invariant len <= max - 2 ==> buf[..len] == done
    {
      PrintedLength(baseRank, nprocs, i);
      PrintedLength(baseRank, nprocs, i + 1);
      RankDigits(baseRank + i);
      ghost var text := Decimal(baseRank + i);
      len := Append(buf, done, len, Decimal(baseRank + i));
      done := done + text;
      if i != nprocs - 1 {
        len := Append(buf, done, len, [',']);
        done := done + [','];
      } else {
        assert done + [] == done;
      }
      i := i + 1;
    }
    PrintedLength(baseRank, nprocs, nprocs);
    PrintedAll(baseRank, nprocs);
    if len >= max - 1 {
      return NoRanks;
    }
    r := Ranks(buf[..len]);
  }

  // ---------- the process map of two servers ----------

  /**
   * What both servers register for two of them: the ranks of server 0, a semicolon,
   * the ranks of server 1.
   */
  function ProcMap(nprocs: nat): (s: string)
  {
    var first := Partition.LocalSize(nprocs, 2, 0);
    Join([Listed(0, first), Listed(first, Partition.LocalSize(nprocs, 2, 1))], ';')
  }

  // The ranks from `from` up to `to`, printed one by one and joined.
  method ListRange(from: nat, to: nat) returns (s: string)
    requires from <= to
    ensures s == Listed(from, to - from)
  {
    var nodes: seq<string> := [];
    var i := from;
    while i < to
      invariant from <= i <= to
      invariant nodes == RankTexts(from, i - from)
    {
      nodes := nodes + [Decimal(i)];
      i := i + 1;
    }
    s := ArgvSplit.JoinAll(nodes, ',');
  }

  /**
   * The part of set_namespace that builds the process map for two servers. With at
   * least one rank on each, either of them arrives at the same string; a server
   * without ranks gives up before.
   */
  method BuildProcMap(nprocs: nat, serverId: nat) returns (r: Ranks)
    requires serverId < 2
    requires nprocs * (MAX_DIGIT_LEN + 1) <= INT_MAX
    ensures nprocs >= 2 ==> r == Ranks(ProcMap(nprocs))
    ensures r == NoRanks <==> nprocs <= serverId
  {
    var baseRank := Partition.ComputeBaseRank(nprocs, 2, serverId);
    var localSize := Partition.LocalSize(nprocs, 2, serverId);
    SharesOfTwo(nprocs);
    var ranks := FillSeqRanksArray(localSize, baseRank);
    if ranks == NoRanks {
      return NoRanks;
    }
    var rks := [ranks.text];
    if serverId == 0 {
      var ppn := ListRange(baseRank + localSize, nprocs);
      rks := rks + [ppn];
    } else {
      var ppn := ListRange(0, baseRank);
      rks := [ppn] + rks;
    }
    var s := ArgvSplit.JoinAll(rks, ';');
    r := Ranks(s);
  }

  lemma SharesOfTwo(nprocs: nat)
    ensures Partition.BaseRank(nprocs, 2, 0) == 0
    ensures Partition.BaseRank(nprocs, 2, 1) == Partition.LocalSize(nprocs, 2, 0)
    ensures Partition.LocalSize(nprocs, 2, 0) + Partition.LocalSize(nprocs, 2, 1) == nprocs
    ensures forall i | 0 <= i < 2 :: Partition.LocalSize(nprocs, 2, i) == 0 <==> nprocs <= i
  {
    assert Partition.BaseRank(nprocs, 2, 1) == Partition.BaseRank(nprocs, 2, 0) + Partition.LocalSize(nprocs, 2, 0);
  }

  // The map names every rank once: read as a list of lists, it is 0 up to nprocs - 1.
  lemma ProcMapListsAll(nprocs: nat)
    requires nprocs >= 2
    ensures var first := Partition.LocalSize(nprocs, 2, 0);
            && ArgvSplit.Split(ProcMap(nprocs), ';') == [Listed(0, first), Listed(first, nprocs - first)]
            && ArgvSplit.Split(Listed(0, first), ',') + ArgvSplit.Split(Listed(first, nprocs - first), ',')
               == RankTexts(0, nprocs)
  {
    var first := Partition.LocalSize(nprocs, 2, 0);
    SharesOfTwo(nprocs);
    ListedFree(0, first);
    ListedFree(first, nprocs - first);
    var v := [Listed(0, first), Listed(first, nprocs - first)];
    ArgvSplit.SplitFilters(Join(v, ';'), ';');
    ArgvSplit.SplitOfJoin(v, ';');
    ArgvSplit.NonEmptyAll(v);
    assert RankTexts(0, first) + RankTexts(first, nprocs - first) == RankTexts(0, nprocs);
  }

  lemma ListedFree(base: nat, count: nat)
    requires count > 0
    ensures ';' !in Listed(base, count) && Listed(base, count) != []
    ensures ArgvSplit.Split(Listed(base, count), ',') == RankTexts(base, count)
  {
    var v := RankTexts(base, count);
    forall k | 0 <= k < |v| ensures ',' !in v[k] && v[k] != [] && ';' !in v[k] {
      var text := Decimal(base + k);
      assert v[k] == text;
      assert forall j | 0 <= j < |text| :: IsDigit(text[j]);
    }
    JoinFree(v, ',', ';');
    ArgvSplit.SplitFilters(Join(v, ','), ',');
    ArgvSplit.SplitOfJoin(v, ',');
    ArgvSplit.NonEmptyAll(v);
  }

  lemma {:induction false} JoinFree(v: seq<string>, d: char, c: char)
    requires c != d && forall k | 0 <= k < |v| :: c !in v[k]
    ensures c !in Join(v, d)
  {
    if |v| > 1 {
      JoinFree(v[1..], d, c);
    }
  }
}
