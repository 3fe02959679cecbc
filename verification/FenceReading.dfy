/** What the --fence parser delivers, and what it rejects, said of the texts it reads. */
module FenceReading {
  import opened CStrings
  import opened FenceGrammar
  import opened Participants

  // ------------------------------------------- what is read of a printed text

  /** The descriptor read from the printed text of one specification. */
  ghost function Read(s: Spec): (d: FenceDesc)
    requires GoodSpec(s)
    ensures ParseFences(PrintSpecs([s])) == Fences([d], 0, false)
  {
    ParsePrintedSpecs([s]);
    assert SpecDescs([s]) == [SpecDesc(s)];
    ParseFences(PrintSpecs([s])).descs[0]
  }

  /** Several specifications are read one by one, each as it would be alone. */
  lemma {:induction false} ReadEach(ss: seq<Spec>)
    requires forall k | 0 <= k < |ss| :: GoodSpec(ss[k])
    ensures ParseFences(PrintSpecs(ss)).bad == 0 && !ParseFences(PrintSpecs(ss)).open
    ensures |ParseFences(PrintSpecs(ss)).descs| == |ss|
    ensures forall k | 0 <= k < |ss| :: ParseFences(PrintSpecs(ss)).descs[k] == Read(ss[k])
  {
    ParsePrintedSpecs(ss);
    SpecDescsEach(ss);
    forall k | 0 <= k < |ss| ensures SpecDesc(ss[k]) == Read(ss[k]) {
      ReadIs(ss[k]);
    }
  }

  lemma ReadIs(s: Spec)
    requires GoodSpec(s)
    ensures Read(s) == SpecDesc(s)
  {
    ParsePrintedSpecs([s]);
    assert SpecDescs([s]) == [SpecDesc(s)];
  }

  lemma {:induction false} SpecDescsEach(ss: seq<Spec>)
    ensures |SpecDescs(ss)| == |ss| && forall k | 0 <= k < |ss| :: SpecDescs(ss)[k] == SpecDesc(ss[k])
  {
    if ss != [] {
      SpecDescsEach(ss[1..]);
      assert forall k | 1 <= k < |ss| :: ss[k] == ss[1..][k - 1];
    }
  }

  /** The flags read are those meant; one group after another is read as each alone. */
  lemma ReadGroups(d: bool, b: bool, gs: seq<Group>, hs: seq<Group>)
    requires GoodSpec(Spec(d, b, gs)) && GoodSpec(Spec(d, b, hs))
    ensures GoodSpec(Spec(d, b, gs + hs))
    ensures Read(Spec(d, b, gs + hs))
         == FenceDesc(d, b, Read(Spec(d, b, gs)).participants + Read(Spec(d, b, hs)).participants)
  {
    ReadIs(Spec(d, b, gs));
    ReadIs(Spec(d, b, hs));
    ReadIs(Spec(d, b, gs + hs));
    GroupsProcsConcat(gs, hs);
  }

  lemma {:induction false} GroupsProcsConcat(gs: seq<Group>, hs: seq<Group>)
    ensures GroupsProcs(gs + hs) == GroupsProcs(gs) + GroupsProcs(hs)
  {
    if gs == [] {
      assert gs + hs == hs;
    } else {
      assert (gs + hs)[1..] == gs[1..] + hs;
      GroupsProcsConcat(gs[1..], hs);
    }
  }

  /** The ranks of a group are read pick after pick. */
  lemma ReadPicks(d: bool, b: bool, ns: nat, ps: seq<Pick>, qs: seq<Pick>)
    requires ns <= INT_MAX && ps != [] && qs != []
    requires forall k | 0 <= k < |ps| :: GoodPick(ps[k])
    requires forall k | 0 <= k < |qs| :: GoodPick(qs[k])
    ensures GoodSpec(Spec(d, b, [Group(ns, Picks(ps))])) && GoodSpec(Spec(d, b, [Group(ns, Picks(qs))]))
    ensures GoodSpec(Spec(d, b, [Group(ns, Picks(ps + qs))]))
    ensures Read(Spec(d, b, [Group(ns, Picks(ps + qs))])).participants
         == Read(Spec(d, b, [Group(ns, Picks(ps))])).participants + Read(Spec(d, b, [Group(ns, Picks(qs))])).participants
  {
    ReadOneGroup(d, b, Group(ns, Picks(ps)));
    ReadOneGroup(d, b, Group(ns, Picks(qs)));
    ReadOneGroup(d, b, Group(ns, Picks(ps + qs)));
    PicksRanksConcat(ps, qs);
    MembersConcat(ns, PicksRanks(ps), PicksRanks(qs));
  }

  lemma ReadOneGroup(d: bool, b: bool, g: Group)
    requires GoodGroup(g)
    ensures GoodSpec(Spec(d, b, [g])) && Read(Spec(d, b, [g])) == FenceDesc(d, b, GroupProcs(g))
  {
    ReadIs(Spec(d, b, [g]));
    assert [g][1..] == [];
    assert GroupsProcs([g]) == GroupProcs(g) + GroupsProcs([]);
  }

  lemma {:induction false} PicksRanksConcat(ps: seq<Pick>, qs: seq<Pick>)
    ensures PicksRanks(ps + qs) == PicksRanks(ps) + PicksRanks(qs)
  {
    if ps == [] {
      assert ps + qs == qs;
    } else {
      assert (ps + qs)[1..] == ps[1..] + qs;
      PicksRanksConcat(ps[1..], qs);
    }
  }

  lemma MembersConcat(ns: int, a: seq<int>, b: seq<int>)
    ensures Members(ns, a + b) == Members(ns, a) + Members(ns, b)
  {
  }

  lemma RangeProcs(g: Group, lo: nat, hi: nat)
    requires g.sel == Picks([Range(lo, hi)]) && lo <= hi <= INT_MAX
    ensures |GroupProcs(g)| == hi - lo + 1
    ensures forall k | 0 <= k <= hi - lo :: GroupProcs(g)[k] == Participant("smoky_nspace-" + Decimal(g.ns), lo + k)
  {
    RangeInclusive(lo, hi);
    OnePick(Range(lo, hi));
    NameOf(g.ns);
  }

  lemma OneProcs(g: Group, r: nat)
    requires g.sel == Picks([One(r)]) && r <= INT_MAX
    ensures GroupProcs(g) == [Participant("smoky_nspace-" + Decimal(g.ns), r)]
  {
    OnePick(One(r));
    NameOf(g.ns);
  }

  /** ns:a-b is read as the b - a + 1 processes from a to b of the namespace ns. */
  lemma ReadRange(d: bool, b: bool, g: Group, lo: nat, hi: nat)
    requires g.ns <= INT_MAX && g.sel == Picks([Range(lo, hi)]) && lo <= hi <= INT_MAX
    ensures GoodSpec(Spec(d, b, [g]))
    ensures var f := Read(Spec(d, b, [g]));
            && f.dataExchange == d && f.blocking == b && |f.participants| == hi - lo + 1
            && forall k | 0 <= k <= hi - lo :: f.participants[k] == Participant("smoky_nspace-" + Decimal(g.ns), lo + k)
  {
    ReadOneGroup(d, b, g);
    RangeProcs(g, lo, hi);
  }

  /** ns:r is read as the process r of the namespace ns. */
  lemma ReadOne(d: bool, b: bool, g: Group, r: nat)
    requires g.ns <= INT_MAX && g.sel == Picks([One(r)]) && r <= INT_MAX
    ensures GoodSpec(Spec(d, b, [g]))
    ensures Read(Spec(d, b, [g])) == FenceDesc(d, b, [Participant("smoky_nspace-" + Decimal(g.ns), r)])
  {
    ReadOneGroup(d, b, g);
    OneProcs(g, r);
  }

  /** ns: without ranks is read as the wildcard of the namespace ns. */
  lemma ReadEveryone(d: bool, b: bool, g: Group)
    requires g.ns <= INT_MAX && g.sel == Everyone
    ensures GoodSpec(Spec(d, b, [g]))
    ensures Read(Spec(d, b, [g])) == FenceDesc(d, b, [Participant("smoky_nspace-" + Decimal(g.ns), 0xffff_fffe)])
  {
    ReadOneGroup(d, b, g);
    NameOf(g.ns);
  }

  lemma OnePick(p: Pick)
    ensures PicksRanks([p]) == PickRanks(p)
  {
    assert [p][1..] == [];
    assert PickRanks(p) + [] == PickRanks(p);
  }

  lemma NameOf(ns: nat)
    ensures NspaceName(ns) == "smoky_nspace-" + Decimal(ns)
  {
    assert "smoky_nspace" + "-" == "smoky_nspace-";
  }

  // --------------------------------------------------------- what is rejected

  /** The flags are the letters d and b; any other character but a blank is an error. */
  lemma {:induction false} FlagsExact(str: string)
    ensures ParseFlags(str).dataExchange <==> 'd' in str
    ensures ParseFlags(str).blocking <==> 'b' in str
    ensures ParseFlags(str).bad <==> exists c | c in str :: c != 'd' && c != 'b' && c != ' '
  {
    if str != [] {
      FlagsExact(str[1..]);
      assert forall c :: c in str <==> c == str[0] || c in str[1..];
      assert str[0] in str;
    }
  }

  lemma {:induction false} GroupsBad(tokens: seq<string>)
    ensures ParseGroups(tokens).bad <==> exists t | t in tokens :: ParseGroup(t).bad
  {
    if tokens != [] {
      GroupsBad(tokens[1..]);
      assert forall t :: t in tokens <==> t == tokens[0] || t in tokens[1..];
      assert tokens[0] in tokens;
    }
  }

  /** A descriptor is malformed exactly for a wrong flag before its bar or a wrong group. */
  lemma DescRejected(flags: string, list: string)
    requires '|' !in flags
    ensures ParseFenceDesc(flags + "|" + list).bad <==>
              || (exists c | c in flags :: c != 'd' && c != 'b' && c != ' ')
              || exists t | t in Tokens(list, ';') :: ParseGroup(t).bad
    ensures '|' !in list ==> (ParseFenceDesc(list).bad <==> exists t | t in Tokens(list, ';') :: ParseGroup(t).bad)
  {
    CutFirst(flags, '|', list);
    FlagsExact(flags);
    GroupsBad(Tokens(list, ';'));
    if '|' !in list {
      CutNone(list, '|');
    }
  }

  /** A number that reads as zero without being written with a leading 0. */
  predicate NoNumber(tok: string) {
    ToInt(Strtol(tok)) == 0 && (tok == "" || tok[0] != '0')
  }

  /** A group needs a colon and a number before it; blanks in front are skipped. */
  lemma GroupRejected(ns: string, ranks: string)
    requires ':' !in ns && (ns == "" || ns[0] != ' ')
    ensures ParseGroup(ns).bad
    ensures ParseGroup(ns + ":" + ranks).bad <==> NoNumber(ns) || ParseRanks(ranks, ToInt(Strtol(ns))).bad
    ensures ParseGroup(ns + ":" + ranks).procs == ParseRanks(ranks, ToInt(Strtol(ns))).procs
  {
    CutNone(ns, ':');
    CutFirst(ns, ':', ranks);
    assert SkipBlanks(ns) == ns;
    var p := ParseRanks(ranks, ToInt(Strtol(ns))).procs;
    assert [] + p == p;
  }

  /** A rank without comma or dash is one number, wrong exactly if it is none. */
  lemma RankRejected(tok: string, ns: int)
    requires tok != "" && tok[0] != ' ' && ',' !in tok && '-' !in tok
    ensures ParseRanks(tok, ns).bad <==> NoNumber(tok)
    ensures ParseRanks(tok, ns).procs
         == [Participant("smoky_nspace-" + Signed(ns), ToInt(Strtol(tok)) % 0x1_0000_0000)]
  {
    assert SkipBlanks(tok) == tok;
    ScanEnds(tok, "", -1);
    assert "" + tok == tok;
    assert "smoky_nspace" + "-" == "smoky_nspace-";
    assert [] + [ToInt(Strtol(tok))] == [ToInt(Strtol(tok))];
  }

  // A part of a list of ranks with neither comma nor dash.
  predicate PlainToken(tok: string) {
    tok != "" && ',' !in tok && '-' !in tok
  }

  /** lo-hi stands for lo, lo + 1, ... and last hi, which is all there is if lo is not below
      it; it is wrong exactly if one of the two is no number. */
  lemma RangeExact(lo: string, hi: string, ns: int)
    requires PlainToken(lo) && PlainToken(hi) && lo[0] != ' ' && ToInt(Strtol(lo)) != -1
    ensures var r := ParseRanks(lo + "-" + hi, ns);
            var a, b := ToInt(Strtol(lo)), ToInt(Strtol(hi));
            var n := if a <= b then b - a else 0;
            && (r.bad <==> NoNumber(lo) || NoNumber(hi))
            && |r.procs| == n + 1 && r.procs[n].rank == b % 0x1_0000_0000
            && forall k | 0 <= k < n :: r.procs[k].rank == (a + k) % 0x1_0000_0000
  {
    var a, b := ToInt(Strtol(lo)), ToInt(Strtol(hi));
    ScanRange(lo, hi);
    RangeRanks(a, b, ns);
    assert SkipBlanks(lo + "-" + hi) == lo + "-" + hi;
  }

  lemma ScanRange(lo: string, hi: string)
    requires PlainToken(lo) && PlainToken(hi) && Number(lo) != -1
    ensures Scan(lo + "-" + hi, [], -1).bad <==> NoNumber(lo) || NoNumber(hi)
    ensures Scan(lo + "-" + hi, [], -1).ranks == UpTo(Number(lo), Number(hi)) + [Number(hi)]
  {
    ScanTo(lo, '-', hi, "");
    assert "" + lo == lo && "" + hi == hi;
    ScanEnds(hi, "", Number(lo));
  }

  lemma RangeRanks(a: int, b: int, ns: int)
    ensures var m := Members(ns, UpTo(a, b) + [b]);
            var n := if a <= b then b - a else 0;
            && |m| == n + 1 && m[n].rank == b % 0x1_0000_0000
            && forall k | 0 <= k < n :: m[k].rank == (a + k) % 0x1_0000_0000
  {
    if a <= b {
      UpToIs(a, b);
    }
  }

  /** The ranks between commas are read one after the other. */
  lemma RanksInTurn(first: string, rest: string, ns: int)
    requires PlainToken(first) && first[0] != ' ' && rest != "" && rest[0] != ' '
    ensures ParseRanks(first + "," + rest, ns).bad <==> NoNumber(first) || ParseRanks(rest, ns).bad
    ensures ParseRanks(first + "," + rest, ns).procs == ParseRanks(first, ns).procs + ParseRanks(rest, ns).procs
  {
    assert SkipBlanks(first + "," + rest) == first + "," + rest;
    assert SkipBlanks(rest) == rest && SkipBlanks(first) == first;
    ScanTo(first, ',', rest, "");
    ScanEnds(first, "", -1);
    assert "" + first == first;
    MembersConcat(ns, [ToInt(Strtol(first))], Scan(rest, [], -1).ranks);
    assert [] + [ToInt(Strtol(first))] == [ToInt(Strtol(first))];
  }

  // Reading on to a comma or a dash.
  lemma {:induction false} ScanTo(before: string, c: char, rest: string, tok: string)
    requires ',' !in before && '-' !in before && tok + before != "" && (c == ',' || c == '-')
    ensures Scan(before + [c] + rest, tok, -1)
         == if c == ',' then Flush(tok + before, -1).Then(Scan(rest, [], -1))
            else Scanned([], Malformed(Number(tok + before), tok + before)).Then(Scan(rest, [], Number(tok + before)))
    decreases |before|
  {
    var s := before + [c] + rest;
    if before == "" {
      assert tok + before == tok && s[1..] == rest;
    } else {
      assert s[0] == before[0] && s[1..] == before[1..] + [c] + rest;
      assert tok + [before[0]] + before[1..] == tok + before;
      ScanTo(before[1..], c, rest, tok + [before[0]]);
    }
  }

  lemma {:induction false} ScanEnds(rest: string, tok: string, remember: int)
    requires ',' !in rest && '-' !in rest && tok + rest != ""
    ensures Scan(rest, tok, remember) == Flush(tok + rest, remember)
    decreases |rest|
  {
    if rest == "" {
      assert tok + rest == tok;
    } else {
      assert tok + [rest[0]] + rest[1..] == tok + rest;
      ScanEnds(rest[1..], tok + [rest[0]], remember);
    }
  }

  /** A word is no number. */
  lemma WordIsNoNumber(tok: string)
    requires tok != "" && !IsDigit(tok[0]) && !IsSpace(tok[0]) && tok[0] != '-' && tok[0] != '+'
    ensures NoNumber(tok)
  {
    assert SkipSpaces(tok) == tok;
    assert DigitRun(tok, 0) == 0;
  }

  /** Every malformed descriptor is counted. */
  lemma {:induction false} SomeBad(bodies: seq<string>)
    ensures CountBad(bodies) > 0 <==> exists t | t in bodies :: ParseFenceDesc(t).bad
    ensures CountBad(bodies) <= |bodies|
  {
    if bodies != [] {
      SomeBad(bodies[1..]);
      assert forall t :: t in bodies <==> t == bodies[0] || t in bodies[1..];
      assert bodies[0] in bodies;
    }
  }

  /** A bracket that stays open, and one more descriptor in front of the others. */
  lemma FencesRejected(body: string, tail: string)
    requires ']' !in body
    ensures ParseFences("[" + body).open
    ensures ParseFences("[" + body + "]" + tail).open == ParseFences(tail).open
    ensures ParseFences("[" + body + "]" + tail).bad
         == ParseFences(tail).bad + if ParseFenceDesc(body).bad then 1 else 0
    ensures ParseFences("[" + body + "]" + tail).descs == [ParseFenceDesc(body).desc] + ParseFences(tail).descs
  {
    OneMoreBody(body, tail);
    DescsCons(body, Bodies(tail).bodies, ParseFenceDesc(body));
    assert "[" + body == [] + ['['] + body;
    CutFirst([], '[', body);
    CutNone(body, ']');
  }
}
