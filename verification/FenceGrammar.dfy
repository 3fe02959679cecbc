/** The --fence option: parse_fence and parse_token of unit/test_common.c, against a
    printer for the documented syntax [<data_exchange><blocking> | ns0:ranks;ns1:ranks...]... */
module FenceGrammar {
  import opened CStrings
  import opened Participants
  import opened Sequences

  datatype FenceDesc = FenceDesc(dataExchange: bool, blocking: bool, participants: seq<Participant>)

  // ------------------------------------------------------------- rank lists

  datatype Scanned = Scanned(ranks: seq<int>, bad: bool) {
    function Then(next: Scanned): Scanned {
      Scanned(ranks + next.ranks, bad || next.bad)
    }
  }

  function Number(tok: string): int {
    ToInt(Strtol(tok))
  }

  /** CHECK_STRTOL_VAL: a zero must be written with a leading 0. */
  predicate Malformed(val: int, tok: string) {
    val == 0 && (tok == [] || tok[0] != '0')
  }

  /** lo, lo + 1, ... up to but excluding hi */
  function UpTo(lo: int, hi: int): (s: seq<int>)
    decreases hi - lo
  {
    if lo >= hi then [] else [lo] + UpTo(lo + 1, hi)
  }

  /** A number ends: on its own, or as the end of a range begun by `remember`. */
  function Flush(tok: string, remember: int): Scanned {
    var rank := Number(tok);
    Scanned((if remember != -1 then UpTo(remember, rank) else []) + [rank], Malformed(rank, tok))
  }

  /** The character loop of step 3: `tok` is the number being read (count is its length). */
  function Scan(rest: string, tok: string, remember: int): Scanned
    decreases |rest|
  {
    if rest == [] then
      if tok == [] then Scanned([], false) else Flush(tok, remember)
    else if rest[0] == ',' && tok != [] then Flush(tok, remember).Then(Scan(rest[1..], [], -1))
    else if rest[0] == '-' && tok != [] then
      Scanned([], Malformed(Number(tok), tok)).Then(Scan(rest[1..], [], Number(tok)))
    else Scan(rest[1..], tok + [rest[0]], remember)
  }

  function SkipBlanks(s: string): (t: string)
    ensures |t| <= |s|
  {
    if s != [] && s[0] == ' ' then SkipBlanks(s[1..]) else s
  }

  datatype Parsed = Parsed(procs: seq<Participant>, bad: bool) {
    function Then(next: Parsed): Parsed {
      Parsed(procs + next.procs, bad || next.bad)
    }
  }

  function Members(ns: int, ranks: seq<int>): (procs: seq<Participant>)
    ensures |procs| == |ranks|
  {
    seq(|ranks|, k requires 0 <= k < |ranks| => Participant(NspaceName(ns), ToRank(ranks[k])))
  }

  /** parse_token step 3 */
  function ParseRanks(str: string, ns: int): Parsed {
    var s := SkipBlanks(str);
    if s == [] then Parsed([Participant(NspaceName(ns), WILDCARD)], false)
    else
      var r := Scan(s, [], -1);
      Parsed(Members(ns, r.ranks), r.bad)
  }

  /** parse_token step 2 */
  function ParseGroup(str: string): Parsed {
    match CutAt(str, ':')
    case Uncut => Parsed([], true)
    case Cut(before, after) =>
      var id := SkipBlanks(before);
      Parsed([], Malformed(Number(id), id)).Then(ParseRanks(after, Number(id)))
  }

  function ParseGroups(tokens: seq<string>): Parsed {
    if tokens == [] then Parsed([], false) else ParseGroup(tokens[0]).Then(ParseGroups(tokens[1..]))
  }

  /** parse_token step 1 */
  function ParseList(str: string): Parsed {
    ParseGroups(Tokens(str, ';'))
  }

  datatype Flags = Flags(dataExchange: bool, blocking: bool, bad: bool)

  function ParseFlags(str: string): Flags {
    if str == [] then Flags(false, false, false)
    else
      var f := ParseFlags(str[1..]);
      match str[0]
      case 'd' => f.(dataExchange := true)
      case 'b' => f.(blocking := true)
      case ' ' => f
      case _ => f.(bad := true)
  }

  datatype Fenced = Fenced(desc: FenceDesc, bad: bool)

  /** parse_token step 0: the inside of one pair of brackets */
  function ParseFenceDesc(str: string): Fenced {
    var cut := CutAt(str, '|');
    var f := if cut.Cut? then ParseFlags(cut.before) else Flags(false, false, false);
    var p := ParseList(if cut.Cut? then cut.after else str);
    Fenced(FenceDesc(f.dataExchange, f.blocking, p.procs), f.bad || p.bad)
  }

  /** The insides of the bracket pairs, and whether the last bracket stays open. */
  datatype Bracketed = Bracketed(bodies: seq<string>, open: bool)

  function Bodies(s: string): Bracketed
    decreases |s|
  {
    match CutAt(s, '[')
    case Uncut => Bracketed([], false)
    case Cut(_, inner) =>
      match CutAt(inner, ']')
      case Uncut => Bracketed([], true)
      case Cut(body, rest) => Bracketed([body] + Bodies(rest).bodies, Bodies(rest).open)
  }

  function DescsOf(bodies: seq<string>): seq<FenceDesc> {
    if bodies == [] then [] else [ParseFenceDesc(bodies[0]).desc] + DescsOf(bodies[1..])
  }

  function CountBad(bodies: seq<string>): nat {
    if bodies == [] then 0 else (if ParseFenceDesc(bodies[0]).bad then 1 else 0) + CountBad(bodies[1..])
  }

  /** The descriptors found, how many of them are malformed, and whether a bracket stays open. */
  datatype Fences = Fences(descs: seq<FenceDesc>, bad: nat, open: bool)

  function ParseFences(s: string): Fences {
    var b := Bodies(s);
    Fences(DescsOf(b.bodies), CountBad(b.bodies), b.open)
  }

  // ----------------------------------------------------------------- printer

  datatype Pick = One(r: nat) | Range(a: nat, b: nat)
  datatype Selection = Everyone | Picks(picks: seq<Pick>)
  datatype Group = Group(ns: nat, sel: Selection)
  datatype Spec = Spec(dataExchange: bool, blocking: bool, groups: seq<Group>)

  predicate GoodPick(p: Pick) {
    match p
    case One(r) => r <= INT_MAX
    case Range(a, b) => a <= b <= INT_MAX
  }

  predicate GoodGroup(g: Group) {
    && g.ns <= INT_MAX
    && (g.sel.Picks? ==> g.sel.picks != [] && forall k | 0 <= k < |g.sel.picks| :: GoodPick(g.sel.picks[k]))
  }

  predicate GoodSpec(s: Spec) {
    s.groups != [] && forall k | 0 <= k < |s.groups| :: GoodGroup(s.groups[k])
  }

  function PrintPick(p: Pick): string {
    match p
    case One(r) => Decimal(r)
    case Range(a, b) => Decimal(a) + "-" + Decimal(b)
  }

  function PrintPicks(ps: seq<Pick>): string {
    if ps == [] then [] else if |ps| == 1 then PrintPick(ps[0]) else PrintPick(ps[0]) + "," + PrintPicks(ps[1..])
  }

  function PrintGroup(g: Group): string {
    Decimal(g.ns) + ":" + match g.sel case Everyone => "" case Picks(ps) => PrintPicks(ps)
  }

  function GroupTexts(gs: seq<Group>): (t: seq<string>)
    ensures |t| == |gs|
  {
    if gs == [] then [] else [PrintGroup(gs[0])] + GroupTexts(gs[1..])
  }

  function PrintFlags(s: Spec): string {
    if s.dataExchange || s.blocking then
      (if s.dataExchange then "d" else "") + (if s.blocking then "b" else "") + " | "
    else ""
  }

  function PrintSpec(s: Spec): string {
    "[" + (PrintFlags(s) + Join(GroupTexts(s.groups), ';')) + "]"
  }

  function PrintSpecs(ss: seq<Spec>): string {
    if ss == [] then "" else PrintSpec(ss[0]) + PrintSpecs(ss[1..])
  }

  // ----------------------------------------------------------------- meaning

  function PickRanks(p: Pick): seq<int> {
    match p
    case One(r) => [r]
    case Range(a, b) => UpTo(a, b) + [b]
  }

  function PicksRanks(ps: seq<Pick>): seq<int> {
    if ps == [] then [] else PickRanks(ps[0]) + PicksRanks(ps[1..])
  }

  function GroupProcs(g: Group): seq<Participant> {
    match g.sel
    case Everyone => [Participant(NspaceName(g.ns), WILDCARD)]
    case Picks(ps) => Members(g.ns, PicksRanks(ps))
  }

  function GroupsProcs(gs: seq<Group>): seq<Participant> {
    if gs == [] then [] else GroupProcs(gs[0]) + GroupsProcs(gs[1..])
  }

  function SpecDesc(s: Spec): FenceDesc {
    FenceDesc(s.dataExchange, s.blocking, GroupsProcs(s.groups))
  }

  function SpecDescs(ss: seq<Spec>): seq<FenceDesc> {
    if ss == [] then [] else [SpecDesc(ss[0])] + SpecDescs(ss[1..])
  }

  /** Ranges are inclusive: a range stands for exactly the ranks a, a + 1, ..., b. */
  lemma {:induction false} RangeInclusive(a: nat, b: nat)
    requires a <= b
    ensures |PickRanks(Range(a, b))| == b - a + 1
    ensures forall k | 0 <= k <= b - a :: PickRanks(Range(a, b))[k] == a + k
  {
    UpToIs(a, b);
  }

  lemma {:induction false} UpToIs(lo: int, hi: int)
    requires lo <= hi
    ensures |UpTo(lo, hi)| == hi - lo && forall k | 0 <= k < hi - lo :: UpTo(lo, hi)[k] == lo + k
    decreases hi - lo
  {
    if lo < hi {
      UpToIs(lo + 1, hi);
    }
  }

  // -------------------------------------------------------------- round trip

  lemma {:induction false} ScanDigits(d: string, rest: string, tok: string, remember: int)
    requires forall k | 0 <= k < |d| :: IsDigit(d[k])
    ensures Scan(d + rest, tok, remember) == Scan(rest, tok + d, remember)
    decreases |d|
  {
    if d == [] {
      assert d + rest == rest && tok + d == tok;
    } else {
      assert (d + rest)[1..] == d[1..] + rest;
      assert tok + [d[0]] + d[1..] == tok + d;
      ScanDigits(d[1..], rest, tok + [d[0]], remember);
    }
  }

  lemma NumberOfDecimal(n: nat)
    requires n <= INT_MAX
    ensures Number(Decimal(n)) == n && !Malformed(n, Decimal(n))
  {
    assert Decimal(n) + [] == Decimal(n);
    StrtolDecimal(n, []);
    DecimalStartsWithZero(n);
  }

  lemma ScanDash(tok: string, tail: string)
    requires tok != []
    ensures Scan(['-'] + tail, tok, -1) == Scanned([], Malformed(Number(tok), tok)).Then(Scan(tail, [], Number(tok)))
  {
    assert (['-'] + tail)[1..] == tail;
  }

  lemma ScanNumber(n: nat, remember: int, rest: string)
    requires n <= INT_MAX && (rest == [] || rest[0] == ',')
    ensures Number(Decimal(n)) == n && !Flush(Decimal(n), remember).bad
    ensures Scan(Decimal(n) + rest, [], remember)
         == if rest == [] then Flush(Decimal(n), remember)
            else Flush(Decimal(n), remember).Then(Scan(rest[1..], [], -1))
  {
    NumberOfDecimal(n);
    ScanDigits(Decimal(n), rest, [], remember);
    assert [] + Decimal(n) == Decimal(n);
    ScanEnd(Decimal(n), remember, rest);
  }

  lemma ScanRange(a: nat, b: nat, rest: string)
    requires a <= b <= INT_MAX && (rest == [] || rest[0] == ',')
    ensures Scan(PrintPick(Range(a, b)) + rest, [], -1) == Scan(Decimal(b) + rest, [], a)
  {
    var tail := Decimal(b) + rest;
    RangeText(Decimal(a), Decimal(b), rest);
    ScanDigits(Decimal(a), ['-'] + tail, [], -1);
    ScanFirst(a, tail);
  }

  lemma RangeText(a: string, b: string, rest: string)
    ensures a + "-" + b + rest == a + (['-'] + (b + rest))
  {
  }

  /** The first number of a range is remembered. */
  lemma ScanFirst(a: nat, tail: string)
    requires a <= INT_MAX
    ensures Scan(['-'] + tail, [] + Decimal(a), -1) == Scan(tail, [], a)
  {
    NumberOfDecimal(a);
    assert [] + Decimal(a) == Decimal(a);
    ScanDash(Decimal(a), tail);
    assert [] + Scan(tail, [], a).ranks == Scan(tail, [], a).ranks;
  }

  lemma ScanPick(p: Pick, rest: string)
    requires GoodPick(p) && (rest == [] || rest[0] == ',')
    ensures Scan(PrintPick(p) + rest, [], -1)
         == if rest == [] then Scanned(PickRanks(p), false)
            else Scanned(PickRanks(p), false).Then(Scan(rest[1..], [], -1))
  {
    match p {
      case One(r) =>
        ScanNumber(r, -1, rest);
        assert [] + [r] == PickRanks(p);
      case Range(a, b) =>
        ScanRange(a, b, rest);
        ScanNumber(b, a, rest);
    }
  }

  lemma ScanEnd(tok: string, remember: int, rest: string)
    requires tok != [] && (rest == [] || rest[0] == ',')
    ensures Scan(rest, tok, remember)
         == if rest == [] then Flush(tok, remember) else Flush(tok, remember).Then(Scan(rest[1..], [], -1))
  {
  }

  lemma {:induction false} ScanPicks(ps: seq<Pick>)
    requires ps != [] && forall k | 0 <= k < |ps| :: GoodPick(ps[k])
    ensures Scan(PrintPicks(ps), [], -1) == Scanned(PicksRanks(ps), false)
    decreases |ps|
  {
    if |ps| == 1 {
      ScanPick(ps[0], []);
      assert PrintPick(ps[0]) + [] == PrintPick(ps[0]);
      assert PicksRanks(ps) == PickRanks(ps[0]) + [];
    } else {
      var rest := "," + PrintPicks(ps[1..]);
      assert PrintPicks(ps) == PrintPick(ps[0]) + rest;
      ScanPick(ps[0], rest);
      assert rest[1..] == PrintPicks(ps[1..]);
      ScanPicks(ps[1..]);
    }
  }

  // The characters that may occur in printed groups.

  predicate IsGroupChar(c: char) {
    IsDigit(c) || c == ',' || c == '-' || c == ':'
  }

  predicate GroupText(s: string) {
    forall k | 0 <= k < |s| :: IsGroupChar(s[k])
  }

  lemma {:induction false} PicksText(ps: seq<Pick>)
    ensures GroupText(PrintPicks(ps))
    ensures ps != [] ==> PrintPicks(ps) != [] && IsDigit(PrintPicks(ps)[0])
  {
    if |ps| > 1 {
      PicksText(ps[1..]);
    }
  }

  lemma GroupPrints(g: Group)
    ensures GroupText(PrintGroup(g)) && PrintGroup(g) != [] && IsDigit(PrintGroup(g)[0])
  {
    if g.sel.Picks? {
      PicksText(g.sel.picks);
    }
  }

  lemma BlankedPrints(g: Group, lead: string)
    requires lead == "" || lead == " "
    ensures lead + PrintGroup(g) != [] && ';' !in lead + PrintGroup(g)
  {
    GroupPrints(g);
  }

  /** One printed group, possibly after the blank that follows the bar. */
  lemma ParsePrintedGroup(g: Group, lead: string)
    requires GoodGroup(g) && (lead == "" || lead == " ")
    ensures ParseGroup(lead + PrintGroup(g)) == Parsed(GroupProcs(g), false)
  {
    var id := Decimal(g.ns);
    var sel := match g.sel case Everyone => "" case Picks(ps) => PrintPicks(ps);
    var s := lead + PrintGroup(g);
    assert s == (lead + id) + [':'] + sel;
    CutFirst(lead + id, ':', sel);
    assert SkipBlanks(lead + id) == id by {
      assert lead == " " ==> (lead + id)[1..] == id;
      assert SkipBlanks(id) == id;
    }
    NumberOfDecimal(g.ns);
    ParsePrintedRanks(g, sel);
    assert [] + GroupProcs(g) == GroupProcs(g);
  }

  lemma ParsePrintedRanks(g: Group, sel: string)
    requires GoodGroup(g) && sel == match g.sel case Everyone => "" case Picks(ps) => PrintPicks(ps)
    ensures ParseRanks(sel, g.ns) == Parsed(GroupProcs(g), false)
  {
    match g.sel {
      case Everyone =>
      case Picks(ps) =>
        PicksText(ps);
        ScanPicks(ps);
        assert SkipBlanks(sel) == sel;
    }
  }

  lemma ParseGroupsCons(x: string, xs: seq<string>, p: Parsed, q: Parsed)
    requires ParseGroup(x) == p && ParseGroups(xs) == q
    ensures ParseGroups([x] + xs) == p.Then(q)
  {
    assert ([x] + xs)[1..] == xs;
  }

  lemma {:induction false} ParsePrintedGroups(gs: seq<Group>)
    requires forall k | 0 <= k < |gs| :: GoodGroup(gs[k])
    ensures ParseGroups(GroupTexts(gs)) == Parsed(GroupsProcs(gs), false)
  {
    if gs != [] {
      assert "" + PrintGroup(gs[0]) == PrintGroup(gs[0]);
      ParsePrintedGroup(gs[0], "");
      ParsePrintedGroups(gs[1..]);
      ParseGroupsCons(PrintGroup(gs[0]), GroupTexts(gs[1..]), Parsed(GroupProcs(gs[0]), false), Parsed(GroupsProcs(gs[1..]), false));
    }
  }

  lemma {:induction false} TextsPlain(gs: seq<Group>)
    ensures forall k | 0 <= k < |gs| :: GroupTexts(gs)[k] != [] && GroupText(GroupTexts(gs)[k])
    ensures forall c | c in Join(GroupTexts(gs), ';') :: IsGroupChar(c) || c == ';'
  {
    var t := GroupTexts(gs);
    if gs != [] {
      GroupPrints(gs[0]);
      TextsPlain(gs[1..]);
      assert t[1..] == GroupTexts(gs[1..]);
      forall c | c in Join(t, ';') ensures IsGroupChar(c) || c == ';' {
        if |t| > 1 {
          assert Join(t, ';') == t[0] + [';'] + Join(t[1..], ';');
          assert c in t[0] || c == ';' || c in Join(t[1..], ';');
        }
      }
    }
  }

  lemma JoinLead(v: seq<string>, lead: string)
    requires v != []
    ensures Join([lead + v[0]] + v[1..], ';') == lead + Join(v, ';')
  {
    var w := [lead + v[0]] + v[1..];
    assert w[1..] == v[1..];
    if |v| > 1 {
      assert (lead + v[0]) + [';'] + Join(v[1..], ';') == lead + (v[0] + [';'] + Join(v[1..], ';'));
    }
  }

  function LeadTexts(gs: seq<Group>, lead: string): seq<string>
    requires gs != []
  {
    [lead + PrintGroup(gs[0])] + GroupTexts(gs[1..])
  }

  lemma LeadTextsSplit(gs: seq<Group>, lead: string)
    requires gs != [] && (lead == "" || lead == " ")
    ensures Tokens(lead + Join(GroupTexts(gs), ';'), ';') == LeadTexts(gs, lead)
  {
    var v := LeadTexts(gs, lead);
    TextsPlain(gs[1..]);
    BlankedPrints(gs[0], lead);
    forall k | 0 <= k < |v| ensures v[k] != [] && ';' !in v[k] {
      if k > 0 {
        assert v[k] == GroupTexts(gs[1..])[k - 1];
      }
    }
    TokensOfJoin(v, ';');
    assert GroupTexts(gs)[1..] == GroupTexts(gs[1..]);
    JoinLead(GroupTexts(gs), lead);
  }

  lemma ParseLeadTexts(gs: seq<Group>, lead: string)
    requires gs != [] && (lead == "" || lead == " ") && forall k | 0 <= k < |gs| :: GoodGroup(gs[k])
    ensures ParseGroups(LeadTexts(gs, lead)) == Parsed(GroupsProcs(gs), false)
  {
    ParsePrintedGroup(gs[0], lead);
    ParsePrintedGroups(gs[1..]);
    ParseGroupsCons(lead + PrintGroup(gs[0]), GroupTexts(gs[1..]), Parsed(GroupProcs(gs[0]), false), Parsed(GroupsProcs(gs[1..]), false));
  }

  /** The whole list of groups, possibly after a blank. */
  lemma ParsePrintedList(gs: seq<Group>, lead: string)
    requires gs != [] && (lead == "" || lead == " ") && forall k | 0 <= k < |gs| :: GoodGroup(gs[k])
    ensures ParseList(lead + Join(GroupTexts(gs), ';')) == Parsed(GroupsProcs(gs), false)
  {
    LeadTextsSplit(gs, lead);
    ParseLeadTexts(gs, lead);
  }

  function FlagsText(s: Spec): string {
    (if s.dataExchange then "d" else "") + (if s.blocking then "b" else "") + " "
  }

  lemma FlagsBack(s: Spec)
    ensures ParseFlags(FlagsText(s)) == Flags(s.dataExchange, s.blocking, false)
  {
    var front := FlagsText(s);
    assert ParseFlags("") == Flags(false, false, false);
    assert " "[1..] == "";
    assert ParseFlags(" ") == Flags(false, false, false);
    if s.blocking {
      assert "b "[1..] == " ";
      assert ParseFlags("b ") == Flags(false, true, false);
    }
    if s.dataExchange {
      assert s.blocking ==> front == "db " && "db "[1..] == "b ";
      assert !s.blocking ==> front == "d " && "d "[1..] == " ";
    } else {
      assert s.blocking ==> front == "b ";
      assert !s.blocking ==> front == " ";
    }
  }

  lemma ParsePrintedSpec(s: Spec)
    requires GoodSpec(s)
    ensures ParseFenceDesc(PrintFlags(s) + Join(GroupTexts(s.groups), ';')) == Fenced(SpecDesc(s), false)
  {
    var flags, list := PrintFlags(s), Join(GroupTexts(s.groups), ';');
    var str := flags + list;
    TextsPlain(s.groups);
    if s.dataExchange || s.blocking {
      FlagsBack(s);
      assert str == FlagsText(s) + ['|'] + (" " + list);
      CutFirst(FlagsText(s), '|', " " + list);
      ParsePrintedList(s.groups, " ");
    } else {
      assert str == list == "" + list;
      CutNone(list, '|');
      ParsePrintedList(s.groups, "");
    }
  }

  function SpecBody(s: Spec): string {
    PrintFlags(s) + Join(GroupTexts(s.groups), ';')
  }

  function SpecBodies(ss: seq<Spec>): (b: seq<string>)
    ensures |b| == |ss|
  {
    if ss == [] then [] else [SpecBody(ss[0])] + SpecBodies(ss[1..])
  }

  /** One bracketed descriptor, then the rest. */
  lemma OneMoreBody(inner: string, tail: string)
    requires ']' !in inner
    ensures Bodies("[" + inner + "]" + tail) == Bracketed([inner] + Bodies(tail).bodies, Bodies(tail).open)
  {
    var s := "[" + inner + "]" + tail;
    assert s == [] + ['['] + (inner + [']'] + tail);
    CutFirst([], '[', inner + [']'] + tail);
    CutFirst(inner, ']', tail);
  }

  lemma {:induction false} BodiesOfPrint(ss: seq<Spec>)
    ensures Bodies(PrintSpecs(ss)) == Bracketed(SpecBodies(ss), false)
  {
    if ss != [] {
      var inner := SpecBody(ss[0]);
      TextsPlain(ss[0].groups);
      assert PrintSpecs(ss) == "[" + inner + "]" + PrintSpecs(ss[1..]);
      OneMoreBody(inner, PrintSpecs(ss[1..]));
      BodiesOfPrint(ss[1..]);
    }
  }

  lemma DescsCons(body: string, bodies: seq<string>, f: Fenced)
    requires ParseFenceDesc(body) == f
    ensures DescsOf([body] + bodies) == [f.desc] + DescsOf(bodies)
    ensures CountBad([body] + bodies) == (if f.bad then 1 else 0) + CountBad(bodies)
  {
    assert ([body] + bodies)[1..] == bodies;
  }

  lemma {:induction false} DescsOfPrint(ss: seq<Spec>)
    requires forall k | 0 <= k < |ss| :: GoodSpec(ss[k])
    ensures DescsOf(SpecBodies(ss)) == SpecDescs(ss) && CountBad(SpecBodies(ss)) == 0
  {
    if ss != [] {
      ParsePrintedSpec(ss[0]);
      DescsOfPrint(ss[1..]);
      DescsCons(SpecBody(ss[0]), SpecBodies(ss[1..]), Fenced(SpecDesc(ss[0]), false));
    }
  }

  /** For all fences in the documented syntax: nothing is malformed, and the
      descriptors found are those printed, in order, with exactly their ranks. */
  lemma ParsePrintedSpecs(ss: seq<Spec>)
    requires forall k | 0 <= k < |ss| :: GoodSpec(ss[k])
    ensures ParseFences(PrintSpecs(ss)) == Fences(SpecDescs(ss), 0, false)
  {
    BodiesOfPrint(ss);
    DescsOfPrint(ss);
  }

  // ------------------------------------------------------------- the C loops

  lemma {:induction false} UpToSnoc(lo: int, hi: int)
    requires lo <= hi
    ensures UpTo(lo, hi + 1) == UpTo(lo, hi) + [hi]
    decreases hi - lo
  {
    if lo < hi {
      UpToSnoc(lo + 1, hi);
      assert [lo] + (UpTo(lo + 1, hi) + [hi]) == [lo] + UpTo(lo + 1, hi) + [hi];
    } else {
      assert UpTo(hi + 1, hi + 1) == [];
    }
  }

  method FlushRank(tok: string, remember: int) returns (r: Scanned)
    ensures r == Flush(tok, remember)
  {
    var rank := Number(tok);
    var ranks: seq<int> := [];
    if remember != -1 {
      var i := remember;
      while i < rank
        invariant if remember <= rank then remember <= i <= rank else i == remember
        invariant ranks == UpTo(remember, i)
        decreases rank - i
      {
        UpToSnoc(remember, i);
        ranks := ranks + [i];
        i := i + 1;
      }
      assert rank < remember ==> UpTo(remember, remember) == UpTo(remember, rank);
    }
    r := Scanned(ranks + [rank], Malformed(rank, tok));
  }

  lemma ScanStep(rest: string, tok: string, remember: int, seen: Scanned)
    requires rest != []
    ensures seen.Then(Scan(rest, tok, remember)) ==
            if rest[0] == ',' && tok != [] then seen.Then(Flush(tok, remember)).Then(Scan(rest[1..], [], -1))
            else if rest[0] == '-' && tok != [] then
              Scanned(seen.ranks, seen.bad || Malformed(Number(tok), tok)).Then(Scan(rest[1..], [], Number(tok)))
            else seen.Then(Scan(rest[1..], tok + [rest[0]], remember))
  {
    var next := Scan(rest[1..], [], -1);
    assert seen.ranks + (Flush(tok, remember).ranks + next.ranks) == seen.ranks + Flush(tok, remember).ranks + next.ranks;
    var after := Scan(rest[1..], [], Number(tok));
    assert [] + after.ranks == after.ranks;
  }

  lemma SliceSnoc<X>(s: seq<X>, lo: nat, i: nat)
    requires lo <= i < |s|
    ensures s[lo..i] + [s[i]] == s[lo..i + 1]
  {
  }

  /** Step 3's loop over the characters: str[i - count..i] is the number being read. */
  method ScanRanks(str: string) returns (r: Scanned)
    ensures r == Scan(str, [], -1)
  {
    r := Scanned([], false);
    var i, count, remember := 0, 0, -1;
    assert str[0..] == str && str[0..0] == [];
    while i < |str|
      invariant 0 <= count <= i <= |str|
      invariant Scan(str, [], -1) == r.Then(Scan(str[i..], str[i - count..i], remember))
    {
      ghost var tok := str[i - count..i];
      ScanStep(str[i..], tok, remember, r);
      assert str[i..][1..] == str[i + 1..];
      if str[i] == ',' && count != 0 {
        var flushed := FlushRank(str[i - count..i], remember);
        r := Scanned(r.ranks + flushed.ranks, r.bad || flushed.bad);
        remember, count := -1, -1;
      } else if str[i] == '-' && count != 0 {
        remember := Number(str[i - count..i]);
        r := Scanned(r.ranks, r.bad || Malformed(remember, str[i - count..i]));
        count := -1;
      } else {
        SliceSnoc(str, i - count, i);
      }
      i := i + 1;
      count := count + 1;
      assert count == 0 ==> str[i - count..i] == [];
    }
    assert str[i..] == [];
    if count != 0 {
      var flushed := FlushRank(str[i - count..i], remember);
      r := Scanned(r.ranks + flushed.ranks, r.bad || flushed.bad);
    }
  }

  /** parse_token steps 3 and 2: one namespace with its ranks, appended to `participants`. */
  method ParseGroupInto(str: string, participants: seq<Participant>) returns (bad: bool, participants': seq<Participant>)
    ensures bad == ParseGroup(str).bad && participants' == participants + ParseGroup(str).procs
  {
    var cut := CutAt(str, ':');
    if cut.Uncut? {
      return true, participants;
    }
    var id := SkipBlanks(cut.before);
    var ns := Number(id);
    var ranks := SkipBlanks(cut.after);
    assert [] + ParseRanks(cut.after, ns).procs == ParseRanks(cut.after, ns).procs;
    if ranks == [] {
      bad, participants' := Malformed(ns, id), participants + [Participant(NspaceName(ns), WILDCARD)];
    } else {
      var r := ScanRanks(ranks);
      bad, participants' := Malformed(ns, id) || r.bad, participants + Members(ns, r.ranks);
    }
  }

  lemma GroupsStep(tokens: seq<string>, seen: Parsed)
    requires tokens != []
    ensures seen.Then(ParseGroups(tokens)) == seen.Then(ParseGroup(tokens[0])).Then(ParseGroups(tokens[1..]))
  {
    var g, rest := ParseGroup(tokens[0]), ParseGroups(tokens[1..]);
    assert seen.procs + (g.procs + rest.procs) == seen.procs + g.procs + rest.procs;
  }

  /** parse_token step 1: the strtok loop. */
  method ParseListInto(str: string) returns (bad: bool, participants: seq<Participant>)
    ensures Parsed(participants, bad) == ParseList(str)
  {
    bad, participants := false, [];
    var tokens := Tokens(str, ';');
    ghost var whole := ParseGroups(tokens);
    ghost var seen := Parsed([], false);
    assert [] + whole.procs == whole.procs;
    while tokens != []
      invariant seen == Parsed(participants, bad)
      invariant whole == seen.Then(ParseGroups(tokens))
      decreases |tokens|
    {
      GroupsStep(tokens, seen);
      var b, next := ParseGroupInto(tokens[0], participants);
      participants, bad := next, bad || b;
      seen, tokens := Parsed(participants, bad), tokens[1..];
    }
    assert participants + [] == participants;
  }

  /** parse_token step 0: the flag loop, then the list. */
  method ParseDesc(str: string) returns (f: Fenced)
    ensures f == ParseFenceDesc(str)
  {
    var cut := CutAt(str, '|');
    var dataExchange, blocking, bad := false, false, false;
    var list := str;
    if cut.Cut? {
      var flags := cut.before;
      var i := 0;
      ghost var all := ParseFlags(flags);
      while i < |flags|
        invariant 0 <= i <= |flags|
        invariant var f := ParseFlags(flags[i..]);
                  all == Flags(dataExchange || f.dataExchange, blocking || f.blocking, bad || f.bad)
      {
        assert flags[i..][1..] == flags[i + 1..];
        match flags[i] {
          case 'd' => dataExchange := true;
          case 'b' => blocking := true;
          case ' ' =>
          case _ => bad := true;
        }
        i := i + 1;
      }
      list := cut.after;
    }
    var b, participants := ParseListInto(list);
    f := Fenced(FenceDesc(dataExchange, blocking, participants), bad || b);
  }

  /** test_fences and the two passes over the --fence argument. */
  class FenceParser {
    var testFences: seq<FenceDesc>

    constructor ()
      ensures testFences == []
    {
      testFences := [];
    }

    /** parse_fence: the validating pass (store == false) counts malformed
        descriptors, the storing pass appends descriptors; an open bracket makes
        the result 1 and ends either pass. */
    method ParseFence(fenceParam: string, store: bool) returns (ret: nat)
      modifies this
      ensures var f := ParseFences(fenceParam);
              && testFences == old(testFences) + (if store then f.descs else [])
              && ret == if f.open then 1 else if store then 0 else f.bad
    {
      ret := 0;
      var rest := fenceParam;
      var pch := CutAt(rest, '[');
      ghost var descs, bad, open := DescsOf(Bodies(rest).bodies), CountBad(Bodies(rest).bodies), Bodies(rest).open;
      ghost var found: seq<FenceDesc> := [];
      assert [] + descs == descs;
      while pch.Cut?
        invariant pch == CutAt(rest, '[')
        invariant Bodies(rest).open == open && descs == found + DescsOf(Bodies(rest).bodies)
        invariant if store then ret == 0 else bad == ret + CountBad(Bodies(rest).bodies)
        invariant testFences == old(testFences) + if store then found else []
        decreases |rest|
      {
        var ech := CutAt(pch.after, ']');
        if ech.Uncut? {
          assert found + [] == found;
          return 1;
        }
        var f := ParseDesc(ech.before);
        DescsCons(ech.before, Bodies(ech.after).bodies, f);
        if store {
          testFences := testFences + [f.desc];
        } else if f.bad {
          ret := ret + 1;
        }
        Regroup(found, [f.desc], DescsOf(Bodies(ech.after).bodies));
        found, rest := found + [f.desc], ech.after;
        pch := CutAt(rest, '[');
      }
      assert found + [] == found;
    }
  }
}
