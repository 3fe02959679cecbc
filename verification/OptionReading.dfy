/**
 * What parse_cmd, unit/test_common.c, makes of options written out in full: one
 * option at a time, in all its spellings, and then vectors of them.
 */
module OptionReading {
  import opened CStrings
  import opened Options
  import FenceGrammar

  const UINT_MAX: nat := 0xffff_ffff

  // The options with a number, and those with a text that any text suits.
  datatype NumOption = Servers | Seconds | OwnRank | Size | Id | Base | Procs

  datatype TextOption = Binary | Output | Distribution | Storage

  // One option as it is written; `long` picks the longer spelling where there are two.
  datatype Setting =
    | Num(o: NumOption, long: bool, n: nat)
    | Str(t: TextOption, long: bool, s: string)
    | Yes(f: FlagName, long: bool)

  function NumSpelling(o: NumOption, long: bool): (s: string)
  {
    match o
    case Servers => if long then "--nservers" else "-s"
    case Seconds => if long then "--timeout" else "-t"
    case OwnRank => if long then "--rank" else "-r"
    case Size => "--ns-size"
    case Id => "--ns-id"
    case Base => "--base-rank"
    case Procs => if long then "--n" else "-n"
  }

  function TextSpelling(t: TextOption, long: bool): (s: string)
  {
    match t
    case Binary => if long then "--exec" else "-e"
    case Output => "-o"
    case Distribution => "--ns-dist"
    case Storage => "--gds"
  }

  function FlagSpelling(f: FlagName, long: bool): (s: string)
  {
    match f
    case Verbose => if long then "--verbose" else "-v"
    case EarlyFail => "--early-fail"
    case SameKeys => "--use-same-keys"
    case JobFence => "--job-fence"
    case CollectBad => "--collect-corrupt"
    case Collect => if long then "--collect" else "-c"
    case NonBlocking => if long then "--non-blocking" else "-nb"
    case Publish => "--test-publish"
    case Spawn => "--test-spawn"
    case Connect => "--test-connect"
    case ResolvePeers => "--test-resolve-peers"
    case Error => "--test-error"
  }

  function Words(s: Setting): (w: seq<string>)
  {
    match s
    case Num(o, long, n) => [NumSpelling(o, long), Decimal(n)]
    case Str(t, long, text) => [TextSpelling(t, long), text]
    case Yes(f, long) => [FlagSpelling(f, long)]
  }

  // Numbers fit the type of the field they are for.
  predicate Fits(s: Setting)
  {
    s.Num? ==> s.n <= if s.o == OwnRank || s.o == Base || s.o == Procs then UINT_MAX else INT_MAX
  }

  // An unsigned number in an int.
  function AsInt(n: nat): (v: int) { if n <= INT_MAX then n else n - 0x1_0000_0000 }

  // What the option means for the parameters.
  function Apply(s: Setting, p: Params): (q: Params)
  {
    match s
    case Num(Servers, _, n) => p.(nservers := n)
    case Num(Seconds, _, n) => p.(timeout := if n == 0 then 10 else n)
    case Num(OwnRank, _, n) => p.(rank := n)
    case Num(Size, _, n) => p.(nsSize := n)
    case Num(Id, _, n) => p.(nsId := n)
    case Num(Base, _, n) => p.(baseRank := n)
    case Num(Procs, _, n) =>
      p.(texts := p.texts[Np := Decimal(n)], nprocs := n, nsSize := if p.nsSize == -1 then AsInt(n) else p.nsSize)
    case Str(Binary, _, text) => p.(texts := p.texts[Exec := text])
    case Str(Output, _, text) => p.(texts := p.texts[Prefix := text])
    case Str(Distribution, _, text) => p.(texts := p.texts[NsDist := text])
    case Str(Storage, _, text) => p.(texts := p.texts[Gds := text])
    case Yes(f, _) => p.(flags := p.flags + {f})
  }

  // ---------- the spellings ----------

  function NumKind(o: NumOption): (k: ValueName)
  {
    match o
    case Servers => Nservers
    case Seconds => Timeout
    case OwnRank => Rank
    case Size => NsSize
    case Id => NsId
    case Base => BaseRank
    case Procs => Np
  }

  function TextKind(t: TextOption): (k: ValueName)
  {
    match t
    case Binary => Exec
    case Output => Prefix
    case Distribution => NsDist
    case Storage => Gds
  }

  lemma ShortNumbers()
    ensures Classify("-s") == Value(Nservers) && Classify("-t") == Value(Timeout) && Classify("-r") == Value(Rank)
    ensures Classify("-n") == Value(Np) && Classify("--n") == Value(Np) && Classify("--rank") == Value(Rank)
  {
  }

  lemma LongNumbers()
    ensures Classify("--nservers") == Value(Nservers) && Classify("--timeout") == Value(Timeout)
    ensures Classify("--ns-size") == Value(NsSize) && Classify("--ns-id") == Value(NsId)
  {
  }

  lemma BaseRankOption()
    ensures Classify("--base-rank") == Value(BaseRank)
  {
  }

  lemma NumSpelled(o: NumOption, long: bool)
    ensures Classify(NumSpelling(o, long)) == Value(NumKind(o))
  {
    ShortNumbers();
    LongNumbers();
    BaseRankOption();
  }

  lemma TextSpelled(t: TextOption, long: bool)
    ensures Classify(TextSpelling(t, long)) == Value(TextKind(t))
  {
    match t
    case Binary =>
    case Output =>
    case Distribution =>
    case Storage =>
  }

  lemma ShortFlags()
    ensures Classify("-v") == Flag(Verbose) && Classify("-c") == Flag(Collect) && Classify("-nb") == Flag(NonBlocking)
    ensures Classify("--verbose") == Flag(Verbose) && Classify("--collect") == Flag(Collect)
  {
  }

  lemma FenceFlags()
    ensures Classify("--use-same-keys") == Flag(SameKeys) && Classify("--job-fence") == Flag(JobFence)
    ensures Classify("--early-fail") == Flag(EarlyFail)
  {
  }

  lemma CollectFlags()
    ensures Classify("--collect-corrupt") == Flag(CollectBad) && Classify("--non-blocking") == Flag(NonBlocking)
  {
  }

  lemma TestFlags()
    ensures Classify("--test-publish") == Flag(Publish) && Classify("--test-spawn") == Flag(Spawn)
    ensures Classify("--test-connect") == Flag(Connect)
  {
  }

  lemma LongTestFlags()
    ensures Classify("--test-resolve-peers") == Flag(ResolvePeers) && Classify("--test-error") == Flag(Error)
  {
  }

  lemma FlagSpelled(f: FlagName, long: bool)
    ensures Classify(FlagSpelling(f, long)) == Flag(f)
  {
    match f
    case Verbose => ShortFlags();
    case EarlyFail => FenceFlags();
    case SameKeys => FenceFlags();
    case JobFence => FenceFlags();
    case CollectBad => CollectFlags();
    case Collect => ShortFlags();
    case NonBlocking => ShortFlags(); CollectFlags();
    case Publish => TestFlags();
    case Spawn => TestFlags();
    case Connect => TestFlags();
    case ResolvePeers => LongTestFlags();
    case Error => LongTestFlags();
  }

  // ---------- one option ----------

  lemma NumberBack(n: nat)
    requires n <= UINT_MAX
    ensures Strtol(Decimal(n)) == n
  {
    StrtolDecimal(n, []);
    assert Decimal(n) + [] == Decimal(n);
  }

  lemma NumSets(o: NumOption, long: bool, n: nat, p: Params)
    requires Fits(Num(o, long, n))
    ensures SetValue(NumKind(o), Some(Decimal(n)), p) == Done(Apply(Num(o, long, n), p))
  {
    NumberBack(n);
    SetsAsNumber(o, long, Decimal(n), n, p);
  }

  // What matters of the text is the number it stands for.
  lemma SetsAsNumber(o: NumOption, long: bool, text: string, n: nat, p: Params)
    requires Fits(Num(o, long, n)) && Strtol(text) == n && text == Decimal(n)
    ensures SetValue(NumKind(o), Some(text), p) == Done(Apply(Num(o, long, n), p))
  {
    match o
    case Servers =>
    case Seconds =>
    case OwnRank =>
    case Size =>
    case Id =>
    case Base =>
    case Procs =>
  }

  // The rest of the vector is read after the option has been applied.
  lemma OneRead(s: Setting, rest: seq<string>, p: Params)
    requires Fits(s)
    ensures ParseFrom(Words(s) + rest, p) == ParseFrom(rest, Apply(s, p))
  {
    var args := Words(s) + rest;
    match s {
      case Num(o, long, n) =>
        NumSpelled(o, long);
        NumSets(o, long, n, p);
        assert args[0] == NumSpelling(o, long) && args[1] == Decimal(n) && args[2..] == rest;
      case Str(t, long, text) =>
        TextSpelled(t, long);
        assert args[0] == TextSpelling(t, long) && args[1] == text && args[2..] == rest;
      case Yes(f, long) =>
        FlagSpelled(f, long);
        assert args[0] == FlagSpelling(f, long) && args[1..] == rest;
    }
  }

  // ---------- vectors of options ----------

  function Flat(v: seq<Setting>): (w: seq<string>)
  {
    if v == [] then [] else Words(v[0]) + Flat(v[1..])
  }

  // The options take effect one after the other.
  function ApplyAll(v: seq<Setting>, p: Params): (q: Params)
  {
    if v == [] then p else Apply(v[|v| - 1], ApplyAll(v[..|v| - 1], p))
  }

  lemma {:induction false} ApplyFirst(v: seq<Setting>, p: Params)
    requires v != []
    ensures ApplyAll(v, p) == ApplyAll(v[1..], Apply(v[0], p))
  {
    if |v| > 1 {
      ApplyFirst(v[..|v| - 1], p);
      assert v[..|v| - 1][1..] == v[1..][..|v| - 2];
    } else {
      assert v[..0] == [] && v[1..] == [];
    }
  }

  lemma {:induction false} AllRead(v: seq<Setting>, p: Params)
    requires forall i | 0 <= i < |v| :: Fits(v[i])
    ensures ParseFrom(Flat(v), p) == Done(ApplyAll(v, p))
  {
    if v != [] {
      OneRead(v[0], Flat(v[1..]), p);
      AllRead(v[1..], Apply(v[0], p));
      ApplyFirst(v, p);
    }
  }

  // Parameters on which parse_cmd does nothing before and after its loop.
  predicate Plain(p: Params)
  {
    Exec in p.texts && Nspace !in p.texts && CollectBad !in p.flags
  }

  lemma {:induction false} StaysPlain(v: seq<Setting>, p: Params)
    requires Plain(p) && forall i | 0 <= i < |v| :: !(v[i].Yes? && v[i].f == CollectBad)
    ensures Plain(ApplyAll(v, p))
  {
    if v != [] {
      StaysPlain(v[..|v| - 1], p);
    }
  }

  /** parse_cmd applies the options of a vector one after the other, each in either spelling. */
  lemma SettingsRead(prog: string, v: seq<Setting>, p: Params)
    requires Plain(p) && Readable(v)
    ensures ParseCmd([prog] + Flat(v), p) == Done(ApplyAll(v, p))
  {
    var argv := [prog] + Flat(v);
    assert argv[1..] == Flat(v);
    assert p.texts - {Nspace} == p.texts;
    AllRead(v, p);
    StaysPlain(v, p);
  }

  /** One option with a number sets its field to that number and leaves all others alone. */
  lemma NumberRead(prog: string, n: nat, p: Params)
    requires Plain(p) && n <= INT_MAX
    ensures forall o | o == "-s" || o == "--nservers" :: ParseCmd([prog, o, Decimal(n)], p) == Done(p.(nservers := n))
    ensures forall o | o == "-t" || o == "--timeout" ::
              ParseCmd([prog, o, Decimal(n)], p) == Done(p.(timeout := if n == 0 then 10 else n))
    ensures forall o | o == "-r" || o == "--rank" :: ParseCmd([prog, o, Decimal(n)], p) == Done(p.(rank := n))
  {
    forall long: bool
      ensures ParseCmd([prog, NumSpelling(Servers, long), Decimal(n)], p) == Done(p.(nservers := n))
      ensures ParseCmd([prog, NumSpelling(Seconds, long), Decimal(n)], p) == Done(p.(timeout := if n == 0 then 10 else n))
      ensures ParseCmd([prog, NumSpelling(OwnRank, long), Decimal(n)], p) == Done(p.(rank := n))
    {
      OneOptionRead(prog, Num(Servers, long, n), p);
      OneOptionRead(prog, Num(Seconds, long, n), p);
      OneOptionRead(prog, Num(OwnRank, long, n), p);
    }
    assert NumSpelling(Servers, false) == "-s" && NumSpelling(Servers, true) == "--nservers";
    assert NumSpelling(Seconds, false) == "-t" && NumSpelling(Seconds, true) == "--timeout";
    assert NumSpelling(OwnRank, false) == "-r" && NumSpelling(OwnRank, true) == "--rank";
  }

  lemma NspaceNumberRead(prog: string, n: nat, p: Params)
    requires Plain(p) && n <= INT_MAX
    ensures ParseCmd([prog, "--ns-size", Decimal(n)], p) == Done(p.(nsSize := n))
    ensures ParseCmd([prog, "--ns-id", Decimal(n)], p) == Done(p.(nsId := n))
    ensures ParseCmd([prog, "--base-rank", Decimal(n)], p) == Done(p.(baseRank := n))
    ensures forall o | o == "-n" || o == "--n" ::
              ParseCmd([prog, o, Decimal(n)], p)
                == Done(p.(texts := p.texts[Np := Decimal(n)], nprocs := n, nsSize := if p.nsSize == -1 then n else p.nsSize))
  {
    OneOptionRead(prog, Num(Size, true, n), p);
    OneOptionRead(prog, Num(Id, true, n), p);
    OneOptionRead(prog, Num(Base, true, n), p);
    OneOptionRead(prog, Num(Procs, true, n), p);
    OneOptionRead(prog, Num(Procs, false, n), p);
  }

  lemma OneOptionRead(prog: string, s: Setting, p: Params)
    requires Plain(p) && Fits(s) && !(s.Yes? && s.f == CollectBad)
    ensures ParseCmd([prog] + Words(s), p) == Done(Apply(s, p))
  {
    SettingsRead(prog, [s], p);
    assert [s][1..] == [] && [s][..0] == [];
    assert Words(s) + [] == Words(s);
  }

  // ---------- the last occurrence decides ----------

  predicate Sets(s: Setting, o: NumOption) { s.Num? && s.o == o }

  // The last option of its kind stands at place i.
  predicate LastAt(v: seq<Setting>, o: NumOption, i: int)
  {
    0 <= i < |v| && Sets(v[i], o) && forall j | i < j < |v| :: !Sets(v[j], o)
  }

  predicate FirstAt(v: seq<Setting>, o: NumOption, i: int)
  {
    0 <= i < |v| && Sets(v[i], o) && forall j | 0 <= j < i :: !Sets(v[j], o)
  }

  predicate Never(v: seq<Setting>, o: NumOption)
  {
    forall i | 0 <= i < |v| :: !Sets(v[i], o)
  }

  function NumField(p: Params, o: NumOption): (n: int)
  {
    match o
    case Servers => p.nservers
    case Seconds => p.timeout
    case OwnRank => p.rank
    case Size => p.nsSize
    case Id => p.nsId
    case Base => p.baseRank
    case Procs => p.nprocs
  }

  // Taking the last setting off.
  lemma LastOff(v: seq<Setting>, o: NumOption, i: int)
    requires v != [] && i < |v| - 1
    ensures LastAt(v, o, i) ==> LastAt(v[..|v| - 1], o, i) && !Sets(v[|v| - 1], o)
    ensures FirstAt(v, o, i) ==> FirstAt(v[..|v| - 1], o, i)
    ensures Never(v, o) ==> Never(v[..|v| - 1], o) && !Sets(v[|v| - 1], o)
  {
    var init := v[..|v| - 1];
    assert forall j | 0 <= j < |init| :: init[j] == v[j];
  }

  lemma ApplyNum(s: Setting, p: Params, o: NumOption)
    requires o != Size
    ensures NumField(Apply(s, p), o)
         == if !Sets(s, o) then NumField(p, o) else if o == Seconds && s.n == 0 then 10 else s.n
  {
  }

  lemma {:induction false} NumberKept(v: seq<Setting>, p: Params, o: NumOption)
    requires o != Size && Never(v, o)
    ensures NumField(ApplyAll(v, p), o) == NumField(p, o)
  {
    if v != [] {
      LastOff(v, o, -1);
      ApplyNum(v[|v| - 1], ApplyAll(v[..|v| - 1], p), o);
      NumberKept(v[..|v| - 1], p, o);
    }
  }

  lemma {:induction false} NumberDecided(v: seq<Setting>, p: Params, o: NumOption, i: int)
    requires o != Size && LastAt(v, o, i)
    ensures NumField(ApplyAll(v, p), o) == if o == Seconds && v[i].n == 0 then 10 else v[i].n
  {
    ApplyNum(v[|v| - 1], ApplyAll(v[..|v| - 1], p), o);
    if i < |v| - 1 {
      LastOff(v, o, i);
      NumberDecided(v[..|v| - 1], p, o, i);
    }
  }

  lemma ApplySize(s: Setting, p: Params)
    requires Fits(s)
    ensures Apply(s, p).nsSize
         == if Sets(s, Size) then s.n else if Sets(s, Procs) && p.nsSize == -1 then AsInt(s.n) else p.nsSize
  {
  }

  lemma {:induction false} SizeKept(v: seq<Setting>, p: Params)
    requires Never(v, Size) && (p.nsSize != -1 || Never(v, Procs)) && forall i | 0 <= i < |v| :: Fits(v[i])
    ensures ApplyAll(v, p).nsSize == p.nsSize
  {
    if v != [] {
      LastOff(v, Size, -1);
      LastOff(v, Procs, -1);
      SizeKept(v[..|v| - 1], p);
      ApplySize(v[|v| - 1], ApplyAll(v[..|v| - 1], p));
    }
  }

  lemma {:induction false} SizeDecided(v: seq<Setting>, p: Params, i: int)
    requires LastAt(v, Size, i) && forall i | 0 <= i < |v| :: Fits(v[i])
    ensures ApplyAll(v, p).nsSize == v[i].n
    decreases |v|
  {
    var init, last := v[..|v| - 1], v[|v| - 1];
    ApplySize(last, ApplyAll(init, p));
    if i < |v| - 1 {
      LastOff(v, Size, i);
      SizeDecided(init, p, i);
    }
  }

  lemma {:induction false} SizeFromProcs(v: seq<Setting>, p: Params, i: int)
    requires Never(v, Size) && p.nsSize == -1 && FirstAt(v, Procs, i) && v[i].n <= INT_MAX
    requires forall i | 0 <= i < |v| :: Fits(v[i])
    ensures ApplyAll(v, p).nsSize == v[i].n
    decreases |v|
  {
    var init, last := v[..|v| - 1], v[|v| - 1];
    LastOff(v, Size, -1);
    ApplySize(last, ApplyAll(init, p));
    if i < |v| - 1 {
      LastOff(v, Procs, i);
      SizeFromProcs(init, p, i);
    } else {
      assert Never(init, Procs) by {
        assert forall j | 0 <= j < |init| :: init[j] == v[j];
      }
      SizeKept(init, p);
    }
  }

  predicate Readable(v: seq<Setting>)
  {
    forall i | 0 <= i < |v| :: Fits(v[i]) && !(v[i].Yes? && v[i].f == CollectBad)
  }

  /** In a vector of options the last occurrence of each decides; a field whose option
      does not occur keeps its value. */
  lemma LastNumberDecides(prog: string, v: seq<Setting>, p: Params, o: NumOption, i: int)
    requires Plain(p) && Readable(v) && o != Size
    ensures ParseCmd([prog] + Flat(v), p).Done?
    ensures Never(v, o) ==> NumField(ParseCmd([prog] + Flat(v), p).p, o) == NumField(p, o)
    ensures LastAt(v, o, i) ==>
              NumField(ParseCmd([prog] + Flat(v), p).p, o) == if o == Seconds && v[i].n == 0 then 10 else v[i].n
  {
    SettingsRead(prog, v, p);
    if Never(v, o) {
      NumberKept(v, p, o);
    }
    if LastAt(v, o, i) {
      NumberDecided(v, p, o, i);
    }
  }

  /** The size of the namespace is the last --ns-size; without one it is what it was, or
      the first job size if it was not set. */
  lemma NspaceSizeDecides(prog: string, v: seq<Setting>, p: Params, i: int)
    requires Plain(p) && Readable(v)
    ensures ParseCmd([prog] + Flat(v), p).Done?
    ensures LastAt(v, Size, i) ==> ParseCmd([prog] + Flat(v), p).p.nsSize == v[i].n
    ensures Never(v, Size) && (p.nsSize != -1 || Never(v, Procs)) ==> ParseCmd([prog] + Flat(v), p).p.nsSize == p.nsSize
    ensures Never(v, Size) && p.nsSize == -1 && FirstAt(v, Procs, i) && v[i].n <= INT_MAX ==>
              ParseCmd([prog] + Flat(v), p).p.nsSize == v[i].n
  {
    SettingsRead(prog, v, p);
    if LastAt(v, Size, i) {
      SizeDecided(v, p, i);
    }
    if Never(v, Size) && (p.nsSize != -1 || Never(v, Procs)) {
      SizeKept(v, p);
    }
    if Never(v, Size) && p.nsSize == -1 && FirstAt(v, Procs, i) && v[i].n <= INT_MAX {
      SizeFromProcs(v, p, i);
    }
  }

  predicate SetsText(s: Setting, t: TextOption) { s.Str? && s.t == t }

  predicate LastTextAt(v: seq<Setting>, t: TextOption, i: int)
  {
    0 <= i < |v| && SetsText(v[i], t) && forall j | i < j < |v| :: !SetsText(v[j], t)
  }

  predicate NeverText(v: seq<Setting>, t: TextOption)
  {
    forall i | 0 <= i < |v| :: !SetsText(v[i], t)
  }

  predicate Occurs(v: seq<Setting>, f: FlagName)
  {
    exists i | 0 <= i < |v| :: v[i].Yes? && v[i].f == f
  }

  lemma OccursLast(v: seq<Setting>, f: FlagName)
    requires v != []
    ensures Occurs(v, f) <==> Occurs(v[..|v| - 1], f) || (v[|v| - 1].Yes? && v[|v| - 1].f == f)
  {
    var init := v[..|v| - 1];
    if Occurs(init, f) {
      var i :| 0 <= i < |init| && init[i].Yes? && init[i].f == f;
      assert v[i].Yes? && v[i].f == f;
    }
    if Occurs(v, f) {
      var i :| 0 <= i < |v| && v[i].Yes? && v[i].f == f;
      assert i < |init| ==> init[i].Yes? && init[i].f == f;
    }
  }

  lemma ApplyText(s: Setting, p: Params, t: TextOption)
    ensures TextOf(Apply(s, p), TextKind(t)) == if SetsText(s, t) then Some(s.s) else TextOf(p, TextKind(t))
    ensures Apply(s, p).internal == p.internal
  {
  }

  lemma {:induction false} FlagsDecided(v: seq<Setting>, p: Params, f: FlagName)
    ensures f in ApplyAll(v, p).flags <==> f in p.flags || Occurs(v, f)
  {
    if v != [] {
      FlagsDecided(v[..|v| - 1], p, f);
      OccursLast(v, f);
    }
  }

  lemma {:induction false} TextKept(v: seq<Setting>, p: Params, t: TextOption)
    ensures NeverText(v, t) ==> TextOf(ApplyAll(v, p), TextKind(t)) == TextOf(p, TextKind(t))
    ensures ApplyAll(v, p).internal == p.internal
  {
    if v != [] {
      TextKept(v[..|v| - 1], p, t);
      ApplyText(v[|v| - 1], ApplyAll(v[..|v| - 1], p), t);
    }
  }

  lemma {:induction false} TextDecided(v: seq<Setting>, p: Params, t: TextOption, i: int)
    requires LastTextAt(v, t, i)
    ensures TextOf(ApplyAll(v, p), TextKind(t)) == Some(v[i].s)
  {
    var init := v[..|v| - 1];
    ApplyText(v[|v| - 1], ApplyAll(init, p), t);
    if i < |v| - 1 {
      assert forall j | 0 <= j < |init| :: init[j] == v[j];
      assert LastTextAt(init, t, i);
      TextDecided(init, p, t, i);
    }
  }

  /** The same of the texts; the flags are those set before and those that occur. */
  lemma LastTextDecides(prog: string, v: seq<Setting>, p: Params, t: TextOption, f: FlagName, i: int)
    requires Plain(p) && Readable(v)
    ensures ParseCmd([prog] + Flat(v), p).Done?
    ensures f in ParseCmd([prog] + Flat(v), p).p.flags <==> f in p.flags || Occurs(v, f)
    ensures NeverText(v, t) ==> TextOf(ParseCmd([prog] + Flat(v), p).p, TextKind(t)) == TextOf(p, TextKind(t))
    ensures LastTextAt(v, t, i) ==> TextOf(ParseCmd([prog] + Flat(v), p).p, TextKind(t)) == Some(v[i].s)
    ensures ParseCmd([prog] + Flat(v), p).p.internal == p.internal
  {
    SettingsRead(prog, v, p);
    FlagsDecided(v, p, f);
    TextKept(v, p, t);
    if LastTextAt(v, t, i) {
      TextDecided(v, p, t, i);
    }
  }

  // ---------- before, after and beside the loop ----------

  /** Whatever the options: the binary has a default, and with --collect-corrupt data is
      collected exactly on odd ranks. */
  lemma FinishExact(argv: seq<string>, p: Params)
    requires ParseCmd(argv, p).Done?
    ensures var r := ParseCmd(argv, p).p;
            && Exec in r.texts && Nspace !in r.texts
            && (CollectBad in r.flags ==> (Collect in r.flags <==> r.rank % 2 == 1))
  {
    NspaceNeverRead(if argv == [] then [] else argv[1..], Start(p));
  }

  /** Without options only the defaults are filled in. */
  lemma NothingRead(prog: string)
    ensures ParseCmd([prog], INIT) == Done(INIT.(texts := map[Exec := "./pmix_client"]))
    ensures forall p | Plain(p) :: ParseCmd([prog], p) == Done(p)
  {
    assert [prog][1..] == [];
    assert INIT.texts - {Nspace} == map[];
    forall p | Plain(p) ensures ParseCmd([prog], p) == Done(p) {
      assert p.texts - {Nspace} == p.texts;
    }
  }

  /** -h ends the program well. */
  lemma HelpEnds(prog: string, rest: seq<string>, p: Params)
    ensures ParseCmd([prog, "-h"] + rest, p) == Quit(0) && ParseCmd([prog, "--h"] + rest, p) == Quit(0)
  {
    assert ([prog, "-h"] + rest)[1..][0] == "-h";
    assert ([prog, "--h"] + rest)[1..][0] == "--h";
  }

  /** A word that is no option ends it with an error. */
  lemma WordEnds(prog: string, word: string, rest: seq<string>, p: Params)
    requires word == "" || word[0] != '-'
    ensures ParseCmd([prog, word] + rest, p) == Quit(1)
  {
    NoOption(word);
    assert ([prog, word] + rest)[1..][0] == word;
  }

  lemma NoOption(word: string)
    requires word == "" || word[0] != '-'
    ensures Classify(word) == Unknown
  {
  }

  /** A last option without its argument changes nothing, but for the three that have a
      default or need a text. */
  lemma ArgumentMissing(prog: string, k: ValueName, o: string, p: Params)
    requires Plain(p) && Classify(o) == Value(k)
    ensures ParseCmd([prog, o], p)
         == match k
            case Gds => Crash
            case Replace => Done(p.(texts := p.texts[Replace := "3:1"]))
            case Internal => Done(p.(internal := 1))
            case _ => Done(p)
  {
    assert [prog, o][1..] == [o];
    assert p.texts - {Nspace} == p.texts;
  }

  // ---------- the arguments that are validated ----------

  function KeyTexts(keys: seq<nat>): (t: seq<string>)
    ensures |t| == |keys|
  {
    if keys == [] then [] else [Decimal(keys[0])] + KeyTexts(keys[1..])
  }

  lemma OneKey(key: nat, count: int)
    requires key <= INT_MAX
    ensures ',' !in Decimal(key) && KeyOk(Decimal(key), count) == (key < count) && ToInt(Strtol(Decimal(key))) == key
  {
    NumberBack(key);
  }

  lemma {:induction false} KeysRead(keys: seq<nat>, count: int)
    requires keys != [] && forall k | 0 <= k < |keys| :: keys[k] <= INT_MAX
    ensures KeysOk(Join(KeyTexts(keys), ','), count) <==> forall k | 0 <= k < |keys| :: keys[k] < count
    ensures KeysOf(Join(KeyTexts(keys), ',')) == keys
  {
    var text := Join(KeyTexts(keys), ',');
    OneKey(keys[0], count);
    assert KeyTexts(keys)[1..] == KeyTexts(keys[1..]);
    if |keys| == 1 {
      assert text == Decimal(keys[0]);
      CutNone(text, ',');
    } else {
      var rest := Join(KeyTexts(keys[1..]), ',');
      assert text == Decimal(keys[0]) + [','] + rest;
      CutFirst(Decimal(keys[0]), ',', rest);
      KeysRead(keys[1..], count);
      assert forall k | 1 <= k < |keys| :: keys[k] == keys[1..][k - 1];
    }
  }

  /** count:key,key,... is accepted exactly if every key is below the count, and stands for those keys. */
  lemma ReplaceExact(count: nat, keys: seq<nat>)
    requires count <= INT_MAX && keys != [] && forall k | 0 <= k < |keys| :: keys[k] <= INT_MAX
    ensures var text := Decimal(count) + ":" + Join(KeyTexts(keys), ',');
            && (ReplaceOk(text) <==> forall k | 0 <= k < |keys| :: keys[k] < count)
            && CutAt(text, ':') == Cut(Decimal(count), Join(KeyTexts(keys), ','))
            && KeysOf(Join(KeyTexts(keys), ',')) == keys
  {
    NumberBack(count);
    CutFirst(Decimal(count), ':', Join(KeyTexts(keys), ','));
    KeysRead(keys, count);
  }

  /** A key that is empty or not all digits is rejected, wherever it stands. */
  lemma {:induction false} WrongKey(before: seq<nat>, key: string, behind: string, count: int)
    requires forall k | 0 <= k < |before| :: before[k] <= INT_MAX
    requires ',' !in key && (key == "" || exists k | 0 <= k < |key| :: !IsDigit(key[k]))
    requires behind == "" || (behind[0] == ',' && key != "")
    ensures !KeysOk(Prefixed(before, key + behind), count)
  {
    if before == [] {
      if behind == "" {
        assert key + behind == key;
        CutNone(key, ',');
      } else {
        assert key + behind == key + [','] + behind[1..];
        CutFirst(key, ',', behind[1..]);
      }
    } else {
      OneKey(before[0], count);
      CutFirst(Decimal(before[0]), ',', Prefixed(before[1..], key + behind));
      WrongKey(before[1..], key, behind, count);
    }
  }

  // Keys, each with its comma, in front of a text.
  function Prefixed(keys: seq<nat>, text: string): (t: string)
  {
    if keys == [] then text else Decimal(keys[0]) + [','] + Prefixed(keys[1..], text)
  }

  /** Noise without brackets is accepted. With them the list inside must be well formed, the
      bracket closed, and nothing may follow. */
  lemma NoiseExact(lead: string, list: string, tail: string)
    requires '[' !in lead && ']' !in list
    ensures NoiseOk(lead)
    ensures !NoiseOk(lead + "[" + list)
    ensures NoiseOk(lead + "[" + list + "]" + tail) <==> tail == "" && !FenceGrammar.ParseList(list).bad
  {
    CutNone(lead, '[');
    CutFirst(lead, '[', list);
    CutNone(list, ']');
    assert lead + "[" + list + "]" + tail == lead + ['['] + (list + [']'] + tail);
    CutFirst(lead, '[', list + [']'] + tail);
    CutFirst(list, ']', tail);
  }

  /** A fence text is accepted without brackets, rejected with one that stays open, and else
      accepted exactly if the descriptor in the first brackets is and what follows them. */
  lemma FencesExact(lead: string, body: string, tail: string)
    requires '[' !in lead && ']' !in body
    ensures FenceOk(lead)
    ensures !FenceOk(lead + "[" + body)
    ensures FenceOk(lead + "[" + body + "]" + tail) <==> !FenceGrammar.ParseFenceDesc(body).bad && FenceOk(tail)
  {
    CutNone(lead, '[');
    CutFirst(lead, '[', body);
    CutNone(body, ']');
    assert lead + "[" + body + "]" + tail == lead + ['['] + (body + [']'] + tail);
    CutFirst(lead, '[', body + [']'] + tail);
    CutFirst(body, ']', tail);
    FenceGrammar.DescsCons(body, FenceGrammar.Bodies(tail).bodies, FenceGrammar.ParseFenceDesc(body));
  }

  // Brackets around a well-formed list.
  lemma BracketedNoise(list: string)
    requires ']' !in list && !FenceGrammar.ParseList(list).bad
    ensures NoiseOk("[" + list + "]")
  {
    NoiseExact("", list, "");
    assert "" + "[" + list + "]" + "" == "[" + list + "]";
  }

  lemma PrintedPlain(gs: seq<FenceGrammar.Group>)
    ensures ']' !in Join(FenceGrammar.GroupTexts(gs), ';')
  {
    FenceGrammar.TextsPlain(gs);
  }

  lemma PrintedGood(gs: seq<FenceGrammar.Group>, list: string)
    requires gs != [] && forall k | 0 <= k < |gs| :: FenceGrammar.GoodGroup(gs[k])
    requires list == Join(FenceGrammar.GroupTexts(gs), ';')
    ensures !FenceGrammar.ParseList(list).bad
  {
    FenceGrammar.ParsePrintedList(gs, "");
    assert "" + list == list;
  }

  /** Noise in the documented syntax is accepted. */
  lemma PrintedNoiseAccepted(gs: seq<FenceGrammar.Group>)
    requires gs != [] && forall k | 0 <= k < |gs| :: FenceGrammar.GoodGroup(gs[k])
    ensures NoiseOk("[" + Join(FenceGrammar.GroupTexts(gs), ';') + "]")
  {
    var list := Join(FenceGrammar.GroupTexts(gs), ';');
    PrintedPlain(gs);
    PrintedGood(gs, list);
    BracketedNoise(list);
  }
}
