/**
 * set_client_argv, unit/utils.c, and what parse_cmd makes of its output: which of
 * the printed parameters come back, and which do not.
 */
module OptionPrinting {
  import opened CStrings
  import opened Options
  import opened Sequences
  import FenceGrammar

  // ---------- the options in the order in which they are printed ----------

  const ORDER: seq<Kind> := [
    Value(Np), Flag(Verbose), Value(Prefix), Flag(EarlyFail),
    Value(Fence), Flag(SameKeys), Flag(JobFence), Flag(NonBlocking), Flag(Collect), Flag(CollectBad),
    Value(Noise), Value(NsDist), Flag(Publish), Flag(Spawn), Flag(Connect), Flag(ResolvePeers), Flag(Error),
    Value(Replace), Value(Internal), Value(Gds)]

  // How an option is spelled, "" for those that are not printed.
  function FlagOption(f: FlagName): (option: string)
  {
    match f
    case Verbose => "-v"
    case EarlyFail => "--early-fail"
    case SameKeys => "--use-same-keys"
    case JobFence => "--job-fence"
    case NonBlocking => "-nb"
    case Collect => "-c"
    case CollectBad => "--collect-corrupt"
    case Publish => "--test-publish"
    case Spawn => "--test-spawn"
    case Connect => "--test-connect"
    case ResolvePeers => "--test-resolve-peers"
    case Error => "--test-error"
  }

  function ValueOption(k: ValueName): (option: string)
  {
    match k
    case Np => "-n"
    case Prefix => "-o"
    case Fence => "--fence"
    case Noise => "--noise"
    case NsDist => "--ns-dist"
    case Replace => "--test-replace"
    case Internal => "--test-internal"
    case Gds => "--gds"
    case _ => ""
  }

  // The sub-options are printed only beside their option.
  predicate Printable(p: Params, f: FlagName)
  {
    match f
    case SameKeys => Fence in p.texts
    case NonBlocking => JobFence in p.flags
    case Collect => JobFence in p.flags
    case CollectBad => JobFence in p.flags
    case _ => true
  }

  function NpText(p: Params): (t: Text) { if Np in p.texts then Some(p.texts[Np]) else Some("1") }

  function InternalText(p: Params): (t: Text) { if p.internal != 0 then Some(Signed(p.internal)) else None }

  // What is printed behind an option.
  function Arg(p: Params, k: ValueName): (t: Text)
  {
    match k
    case Np => NpText(p)
    case Internal => InternalText(p)
    case _ => TextOf(p, k)
  }

  predicate On(p: Params, kind: Kind)
  {
    match kind
    case Flag(f) => f in p.flags && Printable(p, f)
    case Value(k) => Arg(p, k).Some?
    case _ => false
  }

  function Chunk(p: Params, kind: Kind): (args: seq<string>)
  {
    match kind
    case Flag(f) => if On(p, kind) then [FlagOption(f)] else []
    case Value(k) => if On(p, kind) then [ValueOption(k), Arg(p, k).s] else []
    case _ => []
  }

  // What is printed for the options from place i of `order` on.
  function PrintedFrom(p: Params, order: seq<Kind>, i: nat): (args: seq<string>)
    requires i <= |order|
    decreases |order| - i
  {
    if i == |order| then [] else Chunk(p, order[i]) + PrintedFrom(p, order, i + 1)
  }

  function Printed(p: Params): (argv: seq<string>)
    requires Exec in p.texts
  {
    [p.texts[Exec]] + PrintedFrom(p, ORDER, 0)
  }

  // ---------- the chain of conditional appends ----------

  method AppendFlag(argv: seq<string>, on: bool, f: FlagName, ghost p: Params, ghost order: seq<Kind>, ghost i: nat)
    returns (argv': seq<string>)
    requires i < |order| && order[i] == Flag(f) && on == On(p, order[i])
    ensures argv' + PrintedFrom(p, order, i + 1) == argv + PrintedFrom(p, order, i)
  {
    ghost var rest := PrintedFrom(p, order, i + 1);
    argv' := argv;
    if on {
      Regroup(argv, [FlagOption(f)], rest);
      argv' := argv' + [FlagOption(f)];
    } else {
      assert [] + rest == rest;
    }
  }

  method AppendValue(argv: seq<string>, arg: Text, k: ValueName, ghost p: Params, ghost order: seq<Kind>, ghost i: nat)
    returns (argv': seq<string>)
    requires i < |order| && order[i] == Value(k) && arg == Arg(p, k)
    ensures argv' + PrintedFrom(p, order, i + 1) == argv + PrintedFrom(p, order, i)
  {
    ghost var rest := PrintedFrom(p, order, i + 1);
    argv' := argv;
    if arg.Some? {
      Regroup(argv, [ValueOption(k), arg.s], rest);
      argv' := argv' + [ValueOption(k)];
      argv' := argv' + [arg.s];
      assert argv' == argv + [ValueOption(k), arg.s];
    } else {
      assert [] + rest == rest;
    }
  }

  method AppendBasics(argv: seq<string>, p: Params, ghost order: seq<Kind>) returns (a: seq<string>)
    requires 4 <= |order| && order[0] == Value(Np) && order[1] == Flag(Verbose)
    requires order[2] == Value(Prefix) && order[3] == Flag(EarlyFail)
    ensures a + PrintedFrom(p, order, 4) == argv + PrintedFrom(p, order, 0)
  {
    a := AppendValue(argv, if Np !in p.texts then Some("1") else Some(p.texts[Np]), Np, p, order, 0);
    a := AppendFlag(a, Verbose in p.flags, Verbose, p, order, 1);
    a := AppendValue(a, TextOf(p, Prefix), Prefix, p, order, 2);
    a := AppendFlag(a, EarlyFail in p.flags, EarlyFail, p, order, 3);
  }

  method AppendFences(argv: seq<string>, p: Params, ghost order: seq<Kind>) returns (a: seq<string>)
    requires 7 <= |order| && order[4] == Value(Fence) && order[5] == Flag(SameKeys) && order[6] == Flag(JobFence)
    ensures a + PrintedFrom(p, order, 7) == argv + PrintedFrom(p, order, 4)
  {
    a := AppendValue(argv, TextOf(p, Fence), Fence, p, order, 4);
    a := AppendFlag(a, Fence in p.texts && SameKeys in p.flags, SameKeys, p, order, 5);
    a := AppendFlag(a, JobFence in p.flags, JobFence, p, order, 6);
  }

  method AppendJobFence(argv: seq<string>, p: Params, ghost order: seq<Kind>) returns (a: seq<string>)
    requires 10 <= |order| && order[7] == Flag(NonBlocking) && order[8] == Flag(Collect) && order[9] == Flag(CollectBad)
    ensures a + PrintedFrom(p, order, 10) == argv + PrintedFrom(p, order, 7)
  {
    a := AppendFlag(argv, JobFence in p.flags && NonBlocking in p.flags, NonBlocking, p, order, 7);
    a := AppendFlag(a, JobFence in p.flags && Collect in p.flags, Collect, p, order, 8);
    a := AppendFlag(a, JobFence in p.flags && CollectBad in p.flags, CollectBad, p, order, 9);
  }

  method AppendTests(argv: seq<string>, p: Params, ghost order: seq<Kind>) returns (a: seq<string>)
    requires 13 <= |order| && order[10] == Value(Noise) && order[11] == Value(NsDist) && order[12] == Flag(Publish)
    ensures a + PrintedFrom(p, order, 13) == argv + PrintedFrom(p, order, 10)
  {
    a := AppendValue(argv, TextOf(p, Noise), Noise, p, order, 10);
    a := AppendValue(a, TextOf(p, NsDist), NsDist, p, order, 11);
    a := AppendFlag(a, Publish in p.flags, Publish, p, order, 12);
  }

  method AppendProcessTests(argv: seq<string>, p: Params, ghost order: seq<Kind>) returns (a: seq<string>)
    requires 15 <= |order| && order[13] == Flag(Spawn) && order[14] == Flag(Connect)
    ensures a + PrintedFrom(p, order, 15) == argv + PrintedFrom(p, order, 13)
  {
    a := AppendFlag(argv, Spawn in p.flags, Spawn, p, order, 13);
    a := AppendFlag(a, Connect in p.flags, Connect, p, order, 14);
  }

  method AppendLastTests(argv: seq<string>, p: Params, ghost order: seq<Kind>) returns (a: seq<string>)
    requires 17 <= |order| && order[15] == Flag(ResolvePeers) && order[16] == Flag(Error)
    ensures a + PrintedFrom(p, order, 17) == argv + PrintedFrom(p, order, 15)
  {
    a := AppendFlag(argv, ResolvePeers in p.flags, ResolvePeers, p, order, 15);
    a := AppendFlag(a, Error in p.flags, Error, p, order, 16);
  }

  method AppendExtras(argv: seq<string>, p: Params, ghost order: seq<Kind>) returns (a: seq<string>)
    requires 20 == |order| && order[17] == Value(Replace) && order[18] == Value(Internal) && order[19] == Value(Gds)
    ensures a == argv + PrintedFrom(p, order, 17)
  {
    a := AppendValue(argv, TextOf(p, Replace), Replace, p, order, 17);
    a := AppendValue(a, if p.internal != 0 then Some(Signed(p.internal)) else None, Internal, p, order, 18);
    a := AppendValue(a, TextOf(p, Gds), Gds, p, order, 19);
    assert a + [] == a;
  }

  predicate InOrder(order: seq<Kind>)
  {
    && |order| == 20
    && order[0] == Value(Np) && order[1] == Flag(Verbose) && order[2] == Value(Prefix) && order[3] == Flag(EarlyFail)
    && order[4] == Value(Fence) && order[5] == Flag(SameKeys) && order[6] == Flag(JobFence)
    && order[7] == Flag(NonBlocking) && order[8] == Flag(Collect) && order[9] == Flag(CollectBad)
    && order[10] == Value(Noise) && order[11] == Value(NsDist) && order[12] == Flag(Publish)
    && order[13] == Flag(Spawn) && order[14] == Flag(Connect) && order[15] == Flag(ResolvePeers)
    && order[16] == Flag(Error) && order[17] == Value(Replace) && order[18] == Value(Internal) && order[19] == Value(Gds)
  }

  lemma OrderIsInOrder()
    ensures InOrder(ORDER)
  {
  }

  method AppendAll(argv: seq<string>, p: Params, ghost order: seq<Kind>) returns (a: seq<string>)
    requires InOrder(order)
    ensures a == argv + PrintedFrom(p, order, 0)
  {
    a := AppendBasics(argv, p, order);
    a := AppendFences(a, p, order);
    a := AppendJobFence(a, p, order);
    a := AppendTests(a, p, order);
    a := AppendProcessTests(a, p, order);
    a := AppendLastTests(a, p, order);
    a := AppendExtras(a, p, order);
  }

  // set_client_argv on an empty vector.
  method SetClientArgv(p: Params) returns (argv: seq<string>)
    requires Exec in p.texts
    ensures argv == Printed(p) && argv != [] && argv[0] == p.texts[Exec]
  {
    OrderIsInOrder();
    argv := AppendAll([p.texts[Exec]], p, ORDER);
  }

  // ---------- reading back what was printed ----------

  predicate Spelled(kind: Kind)
  {
    match kind
    case Flag(f) => Classify(FlagOption(f)) == kind
    case Value(k) => Classify(ValueOption(k)) == kind
    case _ => false
  }

  lemma FlagSpelled(f: FlagName)
    ensures Spelled(Flag(f))
  {
    match f
    case Verbose =>
    case EarlyFail =>
    case SameKeys =>
    case JobFence =>
    case NonBlocking =>
    case Collect =>
    case CollectBad =>
    case Publish => TestFlagsSpelled();
    case Spawn => TestFlagsSpelled();
    case Connect => TestFlagsSpelled();
    case ResolvePeers => LongFlagsSpelled();
    case Error => LongFlagsSpelled();
  }

  lemma TestFlagsSpelled()
    ensures Classify("--test-publish") == Flag(Publish) && Classify("--test-spawn") == Flag(Spawn)
    ensures Classify("--test-connect") == Flag(Connect)
  {
  }

  lemma LongFlagsSpelled()
    ensures Classify("--test-resolve-peers") == Flag(ResolvePeers) && Classify("--test-error") == Flag(Error)
  {
  }

  lemma ValueSpelled(k: ValueName)
    ensures Spelled(Value(k)) <==> IsPrinted(k)
  {
    match k
    case Np =>
    case Prefix =>
    case Fence =>
    case Noise =>
    case NsDist =>
    case Replace => TestValuesSpelled();
    case Internal => TestValuesSpelled();
    case Gds =>
    case _ =>
  }

  lemma TestValuesSpelled()
    ensures Classify("--test-replace") == Value(Replace) && Classify("--test-internal") == Value(Internal)
  {
  }

  // Which options with an argument are printed at all.
  predicate IsPrinted(k: ValueName)
  {
    match k
    case Np => true
    case Prefix => true
    case Fence => true
    case Noise => true
    case NsDist => true
    case Replace => true
    case Internal => true
    case Gds => true
    case _ => false
  }

  predicate AllPrinted(order: seq<Kind>)
  {
    forall j | 0 <= j < |order| :: order[j].Flag? || (order[j].Value? && IsPrinted(order[j].name))
  }

  // What a printed option does to the parameters, once it is recognised.
  function Effect(p: Params, kind: Kind, q: Params): (r: Result)
  {
    match kind
    case Flag(f) => Done(if On(p, kind) then SetFlag(f, q) else q)
    case Value(k) => if On(p, kind) then SetValue(k, Arg(p, k), q) else Done(q)
    case _ => Done(q)
  }

  function Effects(p: Params, order: seq<Kind>, i: nat, q: Params): (r: Result)
    requires i <= |order|
    decreases |order| - i
  {
    if i == |order| then Done(q)
    else
      var r := Effect(p, order[i], q);
      if r.Done? then Effects(p, order, i + 1, r.p) else r
  }

  // One printed option is read as its effect.
  lemma ChunkIsRead(p: Params, kind: Kind, rest: seq<string>, q: Params)
    requires Spelled(kind)
    ensures var r := Effect(p, kind, q);
            ParseFrom(Chunk(p, kind) + rest, q) == if r.Done? then ParseFrom(rest, r.p) else r
  {
    var option := if kind.Flag? then FlagOption(kind.flag) else ValueOption(kind.name);
    if !On(p, kind) {
      assert [] + rest == rest;
    } else if kind.Flag? {
      assert ([option] + rest)[1..] == rest;
    } else {
      var args := [option, Arg(p, kind.name).s] + rest;
      assert args[0] == option && args[1] == Arg(p, kind.name).s && args[2..] == rest;
    }
  }

  lemma {:induction false} PrintedIsRead(p: Params, order: seq<Kind>, i: nat, q: Params)
    requires i <= |order| && AllPrinted(order)
    ensures ParseFrom(PrintedFrom(p, order, i), q) == Effects(p, order, i, q)
    decreases |order| - i
  {
    if i < |order| {
      if order[i].Flag? {
        FlagSpelled(order[i].flag);
      } else {
        ValueSpelled(order[i].name);
      }
      ChunkIsRead(p, order[i], PrintedFrom(p, order, i + 1), q);
      var r := Effect(p, order[i], q);
      if r.Done? {
        PrintedIsRead(p, order, i + 1, r.p);
      }
    }
  }

  // ---------- what the options do to one field ----------

  // The options whose argument is kept as a text.
  predicate IsText(k: ValueName)
  {
    match k
    case Nservers => false
    case Timeout => false
    case Rank => false
    case NsSize => false
    case NsId => false
    case BaseRank => false
    case Internal => false
    case _ => true
  }

  // A replacement text that starts like an option is passed over.
  function Kept(k: ValueName, s: string): (t: string)
  {
    if k == Replace && Dashed(s) then REPLACE_DEFAULT else s
  }

  predicate ItemOk(k: ValueName, s: string)
  {
    match k
    case Fence => FenceOk(s)
    case Noise => NoiseOk(s)
    case Replace => Dashed(s) || ReplaceOk(s)
    case _ => true
  }

  // The numbers test_internal, nprocs and rank end up with.
  datatype Numbers = Numbers(internal: int, nprocs: int, rank: int)

  function NumbersOf(p: Params): (n: Numbers) { Numbers(p.internal, p.nprocs, p.rank) }

  function Counted(k: ValueName, s: string, n: Numbers): (m: Numbers)
  {
    match k
    case Internal => n.(internal := if Dashed(s) then 1 else ToInt(Strtol(s)))
    case Np => n.(nprocs := ToUnsigned(Strtol(s)))
    case Rank => n.(rank := ToUnsigned(Strtol(s)))
    case _ => n
  }

  // One option, as each of the fields sees it.
  lemma ValueFields(k0: ValueName, s: string, q: Params, k: ValueName)
    requires SetValue(k0, Some(s), q).Done?
    ensures var r := SetValue(k0, Some(s), q).p;
            && r.flags == q.flags
            && TextOf(r, k) == (if k0 == k && IsText(k) then Some(Kept(k, s)) else TextOf(q, k))
            && NumbersOf(r) == Counted(k0, s, NumbersOf(q))
  {
    match k0
    case Np =>
    case Exec =>
    case Nservers =>
    case Timeout =>
    case Prefix =>
    case Nspace =>
    case Rank =>
    case Fence =>
    case Noise =>
    case NsDist =>
    case NsSize =>
    case NsId =>
    case BaseRank =>
    case Replace =>
    case Internal =>
    case Gds =>
  }

  // The kind occurs from place i of `order` on.
  ghost predicate Comes(order: seq<Kind>, kind: Kind, i: nat)
  {
    exists j | i <= j < |order| :: order[j] == kind
  }

  lemma ComesStep(order: seq<Kind>, kind: Kind, i: nat)
    requires i < |order|
    ensures Comes(order, kind, i) <==> order[i] == kind || Comes(order, kind, i + 1)
  {
  }

  // The option passes its validation, if it has one and is printed.
  predicate Passes(p: Params, kind: Kind)
  {
    kind.Value? && Arg(p, kind.name).Some? ==> ItemOk(kind.name, Arg(p, kind.name).s)
  }

  ghost predicate Accepted(p: Params, order: seq<Kind>, i: nat)
  {
    forall j | i <= j < |order| :: Passes(p, order[j])
  }

  lemma {:induction false} AcceptedExact(p: Params, order: seq<Kind>, i: nat, q: Params)
    requires i <= |order|
    ensures Effects(p, order, i, q).Done? <==> Accepted(p, order, i)
    decreases |order| - i
  {
    if i < |order| {
      var r := Effect(p, order[i], q);
      if r.Done? {
        AcceptedExact(p, order, i + 1, r.p);
      }
    }
  }

  // How an argument that does not pass ends the program.
  function Failure(p: Params, kind: Kind): (r: Result)
  {
    if kind == Value(Replace) && Arg(p, Replace).Some? && CutAt(Arg(p, Replace).s, ':').Uncut? then Crash else Quit(1)
  }

  // The first argument that does not pass decides.
  lemma {:induction false} FirstFailure(p: Params, order: seq<Kind>, i: nat, q: Params, j: nat)
    requires i <= j < |order| && !Passes(p, order[j]) && forall x | i <= x < j :: Passes(p, order[x])
    ensures Effects(p, order, i, q) == Failure(p, order[j])
    decreases |order| - i
  {
    if i < j {
      assert Effect(p, order[i], q).Done?;
      FirstFailure(p, order, i + 1, Effect(p, order[i], q).p, j);
    }
  }

  // What the text of option k is set to.
  function StoredText(p: Params, k: ValueName): (t: Text)
  {
    match Arg(p, k)
    case None => None
    case Some(s) => if IsText(k) then Some(Kept(k, s)) else None
  }

  // Each option sets the same field to the same value, wherever it stands.
  lemma {:induction false} FieldsAfter(p: Params, order: seq<Kind>, i: nat, q: Params, f: FlagName, k: ValueName)
    requires i <= |order| && Accepted(p, order, i)
    ensures Effects(p, order, i, q).Done?
    ensures var r := Effects(p, order, i, q).p;
            && (f in r.flags <==> f in q.flags || (On(p, Flag(f)) && Comes(order, Flag(f), i)))
            && TextOf(r, k)
               == (if Comes(order, Value(k), i) && StoredText(p, k).Some? then StoredText(p, k) else TextOf(q, k))
    decreases |order| - i
  {
    AcceptedExact(p, order, i, q);
    if i < |order| {
      ComesStep(order, Flag(f), i);
      ComesStep(order, Value(k), i);
      EffectFields(p, order[i], q, f, k);
      FieldsAfter(p, order, i + 1, Effect(p, order[i], q).p, f, k);
    }
  }

  lemma EffectFields(p: Params, kind: Kind, q: Params, f: FlagName, k: ValueName)
    requires Effect(p, kind, q).Done?
    ensures var r := Effect(p, kind, q).p;
            && (f in r.flags <==> f in q.flags || (On(p, kind) && kind == Flag(f)))
            && TextOf(r, k) == (if kind == Value(k) && StoredText(p, k).Some? then StoredText(p, k) else TextOf(q, k))
            && NumbersOf(r) == (if kind.Value? && On(p, kind) then Counted(kind.name, Arg(p, kind.name).s, NumbersOf(q))
                                else NumbersOf(q))
  {
    if kind.Value? && On(p, kind) {
      ValueFields(kind.name, Arg(p, kind.name).s, q, k);
    }
  }

  lemma {:induction false} NumbersAfter(p: Params, order: seq<Kind>, i: nat, q: Params)
    requires i <= |order| && Accepted(p, order, i)
    ensures Effects(p, order, i, q).Done?
    ensures var r := Effects(p, order, i, q).p;
            && r.internal == (if Comes(order, Value(Internal), i) && InternalText(p).Some?
                              then Counted(Internal, InternalText(p).s, NumbersOf(q)).internal else q.internal)
            && r.nprocs == (if Comes(order, Value(Np), i) then ToUnsigned(Strtol(NpText(p).s)) else q.nprocs)
            && (!Comes(order, Value(Rank), i) ==> r.rank == q.rank)
    decreases |order| - i
  {
    AcceptedExact(p, order, i, q);
    if i < |order| {
      ComesStep(order, Value(Internal), i);
      ComesStep(order, Value(Np), i);
      ComesStep(order, Value(Rank), i);
      EffectFields(p, order[i], q, Verbose, Np);
      NumbersAfter(p, order, i + 1, Effect(p, order[i], q).p);
    }
  }

  lemma FlagComes(f: FlagName)
    ensures Comes(ORDER, Flag(f), 0)
  {
    match f
    case Verbose => assert ORDER[1] == Flag(f);
    case EarlyFail => assert ORDER[3] == Flag(f);
    case SameKeys => assert ORDER[5] == Flag(f);
    case JobFence => assert ORDER[6] == Flag(f);
    case NonBlocking => assert ORDER[7] == Flag(f);
    case Collect => assert ORDER[8] == Flag(f);
    case CollectBad => assert ORDER[9] == Flag(f);
    case Publish => assert ORDER[12] == Flag(f);
    case Spawn => assert ORDER[13] == Flag(f);
    case Connect => assert ORDER[14] == Flag(f);
    case ResolvePeers => assert ORDER[15] == Flag(f);
    case Error => assert ORDER[16] == Flag(f);
  }

  lemma ValueComes(k: ValueName)
    ensures AllPrinted(ORDER) && (Comes(ORDER, Value(k), 0) <==> IsPrinted(k))
  {
    assert ORDER[0] == Value(Np) && ORDER[2] == Value(Prefix) && ORDER[4] == Value(Fence);
    assert ORDER[10] == Value(Noise) && ORDER[11] == Value(NsDist) && ORDER[17] == Value(Replace);
    assert ORDER[18] == Value(Internal) && ORDER[19] == Value(Gds);
  }

  // The text set for the replacement keys, unless there is none.
  function ReplaceText(p: Params): (t: Text)
  {
    if Replace in p.texts then Some(Kept(Replace, p.texts[Replace])) else None
  }

  // What is stored for a text that one of the options prints.
  function PrintedText(p: Params, k: ValueName): (t: Text)
  {
    if k == Np then NpText(p)
    else if k == Replace then ReplaceText(p)
    else if k == Exec || k == Nspace || !IsText(k) then None
    else TextOf(p, k)
  }

  // Specifications that one of the validating passes rejects.
  predicate Rejected(p: Params)
  {
    || (Fence in p.texts && !ItemOk(Fence, p.texts[Fence]))
    || (Noise in p.texts && !ItemOk(Noise, p.texts[Noise]))
    || (Replace in p.texts && !ItemOk(Replace, p.texts[Replace]))
  }

  // The one argument that is worse than rejected: replacement keys without a count,
  // after specifications that pass.
  predicate Crashes(p: Params)
  {
    && (Fence in p.texts ==> ItemOk(Fence, p.texts[Fence]))
    && (Noise in p.texts ==> ItemOk(Noise, p.texts[Noise]))
    && Replace in p.texts && !Dashed(p.texts[Replace]) && CutAt(p.texts[Replace], ':').Uncut?
  }

  lemma AllAccepted(p: Params)
    ensures Accepted(p, ORDER, 0) <==> !Rejected(p)
  {
    assert ORDER[4] == Value(Fence) && ORDER[10] == Value(Noise) && ORDER[17] == Value(Replace);
  }

  lemma OthersPass(p: Params, kind: Kind)
    requires kind != Value(Fence) && kind != Value(Noise) && kind != Value(Replace)
    ensures Passes(p, kind)
  {
  }

  lemma RejectedEnds(p: Params, q: Params)
    requires Rejected(p)
    ensures Effects(p, ORDER, 0, q) == if Crashes(p) then Crash else Quit(1)
  {
    OrderIsInOrder();
    var j := if !Passes(p, Value(Fence)) then 4 else if !Passes(p, Value(Noise)) then 10 else 17;
    RejectedAt(p, ORDER, q, j);
  }

  lemma RejectedAt(p: Params, order: seq<Kind>, q: Params, j: nat)
    requires InOrder(order) && j < |order| && !Passes(p, order[j])
    requires j == 4 || (j == 10 && Passes(p, order[4])) || (j == 17 && Passes(p, order[4]) && Passes(p, order[10]))
    ensures Effects(p, order, 0, q) == Failure(p, order[j])
  {
    forall x | 0 <= x < j ensures Passes(p, order[x]) {
      if x != 4 && x != 10 {
        OthersPass(p, order[x]);
      }
    }
    FirstFailure(p, order, 0, q, j);
  }

  lemma InternalRead(n: int)
    requires -INT_MAX - 1 <= n <= INT_MAX && n != 0
    ensures Counted(Internal, Signed(n), Numbers(0, 0, 0)).internal == if n < 0 then 1 else n
  {
    if n > 0 {
      StrtolDecimal(n, "");
      assert Decimal(n) + "" == Decimal(n);
      assert IsDigit(Decimal(n)[0]);
    }
  }

  // ---------- the round trip ----------

  // parse_cmd on what set_client_argv printed.
  function Reread(p: Params): (r: Result)
    requires Exec in p.texts
  {
    ParseCmd(Printed(p), INIT)
  }

  lemma RereadIs(p: Params)
    requires Exec in p.texts
    ensures Reread(p) == match Effects(p, ORDER, 0, Start(INIT)) case Done(q) => Done(Finish(q)) case other => other
  {
    assert Printed(p)[1..] == PrintedFrom(p, ORDER, 0);
    ValueComes(Np);
    PrintedIsRead(p, ORDER, 0, Start(INIT));
  }

  lemma RereadDone(p: Params)
    requires Exec in p.texts
    ensures if Rejected(p) then Reread(p) == (if Crashes(p) then Crash else Quit(1))
            else Effects(p, ORDER, 0, Start(INIT)).Done? && Reread(p) == Done(Finish(Effects(p, ORDER, 0, Start(INIT)).p))
  {
    RereadIs(p);
    AllAccepted(p);
    AcceptedExact(p, ORDER, 0, Start(INIT));
    if Rejected(p) {
      RejectedEnds(p, Start(INIT));
    }
  }

  // The parameters before what follows the loop.
  lemma RereadParts(p: Params, order: seq<Kind>, f: FlagName, k: ValueName)
    requires Accepted(p, order, 0) && Comes(order, Flag(f), 0) && (Comes(order, Value(k), 0) <==> IsPrinted(k))
    ensures Effects(p, order, 0, Start(INIT)).Done?
    ensures var q := Effects(p, order, 0, Start(INIT)).p;
            (f in q.flags <==> On(p, Flag(f))) && TextOf(q, k) == PrintedText(p, k)
  {
    FieldsAfter(p, order, 0, Start(INIT), f, k);
  }

  lemma RereadNumbers(p: Params, order: seq<Kind>)
    requires -INT_MAX - 1 <= p.internal <= INT_MAX && Accepted(p, order, 0)
    requires Comes(order, Value(Internal), 0) && Comes(order, Value(Np), 0) && !Comes(order, Value(Rank), 0)
    ensures Effects(p, order, 0, Start(INIT)).Done?
    ensures NumbersOf(Effects(p, order, 0, Start(INIT)).p)
         == Numbers(if p.internal < 0 then 1 else p.internal, ToUnsigned(Strtol(NpText(p).s)), RANK_UNDEF)
  {
    NumbersAfter(p, order, 0, Start(INIT));
    if p.internal != 0 {
      InternalRead(p.internal);
    }
  }

  lemma PrintedComes(p: Params, f: FlagName, k: ValueName)
    requires !Rejected(p)
    ensures Accepted(p, ORDER, 0) && Comes(ORDER, Flag(f), 0) && (Comes(ORDER, Value(k), 0) <==> IsPrinted(k))
    ensures Comes(ORDER, Value(Internal), 0) && Comes(ORDER, Value(Np), 0) && !Comes(ORDER, Value(Rank), 0)
  {
    AllAccepted(p);
    FlagComes(f);
    ValueComes(k);
    ValueComes(Internal);
    ValueComes(Np);
    ValueComes(Rank);
  }

  lemma RereadBefore(p: Params, f: FlagName, k: ValueName)
    requires -INT_MAX - 1 <= p.internal <= INT_MAX && !Rejected(p)
    ensures Effects(p, ORDER, 0, Start(INIT)).Done?
    ensures var q := Effects(p, ORDER, 0, Start(INIT)).p;
            && (f in q.flags <==> On(p, Flag(f))) && TextOf(q, k) == PrintedText(p, k)
            && NumbersOf(q) == Numbers(if p.internal < 0 then 1 else p.internal, ToUnsigned(Strtol(NpText(p).s)), RANK_UNDEF)
  {
    PrintedComes(p, f, k);
    RereadParts(p, ORDER, f, k);
    RereadNumbers(p, ORDER);
  }

  lemma FinishFields(q: Params, f: FlagName, k: ValueName)
    requires q.rank == RANK_UNDEF
    ensures f in Finish(q).flags <==> f in q.flags || (f == Collect && CollectBad in q.flags)
    ensures k != Exec ==> TextOf(Finish(q), k) == TextOf(q, k)
    ensures NumbersOf(Finish(q)) == NumbersOf(q)
  {
  }

  /**
   * What parse_cmd makes of the printed options, whatever the parameters: it ends
   * the program exactly when a specification is rejected, or crashes when that is a
   * replacement text without a colon. Else a flag comes back if
   * it is set and not a sub-option without its option (and Collect beside
   * CollectBad, as the rank is unknown); a text comes back, with NULL turned into
   * one job process and a dashed replacement into the default; test_internal comes
   * back unless negative; the job size is read as a number too.
   */
  lemma RereadFields(p: Params, f: FlagName, k: ValueName)
    requires Exec in p.texts && -INT_MAX - 1 <= p.internal <= INT_MAX
    ensures if Rejected(p) then Reread(p) == (if Crashes(p) then Crash else Quit(1)) else Reread(p).Done?
    ensures !Rejected(p) ==>
              var r := Reread(p).p;
              && (f in r.flags <==> || (f in p.flags && Printable(p, f))
                                    || (f == Collect && CollectBad in p.flags && JobFence in p.flags))
              && (k != Exec ==> TextOf(r, k) == PrintedText(p, k))
              && r.internal == (if p.internal < 0 then 1 else p.internal)
              && r.nprocs == ToUnsigned(Strtol(NpText(p).s))
  {
    RereadDone(p);
    if !Rejected(p) {
      RereadBefore(p, f, k);
      RereadBefore(p, CollectBad, k);
      FinishFields(Effects(p, ORDER, 0, Start(INIT)).p, f, k);
    }
  }

  // The printed fields of two parameter sets agree. The binary is printed as the
  // program name, which is not an option, and the namespace is not printed.
  ghost predicate Agree(p: Params, r: Params)
  {
    && (forall f: FlagName :: f in p.flags <==> f in r.flags)
    && (forall k: ValueName :: k != Exec && k != Nspace ==> TextOf(p, k) == TextOf(r, k))
    && p.internal == r.internal
  }

  // Sub-options only beside their option and --collect-corrupt only with -c, a job
  // size to print, and nothing that reads like an option where an argument may fail.
  predicate WellFormed(p: Params)
  {
    && Np in p.texts
    && (SameKeys in p.flags ==> Fence in p.texts)
    && (NonBlocking in p.flags || Collect in p.flags || CollectBad in p.flags ==> JobFence in p.flags)
    && (CollectBad in p.flags ==> Collect in p.flags)
    && (Replace in p.texts ==> !Dashed(p.texts[Replace]))
    && p.internal >= 0
  }

  // The texts are those of a test_params.
  predicate TextsOnly(p: Params)
  {
    forall k | k in p.texts :: IsText(k)
  }

  /** The round trip restores every printed field exactly for the well-formed parameters. */
  lemma RoundTripExact(p: Params)
    requires TextsOnly(p)
    requires Exec in p.texts && -INT_MAX - 1 <= p.internal <= INT_MAX && !Rejected(p)
    ensures Reread(p).Done?
    ensures Agree(p, Reread(p).p) <==> WellFormed(p)
  {
    RereadFields(p, Collect, Np);
    AllFields(p, Reread(p).p);
    AgreeExact(p, Reread(p).p);
  }

  lemma AllFields(p: Params, r: Params)
    requires Exec in p.texts && -INT_MAX - 1 <= p.internal <= INT_MAX && !Rejected(p) && Reread(p) == Done(r)
    ensures forall f: FlagName ::
              f in r.flags <==> || (f in p.flags && Printable(p, f))
                                || (f == Collect && CollectBad in p.flags && JobFence in p.flags)
    ensures forall k: ValueName :: k != Exec ==> TextOf(r, k) == PrintedText(p, k)
  {
    forall f: FlagName
      ensures f in r.flags <==> || (f in p.flags && Printable(p, f))
                                || (f == Collect && CollectBad in p.flags && JobFence in p.flags)
    {
      RereadFields(p, f, Np);
    }
    forall k: ValueName | k != Exec ensures TextOf(r, k) == PrintedText(p, k) {
      RereadFields(p, Collect, k);
    }
  }

  lemma AgreeExact(p: Params, r: Params)
    requires TextsOnly(p) && r.internal == if p.internal < 0 then 1 else p.internal
    requires forall f: FlagName ::
               f in r.flags <==> || (f in p.flags && Printable(p, f))
                                 || (f == Collect && CollectBad in p.flags && JobFence in p.flags)
    requires forall k: ValueName :: k != Exec ==> TextOf(r, k) == PrintedText(p, k)
    ensures Agree(p, r) <==> WellFormed(p)
  {
    assert !Dashed(REPLACE_DEFAULT);
    if Agree(p, r) {
      assert TextOf(p, Np) == TextOf(r, Np) && TextOf(p, Replace) == TextOf(r, Replace);
      assert SameKeys in p.flags <==> SameKeys in r.flags;
      assert NonBlocking in p.flags <==> NonBlocking in r.flags;
      assert Collect in p.flags <==> Collect in r.flags;
      assert CollectBad in p.flags <==> CollectBad in r.flags;
    }
    if WellFormed(p) {
      forall k: ValueName | k != Exec && k != Nspace ensures TextOf(p, k) == TextOf(r, k) {
        assert TextOf(r, k) == PrintedText(p, k);
      }
    }
  }

  /** A fence specification printed in the documented syntax is never rejected. */
  lemma PrintedFencesAccepted(specs: seq<FenceGrammar.Spec>)
    requires forall k | 0 <= k < |specs| :: FenceGrammar.GoodSpec(specs[k])
    ensures ItemOk(Fence, FenceGrammar.PrintSpecs(specs))
  {
    FenceGrammar.ParsePrintedSpecs(specs);
  }
}
