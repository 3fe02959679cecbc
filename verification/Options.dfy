/**
 * Handing the test parameters on to the clients: set_client_argv, unit/utils.c,
 * prints them as options, and parse_cmd, unit/test_common.c, reads them back.
 */
module Options {
  import opened CStrings
  import FenceGrammar

  datatype Text = None | Some(s: string)

  // The options that stand alone, and those that take the next argument.
  datatype FlagName =
    Verbose | EarlyFail | SameKeys | JobFence | CollectBad | Collect | NonBlocking | Publish | Spawn | Connect
    | ResolvePeers | Error

  datatype ValueName =
    Np | Exec | Nservers | Timeout | Prefix | Nspace | Rank | Fence | Noise | NsDist | NsSize | NsId | BaseRank
    | Replace | Internal | Gds

  /**
   * test_params: `flags` are the fields that only say yes or no and say yes, `texts`
   * the character pointers that are not NULL, both by the option that sets them
   * (Exec sets `binary`); the other fields are numbers.
   */
  datatype Params = Params(flags: set<FlagName>, texts: map<ValueName, string>, nprocs: int, timeout: int, rank: int,
                           nsSize: int, nsId: int, baseRank: int, internal: int, nservers: int)

  function TextOf(p: Params, k: ValueName): (t: Text)
  {
    if k in p.texts then Some(p.texts[k]) else None
  }

  const RANK_UNDEF := 0xffff_ffff
  const DEFAULT_TIMEOUT := 10
  const REPLACE_DEFAULT := "3:1"
  const DEFAULT_BINARY := "./pmix_client"

  // INIT_TEST_PARAMS.
  const INIT := Params({}, map[], 1, DEFAULT_TIMEOUT, RANK_UNDEF, -1, -1, 0, 0, 1)

  // ---------- the validating passes of the option arguments ----------

  function FenceOk(s: string): (ok: bool)
  {
    var f := FenceGrammar.ParseFences(s);
    !f.open && f.bad == 0
  }

  // parse_noise without storing.
  function NoiseOk(s: string): (ok: bool)
  {
    match CutAt(s, '[')
    case Uncut => true
    case Cut(_, inner) =>
      match CutAt(inner, ']')
      case Uncut => false
      case Cut(list, rest) => rest == [] && !FenceGrammar.ParseList(list).bad
  }

  function AllDigits(s: string): (d: bool) { forall k | 0 <= k < |s| :: IsDigit(s[k]) }

  function KeyOk(field: string, count: int): (ok: bool)
  {
    AllDigits(field) && ToInt(Strtol(field)) + 1 <= count
  }

  function KeysOk(rest: string, count: int): (ok: bool)
    decreases |rest|
  {
    if rest == [] then false
    else
      match CutAt(rest, ',')
      case Uncut => KeyOk(rest, count)
      case Cut(field, after) => KeyOk(field, count) && KeysOk(after, count)
  }

  // parse_replace without storing. A text without a colon makes the source compute
  // with a null pointer; it is not accepted.
  function ReplaceOk(s: string): (ok: bool)
  {
    match CutAt(s, ':')
    case Uncut => false
    case Cut(count, keys) => KeysOk(keys, ToInt(Strtol(count)))
  }

  // The indexes a text of keys stands for.
  function KeysOf(rest: string): (keys: seq<int>)
    decreases |rest|
  {
    match CutAt(rest, ',')
    case Uncut => [ToInt(Strtol(rest))]
    case Cut(field, after) => [ToInt(Strtol(field))] + KeysOf(after)
  }

  // is_digit.
  method IsDigits(s: string) returns (d: bool)
    ensures d == AllDigits(s)
  {
    var i := 0;
    while i < |s|
      invariant 0 <= i <= |s|
      invariant AllDigits(s[..i])
    {
      if !IsDigit(s[i]) {
        return false;
      }
      assert s[..i + 1] == s[..i] + [s[i]];
      i := i + 1;
    }
    assert s[..i] == s;
    d := true;
  }

  // parse_replace: the keys are stored as they are read. `crash` is a text without a
  // colon, where the source subtracts from a null pointer.
  method ParseReplace(s: string, store: bool) returns (crash: bool, ret: int, keyNum: int, keys: seq<int>)
    ensures crash <==> CutAt(s, ':').Uncut?
    ensures !crash && ret == 0 <==> ReplaceOk(s)
    ensures !crash ==> keyNum == ToInt(Strtol(CutAt(s, ':').before))
    ensures !crash && ret == 0 ==> keys == if store then KeysOf(CutAt(s, ':').after) else []
  {
    var pch := CutAt(s, ':');
    if pch.Uncut? {
      return true, 0, 0, [];
    }
    crash := false;
    keyNum := ToInt(Strtol(pch.before));
    ret, keys := 0, [];
    var more, rest := true, pch.after;
    ghost var all, ok := KeysOf(rest), KeysOk(rest, keyNum);
    while more
      invariant ret == 0
      invariant more ==> ok == KeysOk(rest, keyNum) && (store ==> all == keys + KeysOf(rest))
      invariant !more ==> ok && (store ==> all == keys)
      invariant !store ==> keys == []
      decreases more, |rest|
    {
      if rest == [] {
        return false, 1, keyNum, keys;
      }
      var ech := CutAt(rest, ',');
      var field := if ech.Cut? then ech.before else rest;
      var digits := IsDigits(field);
      if !digits || ToInt(Strtol(field)) + 1 > keyNum {
        return false, 1, keyNum, keys;
      }
      if store {
        keys := keys + [ToInt(Strtol(field))];
      }
      more := ech.Cut?;
      rest := if ech.Cut? then ech.after else rest;
    }
  }

  // ---------- parse_cmd ----------

  datatype Kind = Help | Unknown | Flag(flag: FlagName) | Value(name: ValueName)

  // The chain of string comparisons, in its order.
  function Classify(s: string): (k: Kind)
  {
    if s == "--n" || s == "-n" then Value(Np)
    else if s == "--h" || s == "-h" then Help
    else if s == "--exec" || s == "-e" then Value(Exec)
    else if s == "--nservers" || s == "-s" then Value(Nservers)
    else if s == "--verbose" || s == "-v" then Flag(Verbose)
    else if s == "--timeout" || s == "-t" then Value(Timeout)
    else if s == "-o" then Value(Prefix)
    else if s == "-s" then Value(Nspace)
    else if s == "--rank" || s == "-r" then Value(Rank)
    else if s == "--early-fail" then Flag(EarlyFail)
    else if s == "--fence" then Value(Fence)
    else if s == "--use-same-keys" then Flag(SameKeys)
    else if s == "--job-fence" then Flag(JobFence)
    else if s == "--collect-corrupt" then Flag(CollectBad)
    else if s == "--collect" || s == "-c" then Flag(Collect)
    else if s == "--non-blocking" || s == "-nb" then Flag(NonBlocking)
    else if s == "--noise" then Value(Noise)
    else if s == "--ns-dist" then Value(NsDist)
    else if s == "--ns-size" then Value(NsSize)
    else if s == "--ns-id" then Value(NsId)
    else if s == "--base-rank" then Value(BaseRank)
    else if s == "--test-publish" then Flag(Publish)
    else if s == "--test-spawn" then Flag(Spawn)
    else if s == "--test-connect" then Flag(Connect)
    else if s == "--test-resolve-peers" then Flag(ResolvePeers)
    else if s == "--test-error" then Flag(Error)
    else if s == "--test-replace" then Value(Replace)
    else if s == "--test-internal" then Value(Internal)
    else if s == "--gds" then Value(Gds)
    else Unknown
  }

  // Parsed, exit(code), or a null pointer where a string is needed.
  datatype Result = Done(p: Params) | Quit(code: int) | Crash

  function SetFlag(k: FlagName, p: Params): (q: Params) { p.(flags := p.flags + {k}) }

  function Store(k: ValueName, s: string, p: Params): (q: Params) { p.(texts := p.texts[k := s]) }

  predicate Dashed(s: string) { s != [] && s[0] == '-' }

  // The option's argument, None standing for the NULL behind the last one.
  function SetValue(k: ValueName, arg: Text, p: Params): (r: Result)
  {
    match k
    case Replace =>
      if arg.None? || Dashed(arg.s) then Done(Store(k, REPLACE_DEFAULT, p))
      else if CutAt(arg.s, ':').Uncut? then Crash
      else if ReplaceOk(arg.s) then Done(Store(k, arg.s, p))
      else Quit(1)
    case Internal =>
      Done(p.(internal := if arg.None? || Dashed(arg.s) then 1 else ToInt(Strtol(arg.s))))
    case Gds => if arg.None? then Crash else Done(Store(k, arg.s, p))
    case _ => if arg.None? then Done(p) else SetText(k, arg.s, p)
  }

  function ToUnsigned(v: int): (u: int) { v % 0x1_0000_0000 }

  function SetText(k: ValueName, s: string, p: Params): (r: Result)
  {
    match k
    case Np =>
      var n := ToUnsigned(Strtol(s));
      Done(Store(k, s, p).(nprocs := n, nsSize := if p.nsSize == -1 then ToInt(n) else p.nsSize))
    case Nservers => Done(p.(nservers := ToInt(Strtol(s))))
    case Timeout =>
      var t := ToInt(Strtol(s));
      Done(p.(timeout := if t == 0 then DEFAULT_TIMEOUT else t))
    case Rank => Done(p.(rank := ToUnsigned(Strtol(s))))
    case Fence => if FenceOk(s) then Done(Store(k, s, p)) else Quit(1)
    case Noise => if NoiseOk(s) then Done(Store(k, s, p)) else Quit(1)
    case NsSize => Done(p.(nsSize := ToInt(Strtol(s))))
    case NsId => Done(p.(nsId := ToInt(Strtol(s))))
    case BaseRank => Done(p.(baseRank := ToUnsigned(Strtol(s))))
    case _ => Done(Store(k, s, p))
  }

  // The loop over the options left.
  function ParseFrom(args: seq<string>, p: Params): (r: Result)
    decreases |args|
  {
    if args == [] then Done(p)
    else
      match Classify(args[0])
      case Help => Quit(0)
      case Unknown => Quit(1)
      case Flag(flag) => ParseFrom(args[1..], SetFlag(flag, p))
      case Value(name) =>
        if |args| == 1 then SetValue(name, None, p)
        else
          match SetValue(name, Some(args[1]), p)
          case Done(q) => ParseFrom(args[2..], q)
          case other => other
  }

  /**
   * The namespace option cannot be reached: the number of servers takes its name
   * before it, so that no argument vector ever sets the namespace.
   */
  lemma {:induction false} NspaceNeverRead(args: seq<string>, p: Params)
    requires Nspace !in p.texts
    ensures ParseFrom(args, p).Done? ==> Nspace !in ParseFrom(args, p).p.texts
    decreases |args|
  {
    if args != [] {
      assert Classify(args[0]) != Value(Nspace);
      match Classify(args[0])
      case Help =>
      case Unknown =>
      case Flag(flag) => NspaceNeverRead(args[1..], SetFlag(flag, p));
      case Value(name) =>
        if |args| > 1 && SetValue(name, Some(args[1]), p).Done? {
          NspaceNeverRead(args[2..], SetValue(name, Some(args[1]), p).p);
        }
    }
  }

  // What follows the loop.
  function Finish(p: Params): (q: Params)
  {
    var b := if Exec in p.texts then p else Store(Exec, DEFAULT_BINARY, p);
    if CollectBad !in b.flags then b
    else b.(flags := if b.rank % 2 != 0 then b.flags + {Collect} else b.flags - {Collect})
  }

  function Start(p: Params): (q: Params) { p.(texts := p.texts - {Nspace}) }

  function ParseCmd(argv: seq<string>, p: Params): (r: Result)
  {
    match ParseFrom(if argv == [] then [] else argv[1..], Start(p))
    case Done(q) => Done(Finish(q))
    case other => other
  }

  function Left(argv: seq<string>, i: nat): (left: seq<string>)
  {
    if i <= |argv| then argv[i..] else []
  }

  // One round of the loop. Taking an argument moves on, even past the end.
  method OneOption(argv: seq<string>, i: nat, p: Params) returns (r: Result, next: nat)
    requires i < |argv|
    ensures i < next
    ensures ParseFrom(Left(argv, i), p) == match r case Done(q) => ParseFrom(Left(argv, next), q) case other => other
  {
    ghost var left := argv[i..];
    assert left[1..] == Left(argv, i + 1);
    next := i + 1;
    match Classify(argv[i]) {
      case Help => r := Quit(0);
      case Unknown => r := Quit(1);
      case Flag(flag) => r := Done(SetFlag(flag, p));
      case Value(name) =>
        assert |left| > 1 ==> left[2..] == Left(argv, i + 2);
        r := SetValue(name, if next < |argv| then Some(argv[next]) else None, p);
        next := next + 1;
    }
  }

  method ParseLoop(argv: seq<string>, params: Params) returns (r: Result)
    ensures r == ParseCmd(argv, params)
  {
    var p := Start(params);
    var i: nat := 1;
    ghost var all := ParseFrom(Left(argv, 1), p);
    while i < |argv|
      invariant 1 <= i
      invariant all == ParseFrom(Left(argv, i), p)
    {
      var outcome, next := OneOption(argv, i, p);
      if !outcome.Done? {
        return outcome;
      }
      p, i := outcome.p, next;
    }
    r := Done(Finish(p));
  }
}
