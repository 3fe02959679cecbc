/** Tables over whole runs: what n servers that launch the same namespaces in the same
    order, each claiming whatever ranks it likes, end up with. */
module StarLaunches {
  import opened Bytes
  import opened ProcTable
  import opened Exchange
  import opened StarServer
  import opened StarSystem
  import opened StarInvariant

  predicate SameCall(a: Call, b: Call) {
    a.LaunchCall? == b.LaunchCall? && (a.LaunchCall? ==> SameJob(a.ns, b.ns))
  }

  predicate SameName(a: Call, b: Call) {
    a.LaunchCall? && b.LaunchCall? && a.ns.name == b.ns.name
  }

  /** Every server launches the same jobs in the same rounds; which ranks it claims is its own affair. */
  ghost predicate InStep(calls: seq<seq<Call>>) {
    && (forall j, x | 0 <= j < |calls| && 0 <= x < |calls[j]| && calls[j][x].LaunchCall? :: OwnClaims(j, calls[j][x].ns))
    && (forall j, x, y | 0 <= j < |calls| && 0 <= x < y < |calls[j]| :: !SameName(calls[j][x], calls[j][y]))
    && (forall i, j, x | 0 <= i < |calls| && 0 <= j < |calls| && 0 <= x < |calls[i]| && x < |calls[j]| ::
          SameCall(calls[i][x], calls[j][x]))
    && forall j | 0 <= j < |calls| :: Launches(calls[j], |calls[j]|) < SIZE_LIMIT
  }

  function Launches(calls: seq<Call>, k: nat): nat
    requires k <= |calls|
  {
    if k == 0 then 0 else Launches(calls, k - 1) + if calls[k - 1].LaunchCall? then 1 else 0
  }

  lemma {:induction false} LaunchesGrow(calls: seq<Call>, k: nat, later: nat)
    requires k <= later <= |calls|
    ensures Launches(calls, k) <= Launches(calls, later)
    decreases later
  {
    if k < later {
      LaunchesGrow(calls, k, later - 1);
    }
  }

  /** What the servers launch in round `k`. */
  function Locals(calls: seq<seq<Call>>, k: nat): (locals: seq<Nspace>)
    ensures |locals| == |calls|
  {
    seq(|calls|, j requires 0 <= j < |calls| =>
      if k < |calls[j]| && calls[j][k].LaunchCall? then calls[j][k].ns else Nspace([], 0, 0, []))
  }

  /** Server `i`'s table after the first `k` rounds. */
  function Settled(calls: seq<seq<Call>>, orders: seq<seq<nat>>, i: nat, k: nat): (table: seq<Nspace>)
    requires i < |calls| && k <= |calls[i]| && k <= |orders|
    ensures |table| == Launches(calls[i], k)
  {
    if k == 0 then []
    else
      var table := Settled(calls, orders, i, k - 1);
      match calls[i][k - 1]
      case FenceCall(_, _) => table
      case LaunchCall(ns, _) => table + [Merged(ns, orders[k - 1], Locals(calls, k - 1))]
  }

  /** The first `k` rounds heard from everybody. */
  ghost predicate AllIn(calls: seq<seq<Call>>, orders: seq<seq<nat>>, k: nat) {
    && k <= |orders|
    && (forall j | 0 <= j < |calls| :: k <= |calls[j]|)
    && forall x, j: nat | 0 <= x < k && j < |calls| :: j in orders[x]
  }

  lemma {:induction false} SettledParallel(calls: seq<seq<Call>>, orders: seq<seq<nat>>, i: nat, j: nat, k: nat)
    requires InStep(calls) && AllIn(calls, orders, k) && i < |calls| && j < |calls|
    ensures var a, b := Settled(calls, orders, i, k), Settled(calls, orders, j, k);
            Parallel(a, b) && Taken(a, j, b)
  {
    if k > 0 {
      SettledParallel(calls, orders, i, j, k - 1);
      assert SameCall(calls[i][k - 1], calls[j][k - 1]);
      if calls[i][k - 1].LaunchCall? {
        ClaimTaken(orders[k - 1], Locals(calls, k - 1), i, j);
      }
    }
  }

  /** A rank that `j` holds after an exchange is taken at every other server, too. */
  lemma ClaimTaken(order: seq<nat>, locals: seq<Nspace>, i: nat, j: nat)
    requires i < |locals| && j < |locals| && j in order && OwnClaims(j, locals[j]) && SameJob(locals[i], locals[j])
    ensures var a, b := Merged(locals[i], order, locals), Merged(locals[j], order, locals);
            SameJob(a, b) && forall r | 0 <= r < |b.taskMap| && b.taskMap[r] == j :: a.taskMap[r] >= 0
  {
    var b := Merged(locals[j], order, locals).taskMap;
    forall r | 0 <= r < |b| && b[r] == j ensures Claims(locals, j, r) {
    }
  }

  lemma {:induction false} OwnedSame(id: int, m: seq<int>, m': seq<int>, i: nat)
    requires i <= |m| == |m'| && forall r | 0 <= r < |m| :: m[r] == id <==> m'[r] == id
    ensures Owned(id, m, i) == Owned(id, m', i)
    decreases |m| - i
  {
    if i < |m| {
      OwnedSame(id, m, m', i + 1);
    }
  }

  /** An exchange gives a server none of the ranks that it did not claim, so its count stays right. */
  lemma MergedPackable(order: seq<nat>, locals: seq<Nspace>, j: nat)
    requires j < |locals| && OwnClaims(j, locals[j])
    ensures PackableNs(j, Merged(locals[j], order, locals))
  {
    var own, m := locals[j].taskMap, Merged(locals[j], order, locals).taskMap;
    forall r | 0 <= r < |own| ensures own[r] == j <==> m[r] == j {
    }
    OwnedSame(j, own, m, 0);
  }

  lemma {:induction false} SettledPackable(calls: seq<seq<Call>>, orders: seq<seq<nat>>, j: nat, k: nat)
    requires InStep(calls) && j < |calls| && j < INT_LIMIT && k <= |calls[j]| && k <= |orders|
    ensures Packable(j, Settled(calls, orders, j, k))
  {
    LaunchesGrow(calls[j], k, |calls[j]|);
    if k > 0 {
      SettledPackable(calls, orders, j, k - 1);
      if calls[j][k - 1].LaunchCall? {
        MergedPackable(orders[k - 1], Locals(calls, k - 1), j);
      }
    }
  }

  predicate LaunchedBefore(calls: seq<Call>, k: nat, name: seq<byte>)
    requires k <= |calls|
  {
    exists y | 0 <= y < k :: calls[y].LaunchCall? && calls[y].ns.name == name
  }

  lemma {:induction false} SettledNames(calls: seq<seq<Call>>, orders: seq<seq<nat>>, i: nat, k: nat)
    requires InStep(calls) && i < |calls| && k <= |calls[i]| && k <= |orders|
    ensures var t := Settled(calls, orders, i, k);
            DistinctNames(t) && forall x | 0 <= x < |t| :: LaunchedBefore(calls[i], k, t[x].name)
  {
    if k > 0 {
      SettledNames(calls, orders, i, k - 1);
      var before, t := Settled(calls, orders, i, k - 1), Settled(calls, orders, i, k);
      if calls[i][k - 1].LaunchCall? {
        NewName(calls[i], k - 1, before, t[|before|]);
        assert calls[i][k - 1].ns.name == t[|before|].name;
      }
      forall x | 0 <= x < |t| ensures LaunchedBefore(calls[i], k, t[x].name) {
        if x < |before| {
          assert LaunchedBefore(calls[i], k - 1, before[x].name);
        }
      }
    }
  }

  lemma NewName(calls: seq<Call>, k: nat, before: seq<Nspace>, ns: Nspace)
    requires k < |calls| && calls[k].LaunchCall? && ns.name == calls[k].ns.name && DistinctNames(before)
    requires forall x, y | 0 <= x < y < |calls| :: !SameName(calls[x], calls[y])
    requires forall x | 0 <= x < |before| :: LaunchedBefore(calls, k, before[x].name)
    ensures DistinctNames(before + [ns])
  {
    forall x | 0 <= x < |before| ensures before[x].name != ns.name {
      assert LaunchedBefore(calls, k, before[x].name);
      var y :| 0 <= y < k && calls[y].LaunchCall? && calls[y].ns.name == before[x].name;
      assert !SameName(calls[y], calls[k]);
    }
  }

  lemma SentPackable(calls: seq<seq<Call>>, orders: seq<seq<nat>>, j: nat, k: nat)
    requires InStep(calls) && j < |calls| && k < |calls[j]| && k <= |orders| && calls[j][k].LaunchCall?
    ensures OwnClaims(j, calls[j][k].ns) && Packable(j, Settled(calls, orders, j, k) + [calls[j][k].ns])
  {
    assert OwnClaims(j, calls[j][k].ns);
    LaunchesGrow(calls[j], k + 1, |calls[j]|);
    SettledPackable(calls, orders, j, k);
  }

  /** What every server sends in a round of launches. */
  lemma RoundSends(calls: seq<seq<Call>>, orders: seq<seq<nat>>, i: nat, j: nat, k: nat, data: seq<byte>)
    requires InStep(calls) && AllIn(calls, orders, k) && i < |calls| && j < |calls|
    requires k < |calls[i]| && k < |calls[j]| && calls[i][k].LaunchCall? && calls[j][k].LaunchCall?
    requires var sent := Settled(calls, orders, j, k) + [calls[j][k].ns]; NamesFit(sent) && data == PackProcs(j, sent)
    ensures Sends(Settled(calls, orders, i, k), calls[i][k].ns, j, Settled(calls, orders, j, k), calls[j][k].ns, data)
  {
    SentPackable(calls, orders, j, k);
    SettledParallel(calls, orders, i, j, k);
    assert SameCall(calls[i][k], calls[j][k]);
  }

  /** Receiving the buffers of a round of launches settles the namespace launched in it. */
  lemma RoundUnpacks(calls: seq<seq<Call>>, orders: seq<seq<nat>>, i: nat, k: nat, data: seq<seq<byte>>)
    requires InStep(calls) && AllIn(calls, orders, k) && i < |calls| == |data| && k < |orders| && Below(orders[k], |data|)
    requires forall j | 0 <= j < |calls| :: k < |calls[j]| && calls[j][k].LaunchCall?
    requires forall j | 0 <= j < |calls| ::
               var sent := Settled(calls, orders, j, k) + [calls[j][k].ns]; NamesFit(sent) && data[j] == PackProcs(j, sent)
    ensures UnpackProcs(Settled(calls, orders, i, k) + [calls[i][k].ns], Gather(orders[k], data))
         == Table(Settled(calls, orders, i, k + 1))
  {
    var known, ns := Settled(calls, orders, i, k), calls[i][k].ns;
    var olds := seq(|calls|, j requires 0 <= j < |calls| => Settled(calls, orders, j, k));
    forall j | 0 <= j < |data| ensures Sends(known, ns, j, olds[j], Locals(calls, k)[j], data[j]) {
      RoundSends(calls, orders, i, j, k, data[j]);
    }
    SettledNames(calls, orders, i, k);
    NewName(calls[i], k, known, ns);
    assert OwnClaims(i, ns);
    SettledPackable(calls, orders, i, k);
    UnpackRound(known, ns, orders[k], olds, Locals(calls, k), data);
  }

  ghost predicate LaunchesSent(f: FenceLog)
    requires |f.calls| == |f.dones|
  {
    forall j, k | 0 <= j < |f.calls| && 0 <= k < |f.calls[j]| :: LaunchDataOk(j, f.calls[j], f.dones[j], k)
  }

  lemma RoundsIn(n: nat, f: FenceLog, i: nat, k: nat)
    requires FenceLogOk(n, f) && i < n && k <= |f.dones[i]|
    ensures AllIn(f.calls, f.orders, k)
    ensures k < |f.dones[i]| ==> k < |f.orders| && Below(f.orders[k], n) && forall j | 0 <= j < n :: k < |f.calls[j]|
    ensures k < |f.dones[i]| ==> f.dones[i][k].data == Gather(f.orders[k], RoundData(f.calls, k))
  {
    assert FencePhaseOk(f, i);
    forall x, j: nat | 0 <= x < k && j < n ensures j in f.orders[x] {
      assert RoundOk(n, f, x);
    }
    forall j | 0 <= j < n ensures k <= |f.calls[j]| {
      assert FencePhaseOk(f, j);
    }
    if k < |f.dones[i]| {
      assert RoundOk(n, f, k);
    }
  }

  /** After its first `k` completions a server's table is the settled one. */
  lemma {:induction false} TablesSettle(n: nat, f: FenceLog, i: nat, k: nat)
    requires FenceLogOk(n, f) && LaunchesSent(f) && InStep(f.calls) && i < n && k <= |f.dones[i]|
    ensures AllIn(f.calls, f.orders, k)
    ensures TablesAfter(f.calls[i][..k], f.dones[i][..k]) == Tables(Settled(f.calls, f.orders, i, k), false)
    decreases k
  {
    RoundsIn(n, f, i, k);
    if k > 0 {
      var r := k - 1;
      RoundsIn(n, f, i, r);
      TablesSettle(n, f, i, r);
      assert f.calls[i][..k][..r] == f.calls[i][..r] && f.dones[i][..k][..r] == f.dones[i][..r];
      if f.calls[i][r].LaunchCall? {
        forall j | 0 <= j < n
          ensures f.calls[j][r].LaunchCall?
          ensures var sent := Settled(f.calls, f.orders, j, r) + [f.calls[j][r].ns];
                  NamesFit(sent) && RoundData(f.calls, r)[j] == PackProcs(j, sent)
        {
          assert SameCall(f.calls[i][r], f.calls[j][r]);
          assert LaunchDataOk(j, f.calls[j], f.dones[j], r);
          TablesSettle(n, f, j, r);
        }
        RoundUnpacks(f.calls, f.orders, i, r, RoundData(f.calls, r));
      }
    }
  }

  // --------------------------------------------------------------- lookups

  lemma LastFound(before: seq<Nspace>, ns: Nspace)
    requires DistinctNames(before + [ns])
    ensures Find(before + [ns], ns.name) == |before|
  {
    assert (before + [ns])[|before|] == ns;
  }

  /** A later table still has what round `k` settled. */
  lemma {:induction false} SettledFound(calls: seq<seq<Call>>, orders: seq<seq<nat>>, i: nat, k: nat, later: nat)
    requires InStep(calls) && i < |calls| && k < later <= |calls[i]| && later <= |orders| && calls[i][k].LaunchCall?
    ensures var t := Settled(calls, orders, i, later);
            var x := Find(t, calls[i][k].ns.name);
            x < |t| && t[x] == Merged(calls[i][k].ns, orders[k], Locals(calls, k))
    decreases later
  {
    if later == k + 1 {
      SettledNames(calls, orders, i, later);
      LastFound(Settled(calls, orders, i, k), Merged(calls[i][k].ns, orders[k], Locals(calls, k)));
    } else {
      SettledFound(calls, orders, i, k, later - 1);
      var before, t := Settled(calls, orders, i, later - 1), Settled(calls, orders, i, later);
      assert t == before || t == before + [t[|before|]];
      FoundStays(before, t, calls[i][k].ns.name);
    }
  }

  lemma FoundStays(before: seq<Nspace>, t: seq<Nspace>, name: seq<byte>)
    requires |before| <= |t| && t[..|before|] == before && Find(before, name) < |before|
    ensures Find(t, name) == Find(before, name) && t[Find(t, name)] == before[Find(before, name)]
  {
    assert t[Find(before, name)] == t[..|before|][Find(before, name)];
    forall j | 0 <= j < |before| ensures t[j] == before[j] {
      assert t[j] == t[..|before|][j];
    }
  }

  /** A server's table now: what has settled, and what it launched and has not exchanged yet. */
  lemma TableNow(n: nat, f: FenceLog, i: nat)
    requires FenceLogOk(n, f) && LaunchesSent(f) && InStep(f.calls) && i < n
    ensures AllIn(f.calls, f.orders, |f.dones[i]|)
    ensures var d := |f.dones[i]|;
            var t := Settled(f.calls, f.orders, i, d);
            TablesAfter(f.calls[i], f.dones[i])
              == Tables(if d < |f.calls[i]| && f.calls[i][d].LaunchCall? then t + [f.calls[i][d].ns] else t, false)
  {
    var calls, dones := f.calls[i], f.dones[i];
    var d := |dones|;
    assert FencePhaseOk(f, i);
    TablesSettle(n, f, i, d);
    assert dones[..d] == dones;
    assert |calls| == d ==> calls[..d] == calls;
  }

  /** In any table that a server holds after round `k`, the namespace launched in it is as
      that round settled it. */
  lemma TableFound(n: nat, f: FenceLog, i: nat, k: nat)
    requires FenceLogOk(n, f) && LaunchesSent(f) && InStep(f.calls)
    requires i < n && k < |f.dones[i]| && k < |f.calls[i]| && f.calls[i][k].LaunchCall?
    ensures k < |f.orders| && !TablesAfter(f.calls[i], f.dones[i]).bad
    ensures var t := TablesAfter(f.calls[i], f.dones[i]).table;
            var x := Find(t, f.calls[i][k].ns.name);
            x < |t| && t[x] == Merged(f.calls[i][k].ns, f.orders[k], Locals(f.calls, k))
  {
    TableNow(n, f, i);
    SettledFound(f.calls, f.orders, i, k, |f.dones[i]|);
    var t := Settled(f.calls, f.orders, i, |f.dones[i]|);
    var now := TablesAfter(f.calls[i], f.dones[i]).table;
    assert now[Find(t, f.calls[i][k].ns.name)].name == f.calls[i][k].ns.name;
  }

  // ---------------------------------------------------------------- owners

  /** Server `k` itself launched this rank of the namespace. */
  ghost predicate LaunchedBy(calls: seq<seq<Call>>, k: int, name: seq<byte>, rank: nat) {
    0 <= k < |calls| && exists x | 0 <= x < |calls[k]| :: LaunchesRank(calls[k][x], k, name, rank)
  }

  predicate LaunchesRank(c: Call, k: nat, name: seq<byte>, rank: nat) {
    c.LaunchCall? && c.ns.name == name && rank < |c.ns.taskMap| && c.ns.taskMap[rank] == k
  }

  /** Owners named in `ns` have launched the rank they are named for. */
  ghost predicate OwnersLaunched(calls: seq<seq<Call>>, ns: Nspace) {
    forall r | 0 <= r < |ns.taskMap| && ns.taskMap[r] >= 0 :: LaunchedBy(calls, ns.taskMap[r], ns.name, r)
  }

  ghost predicate AllLaunched(calls: seq<seq<Call>>, table: seq<Nspace>) {
    forall x | 0 <= x < |table| :: OwnersLaunched(calls, table[x])
  }

  lemma OwnLaunched(calls: seq<seq<Call>>, i: nat, k: nat)
    requires InStep(calls) && i < |calls| && k < |calls[i]| && calls[i][k].LaunchCall?
    ensures OwnersLaunched(calls, calls[i][k].ns)
  {
    var ns := calls[i][k].ns;
    assert OwnClaims(i, ns);
    forall r | 0 <= r < |ns.taskMap| && ns.taskMap[r] >= 0 ensures LaunchedBy(calls, ns.taskMap[r], ns.name, r) {
      assert LaunchesRank(calls[i][k], i, ns.name, r);
    }
  }

  lemma MergedLaunched(calls: seq<seq<Call>>, order: seq<nat>, i: nat, k: nat)
    requires InStep(calls) && i < |calls| && k < |calls[i]| && calls[i][k].LaunchCall?
    ensures OwnersLaunched(calls, Merged(calls[i][k].ns, order, Locals(calls, k)))
  {
    var ns, locals := calls[i][k].ns, Locals(calls, k);
    var m := Merged(ns, order, locals).taskMap;
    OwnLaunched(calls, i, k);
    forall r | 0 <= r < |m| && m[r] >= 0 ensures LaunchedBy(calls, m[r], ns.name, r) {
      if ns.taskMap[r] < 0 {
        var j := m[r];
        assert Claims(locals, j, r) && SameCall(calls[i][k], calls[j][k]);
        assert LaunchesRank(calls[j][k], j, ns.name, r);
      }
    }
  }

  lemma {:induction false} SettledLaunched(calls: seq<seq<Call>>, orders: seq<seq<nat>>, i: nat, k: nat)
    requires InStep(calls) && i < |calls| && k <= |calls[i]| && k <= |orders|
    ensures AllLaunched(calls, Settled(calls, orders, i, k))
  {
    if k > 0 {
      SettledLaunched(calls, orders, i, k - 1);
      if calls[i][k - 1].LaunchCall? {
        MergedLaunched(calls, orders[k - 1], i, k - 1);
      }
    }
  }

  /** A table names as owner only a server that launched the rank. */
  lemma FoundLaunched(n: nat, f: FenceLog, i: nat, p: Proc, k: nat)
    requires FenceLogOk(n, f) && LaunchesSent(f) && InStep(f.calls) && i < n
    requires FindId(TablesAfter(f.calls[i], f.dones[i]).table, p.name, p.rank) == Owner(k)
    ensures 0 <= p.rank && LaunchedBy(f.calls, k, p.name, p.rank)
  {
    var d := |f.dones[i]|;
    TableNow(n, f, i);
    SettledLaunched(f.calls, f.orders, i, d);
    if d < |f.calls[i]| && f.calls[i][d].LaunchCall? {
      OwnLaunched(f.calls, i, d);
    }
    var t := TablesAfter(f.calls[i], f.dones[i]).table;
    assert OwnersLaunched(f.calls, t[Find(t, p.name)]);
  }
}
