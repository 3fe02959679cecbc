/** What the star guarantees over every run: barriers, fences, tables, modex. */
module StarTheorems {
  import opened Bytes
  import opened ProcTable
  import opened Partition
  import opened Exchange
  import opened StarServer
  import opened StarSystem
  import opened StarFlight
  import opened StarInvariant
  import opened StarLaunches
  import opened StarOwners
  import opened StarReceive
  import StarSteps

  /** `w` can be reached with n servers. */
  ghost predicate Reached(n: nat, acts: seq<Action>, w: World) {
    0 < n < INT_LIMIT && ValidRun(Init(n), acts) && w == Exec(Init(n), acts)
  }

  lemma ReachedInv(n: nat, acts: seq<Action>, w: World)
    requires Reached(n, acts, w)
    ensures Inv(w) && |w.servers| == n
  {
    InitInv(n);
    RunInv(Init(n), acts);
  }

  // -------------------------------------------------------------- barrier

  /** No server leaves its k-th barrier before every server has entered its k-th. */
  lemma BarrierSafety(n: nat, acts: seq<Action>, w: World, i: nat, j: nat)
    requires Reached(n, acts, w) && i < n && j < n
    ensures i < |w.h.b.returned| && j < |w.h.b.entered| && w.h.b.returned[i] <= w.h.b.entered[j]
    ensures w.h.b.entered[i] <= w.h.b.returned[i] + 1
  {
    ReachedInv(n, acts, w);
    assert BarrierPhaseOk(w.h.b, i, w.main[i], OwnLink(w, i).active);
    assert BarrierPhaseOk(w.h.b, j, w.main[j], OwnLink(w, j).active);
  }

  /** Servers whose barrier call the hub has not answered yet. */
  ghost function Unanswered(b: BarrierLog): set<nat> {
    set i: nat | i < |b.entered| && b.entered[i] > b.round
  }

  function BarrierMsg(i: nat): Msg {
    Msg(0, i, BarrierRequest, [])
  }

  /** How many barrier requests of the first `n` servers are in the pipes, every copy counted. */
  ghost function RequestsIn(flight: multiset<Msg>, n: nat): nat {
    if n == 0 then 0 else RequestsIn(flight, n - 1) + flight[BarrierMsg(n - 1)]
  }

  lemma {:induction false} RequestsCounted(flight: multiset<Msg>, n: nat, senders: set<nat>)
    requires forall i | i in senders :: i < n
    requires forall i: nat | i < n :: flight[BarrierMsg(i)] == if i in senders then 1 else 0
    ensures RequestsIn(flight, n) == |senders|
  {
    if n == 0 {
      assert senders == {};
    } else {
      var others := senders - {n - 1};
      RequestsCounted(flight, n - 1, others);
      assert senders == if n - 1 in senders then others + {n - 1} else others;
    }
  }

  ghost function Requesting(phase: seq<BarrierPhase>): set<nat> {
    set i: nat | i < |phase| && phase[i] == BRequested
  }

  lemma UnansweredParts(w: World)
    requires Sized(w) && Wired(w) && BarrierInv(w)
    ensures |Unanswered(w.h.b)| == |Counted(w.h.b.phase)| + |Requesting(w.h.b.phase)|
  {
    var counted, requesting := Counted(w.h.b.phase), Requesting(w.h.b.phase);
    forall i: nat | i < |w.servers| ensures i in Unanswered(w.h.b) <==> i in counted + requesting {
      assert BarrierPhaseOk(w.h.b, i, w.main[i], OwnLink(w, i).active);
    }
    assert Unanswered(w.h.b) == counted + requesting;
    assert counted !! requesting;
  }

  /** The hub's counter plus the requests under way is the number of servers unanswered;
      every barrier request under way is from a server to the hub. */
  lemma BarrierAccounting(n: nat, acts: seq<Action>, w: World)
    requires Reached(n, acts, w)
    ensures |w.servers| == n && w.servers[0].barrierCnt + RequestsIn(Flight(w.net), n) == |Unanswered(w.h.b)|
    ensures forall m | m in Flight(w.net) && m.cmd == BarrierRequest :: m.src < n && m == BarrierMsg(m.src)
  {
    ReachedInv(n, acts, w);
    UnansweredParts(w);
    forall i: nat | i < n ensures Flight(w.net)[BarrierMsg(i)] == if i in Requesting(w.h.b.phase) then 1 else 0 {
      assert Expected(n, w.h, BarrierMsg(i)) <==> w.h.b.phase[i] == BRequested;
    }
    RequestsCounted(Flight(w.net), n, Requesting(w.h.b.phase));
    forall m | m in Flight(w.net) && m.cmd == BarrierRequest ensures m.src < n && m == BarrierMsg(m.src) {
      assert Expected(n, w.h, m);
    }
  }

  // ---------------------------------------------------------------- fence

  /** Every server's k-th completion carries the same bytes: the k-th contributions of
      all n servers, each once, in the order in which they reached the hub. And it
      runs the callback stored with that server's own k-th contribution. */
  lemma FenceRounds(n: nat, acts: seq<Action>, w: World, i: nat, k: nat)
    requires Reached(n, acts, w) && i < |w.h.f.dones| && k < |w.h.f.dones[i]|
    ensures |w.h.f.calls| == n && i < n && k < |w.h.f.orders|
    ensures Permutation(n, w.h.f.orders[k])
    ensures forall j | 0 <= j < n :: k < |w.h.f.calls[j]|
    ensures w.h.f.dones[i][k] == Fired(CallbackOf(w.h.f.calls[i][k]), Gather(w.h.f.orders[k], RoundData(w.h.f.calls, k)))
  {
    ReachedInv(n, acts, w);
    assert FencePhaseOk(w.h.f, i);
    assert RoundOk(n, w.h.f, k);
  }

  /** A server has at most one contribution outstanding and is never more than one round ahead. */
  lemma FenceInStep(n: nat, acts: seq<Action>, w: World, i: nat, j: nat)
    requires Reached(n, acts, w) && i < n && j < n
    ensures |w.h.f.calls| == |w.h.f.dones| == n
    ensures |w.h.f.dones[i]| <= |w.h.f.calls[i]| <= |w.h.f.dones[i]| + 1
    ensures |w.h.f.dones[i]| <= |w.h.f.calls[j]|
  {
    ReachedInv(n, acts, w);
    assert FencePhaseOk(w.h.f, i);
    assert FencePhaseOk(w.h.f, j);
  }

  // --------------------------------------------------------------- tables

  lemma ReachedLaunches(n: nat, acts: seq<Action>, w: World)
    requires Reached(n, acts, w)
    ensures FenceLogOk(n, w.h.f) && LaunchesSent(w.h.f) && |w.servers| == n
    ensures forall i | 0 <= i < n ::
              Tables(w.servers[i].table, w.servers[i].aborted) == TablesAfter(w.h.f.calls[i], w.h.f.dones[i])
  {
    ReachedInv(n, acts, w);
    forall i | 0 <= i < n
      ensures TablesOk(i, w.h.f.calls[i], w.h.f.dones[i], w.servers[i].table, w.servers[i].aborted)
    {
    }
    forall j, k | 0 <= j < n && 0 <= k < |w.h.f.calls[j]|
      ensures LaunchDataOk(j, w.h.f.calls[j], w.h.f.dones[j], k)
    {
      assert TablesOk(j, w.h.f.calls[j], w.h.f.dones[j], w.servers[j].table, w.servers[j].aborted);
    }
  }

  /** Server `i` has completed round `k`, in which it launched `ns`. */
  predicate Exchanged(f: FenceLog, i: nat, k: nat) {
    i < |f.calls| == |f.dones| && k < |f.dones[i]| && k < |f.calls[i]| && f.calls[i][k].LaunchCall?
  }

  lemma ExchangedTable(n: nat, acts: seq<Action>, w: World, i: nat, k: nat)
    requires Reached(n, acts, w) && InStep(w.h.f.calls) && i < n && Exchanged(w.h.f, i, k)
    ensures i < |w.servers| && !w.servers[i].aborted
    ensures k < |w.h.f.orders| && Permutation(n, w.h.f.orders[k]) && OwnClaims(i, w.h.f.calls[i][k].ns)
    ensures forall rank | 0 <= rank < w.h.f.calls[i][k].ns.ntasks ::
              FindId(w.servers[i].table, w.h.f.calls[i][k].ns.name, rank)
                == Owner(Merged(w.h.f.calls[i][k].ns, w.h.f.orders[k], Locals(w.h.f.calls, k)).taskMap[rank])
  {
    ReachedLaunches(n, acts, w);
    FenceRounds(n, acts, w, i, k);
    TableFound(n, w.h.f, i, k);
    assert OwnClaims(i, w.h.f.calls[i][k].ns);
  }

  /** What a server's table says after an exchange, however many followed: its own claims
      first, then whoever claimed a rank first on the way to the hub. */
  lemma LaunchedOwner(n: nat, acts: seq<Action>, w: World, i: nat, k: nat, rank: nat)
    requires Reached(n, acts, w) && InStep(w.h.f.calls) && i < n && Exchanged(w.h.f, i, k)
    requires rank < w.h.f.calls[i][k].ns.ntasks
    ensures i < |w.servers| && !w.servers[i].aborted && k < |w.h.f.orders|
    ensures var locals := Locals(w.h.f.calls, k);
            FindId(w.servers[i].table, w.h.f.calls[i][k].ns.name, rank)
              == Owner(if Claims(locals, i, rank) then i else FirstClaim(w.h.f.orders[k], locals, rank))
  {
    ExchangedTable(n, acts, w, i, k);
  }

  /** Two servers that claim the same rank never agree on its owner: each takes itself for it. */
  lemma ClaimedTwice(n: nat, acts: seq<Action>, w: World, i: nat, j: nat, k: nat, rank: nat)
    requires Reached(n, acts, w) && InStep(w.h.f.calls) && i < n && j < n
    requires Exchanged(w.h.f, i, k) && Exchanged(w.h.f, j, k)
    requires Claims(Locals(w.h.f.calls, k), i, rank) && Claims(Locals(w.h.f.calls, k), j, rank)
    ensures i < |w.servers| && j < |w.servers|
    ensures FindId(w.servers[i].table, w.h.f.calls[i][k].ns.name, rank) == Owner(i)
    ensures FindId(w.servers[j].table, w.h.f.calls[i][k].ns.name, rank) == Owner(j)
    ensures rank < w.h.f.calls[i][k].ns.ntasks
  {
    ReachedLaunches(n, acts, w);
    assert SameCall(w.h.f.calls[i][k], w.h.f.calls[j][k]);
    assert OwnClaims(i, w.h.f.calls[i][k].ns);
    LaunchedOwner(n, acts, w, i, k, rank);
    LaunchedOwner(n, acts, w, j, k, rank);
  }

  /** A rank that no two servers claim has the same owner in every table. */
  lemma ClaimedAtMostOnce(n: nat, acts: seq<Action>, w: World, i: nat, j: nat, k: nat, rank: nat)
    requires Reached(n, acts, w) && InStep(w.h.f.calls) && i < n && j < n && ClaimedOnce(Locals(w.h.f.calls, k))
    requires Exchanged(w.h.f, i, k) && Exchanged(w.h.f, j, k) && rank < w.h.f.calls[i][k].ns.ntasks
    ensures i < |w.servers| && j < |w.servers| && k < |w.h.f.orders|
    ensures FindId(w.servers[j].table, w.h.f.calls[i][k].ns.name, rank)
         == Owner(FirstClaim(w.h.f.orders[k], Locals(w.h.f.calls, k), rank))
    ensures forall c: nat | Claims(Locals(w.h.f.calls, k), c, rank) ::
              FirstClaim(w.h.f.orders[k], Locals(w.h.f.calls, k), rank) == c
  {
    ReachedLaunches(n, acts, w);
    assert SameCall(w.h.f.calls[i][k], w.h.f.calls[j][k]);
    ExchangedTable(n, acts, w, j, k);
    MergedOnce(w.h.f.orders[k], Locals(w.h.f.calls, k), j, rank);
  }

  predicate SameOwner(w: World, i: nat, j: nat, name: seq<byte>, rank: nat)
    requires i < |w.servers| && j < |w.servers|
  {
    FindId(w.servers[i].table, name, rank) == FindId(w.servers[j].table, name, rank)
  }

  /** All servers have completed round `k`, in which they launched a namespace. */
  ghost predicate AllExchanged(n: nat, f: FenceLog, k: nat) {
    |f.calls| == n && forall i | 0 <= i < |f.calls| :: Exchanged(f, i, k) && k < |f.calls[i]| && f.calls[i][k].LaunchCall?
  }

  ghost predicate AllAgree(w: World, k: nat)
    requires |w.servers| == |w.h.f.calls| && AllExchanged(|w.servers|, w.h.f, k)
  {
    forall i, j, rank | 0 <= i < |w.servers| && 0 <= j < |w.servers| && 0 <= rank < w.h.f.calls[i][k].ns.ntasks ::
      SameOwner(w, i, j, w.h.f.calls[i][k].ns.name, rank)
  }

  /** Once all servers have completed an exchange, all their tables name the same owners
      if and only if no rank was claimed by two servers. */
  lemma TableAgreement(n: nat, acts: seq<Action>, w: World, k: nat)
    requires Reached(n, acts, w) && InStep(w.h.f.calls)
    requires |w.servers| == |w.h.f.calls| == n && AllExchanged(n, w.h.f, k)
    ensures AllAgree(w, k) <==> ClaimedOnce(Locals(w.h.f.calls, k))
  {
    var locals := Locals(w.h.f.calls, k);
    if ClaimedOnce(locals) {
      forall i, j, rank | 0 <= i < n && 0 <= j < n && 0 <= rank < w.h.f.calls[i][k].ns.ntasks
        ensures SameOwner(w, i, j, w.h.f.calls[i][k].ns.name, rank)
      {
        assert Exchanged(w.h.f, i, k) && Exchanged(w.h.f, j, k);
        ClaimedAtMostOnce(n, acts, w, i, i, k, rank);
        ClaimedAtMostOnce(n, acts, w, i, j, k, rank);
      }
    } else {
      var rank: nat, a: nat, b: nat :| Claims(locals, a, rank) && Claims(locals, b, rank) && a != b;
      assert Exchanged(w.h.f, a, k) && Exchanged(w.h.f, b, k);
      ClaimedTwice(n, acts, w, a, b, k, rank);
      assert !SameOwner(w, a, b, w.h.f.calls[a][k].ns.name, rank);
    }
  }

  // ------------------------------------------------------ the two launch modes

  /** Server `i` launched its share of one namespace first and no other namespace since. */
  ghost predicate LaunchedShare(name: seq<byte>, nprocs: nat, n: nat, i: nat, calls: seq<Call>)
    requires n > 0
  {
    && calls != [] && calls[0].LaunchCall? && calls[0].ns == LocalNs(name, nprocs, n, i)
    && forall k | 1 <= k < |calls| :: calls[k].FenceCall?
  }

  ghost predicate SplitLaunch(name: seq<byte>, nprocs: nat, calls: seq<seq<Call>>) {
    && IsName(name) && nprocs < INT_LIMIT
    && forall j | 0 <= j < |calls| && calls[j] != [] :: LaunchedShare(name, nprocs, |calls|, j, calls[j])
  }

  lemma {:induction false} OneLaunch(calls: seq<Call>, k: nat)
    requires 0 < k <= |calls| && calls[0].LaunchCall? && forall x | 1 <= x < |calls| :: calls[x].FenceCall?
    ensures Launches(calls, k) == 1
  {
    if k > 1 {
      OneLaunch(calls, k - 1);
    }
  }

  lemma SplitInStep(name: seq<byte>, nprocs: nat, calls: seq<seq<Call>>)
    requires SplitLaunch(name, nprocs, calls) && |calls| <= INT_LIMIT
    ensures InStep(calls)
  {
    forall j | 0 <= j < |calls| && calls[j] != []
      ensures OwnClaims(j, calls[j][0].ns) && Launches(calls[j], |calls[j]|) == 1
    {
      assert LaunchedShare(name, nprocs, |calls|, j, calls[j]);
      LocalNsPackable(name, nprocs, |calls|, j);
      assert PackableNs(j, [calls[j][0].ns][0]);
      OneLaunch(calls[j], |calls[j]|);
    }
    forall j, x | 0 <= j < |calls| && 0 <= x < |calls[j]|
      ensures calls[j][x].LaunchCall? <==> x == 0
      ensures x == 0 ==> calls[j][x].ns == LocalNs(name, nprocs, |calls|, j)
    {
      assert LaunchedShare(name, nprocs, |calls|, j, calls[j]);
    }
  }

  lemma SplitTable(n: nat, acts: seq<Action>, w: World, name: seq<byte>, nprocs: nat, i: nat)
    requires Reached(n, acts, w) && i < n == |w.h.f.calls| == |w.h.f.dones|
    requires SplitLaunch(name, nprocs, w.h.f.calls) && w.h.f.dones[i] != []
    ensures i < |w.servers| && !w.servers[i].aborted
    ensures w.servers[i].table == [Nspace(name, nprocs, LocalSize(nprocs, n, i), AgreedMap(nprocs, n))]
  {
    var calls, d := w.h.f.calls, |w.h.f.dones[i]|;
    SplitInStep(name, nprocs, calls);
    ReachedLaunches(n, acts, w);
    FenceRounds(n, acts, w, i, 0);
    FenceInStep(n, acts, w, i, i);
    TableNow(n, w.h.f, i);
    OneSettled(calls, w.h.f.orders, i, d);
    forall j | 0 <= j < n ensures Locals(calls, 0)[j] == Shares(name, nprocs, n)[j] {
      assert LaunchedShare(name, nprocs, n, j, calls[j]);
    }
    assert Locals(calls, 0) == Shares(name, nprocs, n);
    SharesMerge(name, nprocs, n, i, w.h.f.orders[0]);
  }

  /** One namespace split over all n servers: each of them, once its exchange has
      completed, knows the owner of every rank. */
  lemma SplitAgreement(n: nat, acts: seq<Action>, w: World, name: seq<byte>, nprocs: nat, i: nat)
    requires Reached(n, acts, w) && i < n == |w.h.f.calls| == |w.h.f.dones|
    requires SplitLaunch(name, nprocs, w.h.f.calls) && w.h.f.dones[i] != []
    ensures i < |w.servers| && !w.servers[i].aborted
    ensures w.servers[i].table == [Nspace(name, nprocs, LocalSize(nprocs, n, i), AgreedMap(nprocs, n))]
    ensures forall rank | 0 <= rank < nprocs ::
              FindId(w.servers[i].table, name, rank) == Owner(OwnerOf(nprocs, n, rank))
  {
    SplitTable(n, acts, w, name, nprocs, i);
  }

  lemma {:induction false} OneSettled(calls: seq<seq<Call>>, orders: seq<seq<nat>>, i: nat, k: nat)
    requires i < |calls| && 0 < k <= |calls[i]| && k <= |orders| && calls[i][0].LaunchCall?
    requires forall x | 1 <= x < |calls[i]| :: calls[i][x].FenceCall?
    ensures Settled(calls, orders, i, k) == [Merged(calls[i][0].ns, orders[0], Locals(calls, 0))]
    decreases k
  {
    if k > 1 {
      OneSettled(calls, orders, i, k - 1);
    }
  }

  /** With --ns-dist every server claims every rank of its namespaces, which have the same
      names everywhere: then the tables of two servers agree on no rank at all. */
  lemma SharedNamesDisagree(n: nat, acts: seq<Action>, w: World, i: nat, j: nat, k: nat, rank: nat)
    requires Reached(n, acts, w) && InStep(w.h.f.calls) && i < n && j < n && i != j
    requires Exchanged(w.h.f, i, k) && Exchanged(w.h.f, j, k) && rank < w.h.f.calls[i][k].ns.ntasks
    requires forall c | c == i || c == j :: forall r | 0 <= r < w.h.f.calls[c][k].ns.ntasks :: Claims(Locals(w.h.f.calls, k), c, r)
    ensures i < |w.servers| && j < |w.servers| && !SameOwner(w, i, j, w.h.f.calls[i][k].ns.name, rank)
  {
    assert SameCall(w.h.f.calls[i][k], w.h.f.calls[j][k]);
    ClaimedTwice(n, acts, w, i, j, k, rank);
  }

  /** A namespace as --ns-dist makes server `i` launch it: every rank is its own. */
  function WholeNs(name: seq<byte>, size: nat, i: nat): Nspace {
    Nspace(name, size, size, seq(size, _ => i))
  }

  lemma WholeNsClaims(name: seq<byte>, size: nat, i: nat)
    requires IsName(name) && size < INT_LIMIT && i < INT_LIMIT
    ensures OwnClaims(i, WholeNs(name, size, i))
  {
    OwnedInterval(i, WholeNs(name, size, i).taskMap, 0, size, 0);
  }

  function WholeData(name: seq<byte>, size: nat, n: nat): (data: seq<seq<byte>>)
    requires IsName(name)
    ensures |data| == n
  {
    seq(n, j requires 0 <= j < n => PackProcs(j, [WholeNs(name, size, j)]))
  }

  /** What server `i` makes of the tables of all n servers. */
  function WholeResult(name: seq<byte>, size: nat, n: nat, order: seq<nat>, i: nat): Unpacked
    requires IsName(name) && Below(order, n)
  {
    UnpackProcs([WholeNs(name, size, i)], Gather(order, WholeData(name, size, n)))
  }

  /** Exchanging such tables changes none of them, so they stay as different as they were. */
  lemma WholeNsExchange(name: seq<byte>, size: nat, n: nat, order: seq<nat>, i: nat)
    requires IsName(name) && size < INT_LIMIT && i < n <= INT_LIMIT && Below(order, n)
    ensures WholeResult(name, size, n, order, i) == Table([WholeNs(name, size, i)])
    ensures forall rank | 0 <= rank < size :: FindId([WholeNs(name, size, i)], name, rank) == Owner(i)
  {
    var ns, olds, data := WholeNs(name, size, i), seq(n, _ => []), WholeData(name, size, n);
    var locals := seq(n, j requires 0 <= j < n => WholeNs(name, size, j));
    forall j | 0 <= j < n ensures Sends([], ns, j, olds[j], locals[j], data[j]) {
      WholeNsClaims(name, size, j);
      assert [] + [locals[j]] == [locals[j]];
    }
    UnpackRound([], ns, order, olds, locals, data);
    assert Merged(ns, order, locals).taskMap == ns.taskMap;
    assert [] + [ns] == [ns];
  }

  ghost predicate ThinksItsOwn(u: Unpacked, name: seq<byte>, rank: int, i: nat) {
    u.Table? && FindId(u.table, name, rank) == Owner(i)
  }

  /** `-s 2 -n 2 --ns-dist 1`: rank 0 belongs to server 0 in the one table and to server 1 in the other. */
  lemma NsDistInput(name: seq<byte>, order: seq<nat>)
    requires IsName(name) && Below(order, 2)
    ensures ThinksItsOwn(WholeResult(name, 1, 2, order, 0), name, 0, 0)
    ensures ThinksItsOwn(WholeResult(name, 1, 2, order, 1), name, 0, 1)
  {
    WholeNsExchange(name, 1, 2, order, 0);
    WholeNsExchange(name, 1, 2, order, 1);
  }

  // ---------------------------------------------------------------- modex

  /** Every modex callback ever run is the one its requester stored, with the data that
      the library answered to this very request at the server that the requester's table
      names, and still names, as the owner of the rank. */
  lemma ModexAnswers(n: nat, acts: seq<Action>, w: World, i: nat, y: nat)
    requires Reached(n, acts, w) && i < |w.h.x.dones| && y < |w.h.x.dones[i]|
    ensures i < |w.servers|
    ensures var d := w.h.x.dones[i][y];
            && d.want.stage.Answered? && d.fired == [Fired(UserCallback(d.want.token), d.want.stage.data)]
            && Knows(w.servers[i].table, d.want.proc, d.owner)
  {
    ReachedInv(n, acts, w);
    RunKnown(Init(n), acts);
    assert DoneOk(w.h.x.dones[i][y]);
  }

  /** Every open request is addressed to the server that the requester's table names, and
      still names, as the owner of the rank. */
  lemma ModexAsksOwner(n: nat, acts: seq<Action>, w: World, i: nat, k: nat)
    requires Reached(n, acts, w) && (i, k) in w.h.x.wants
    ensures i < |w.servers| && k < |w.servers| && Knows(w.servers[i].table, w.h.x.wants[(i, k)].proc, k)
  {
    ReachedInv(n, acts, w);
    RunKnown(Init(n), acts);
    assert WantSlotOk(w, i, k);
  }

  /** `k` was asked by `i` for this process: the request is open, or it has been answered. */
  ghost predicate AskedFor(w: World, i: nat, k: nat, p: Proc) {
    || ((i, k) in w.h.x.wants && w.h.x.wants[(i, k)].proc == p)
    || (i < |w.h.x.dones| && exists d | d in w.h.x.dones[i] :: d.owner == k && d.want.proc == p)
  }

  /** However the ranks were launched, a server is asked only for a rank that it launched itself. */
  lemma ModexAsksLauncher(n: nat, acts: seq<Action>, w: World, i: nat, k: nat, p: Proc)
    requires Reached(n, acts, w) && InStep(w.h.f.calls) && AskedFor(w, i, k, p)
    ensures 0 <= p.rank && LaunchedBy(w.h.f.calls, k, p.name, p.rank)
  {
    ReachedLaunches(n, acts, w);
    ReachedInv(n, acts, w);
    if (i, k) in w.h.x.wants && w.h.x.wants[(i, k)].proc == p {
      ModexAsksOwner(n, acts, w, i, k);
    } else {
      var d :| d in w.h.x.dones[i] && d.owner == k && d.want.proc == p;
      var y :| 0 <= y < |w.h.x.dones[i]| && w.h.x.dones[i][y] == d;
      ModexAnswers(n, acts, w, i, y);
    }
    assert Tables(w.servers[i].table, w.servers[i].aborted) == TablesAfter(w.h.f.calls[i], w.h.f.dones[i]);
    FoundLaunched(n, w.h.f, i, p, k);
  }

  /** When one namespace is split over the servers, that is the server whose interval holds the rank. */
  lemma ModexSplitOwner(n: nat, acts: seq<Action>, w: World, name: seq<byte>, nprocs: nat, i: nat, k: nat, p: Proc)
    requires Reached(n, acts, w) && n == |w.h.f.calls| && SplitLaunch(name, nprocs, w.h.f.calls) && AskedFor(w, i, k, p)
    ensures p.name == name && 0 <= p.rank < nprocs && k == OwnerOf(nprocs, n, p.rank)
  {
    SplitInStep(name, nprocs, w.h.f.calls);
    ModexAsksLauncher(n, acts, w, i, k, p);
    var x :| 0 <= x < |w.h.f.calls[k]| && LaunchesRank(w.h.f.calls[k][x], k, p.name, p.rank);
    assert LaunchedShare(name, nprocs, n, k, w.h.f.calls[k]);
    SharesPartition(nprocs, n, p.rank, k);
  }

  /** The library of server `k` is asked exactly what is open towards `k`: each
      request once, under the requester's id and for the process it asked about. */
  lemma ModexReachesOwner(n: nat, acts: seq<Action>, w: World, k: nat, r: Request)
    requires Reached(n, acts, w) && k < n
    ensures k < |w.inbox| && multiset(w.inbox[k])[r] <= 1
    ensures r in w.inbox[k] <==> Waiting(w.h.x, k, r)
  {
    ReachedInv(n, acts, w);
    assert InboxOk(w.h.x, k, w.inbox[k]);
    assert r in w.inbox[k] <==> multiset(w.inbox[k])[r] > 0;
  }

  /** A modex call opens a request towards the server that the caller's table names. */
  lemma ModexRoutes(w: World, i: nat, proc: Proc, token: nat)
    requires Inv(w) && Enabled(w, Modex(i, proc, token))
    ensures var found := FindId(w.servers[i].table, proc.name, proc.rank);
            var w' := Next(w, Modex(i, proc, token));
            if found.Owner? && found.id >= 0 then
              && Flight(w'.net) == Flight(w.net) + multiset{Msg(found.id, i, DmdxRequest, PackDmdx(i, proc))}
              && (i, found.id as nat) in w'.h.x.wants
            else w' == w
  {
    var a := Modex(i, proc, token);
    var found := FindId(w.servers[i].table, proc.name, proc.rank);
    if found.Owner? && found.id >= 0 {
      NextWired(w, a);
      StarSteps.PostOne(w, i, Next(w, a).servers[i], Msg(found.id, i, DmdxRequest, PackDmdx(i, proc)));
    }
  }

  /** Routing: a message waits first in its sender's pipe to the hub, if at all, and
      then in its destination's pipe, which only the destination reads. */
  lemma StarRouting(n: nat, acts: seq<Action>, w: World, j: nat)
    requires Reached(n, acts, w) && j < n
    ensures |w.net.toHub| == |w.net.toLeaf| == n
    ensures forall m | m in w.net.toHub[j] :: m.src == j && m.dst < n && (j == 0 ==> m.dst == 0)
    ensures forall m | m in w.net.toLeaf[j] :: j != 0 && m.dst == j
  {
    ReachedInv(n, acts, w);
    forall m | m in w.net.toHub[j] ensures FromServer(n, j, m) {
      var x :| 0 <= x < |w.net.toHub[j]| && w.net.toHub[j][x] == m;
      assert FromServer(n, j, w.net.toHub[j][x]);
    }
  }

  /** The one forwarding: the hub moves a leaf's message for another leaf, unread,
      to the end of that leaf's pipe; nothing else in the system changes. */
  lemma ForwardedOnce(w: World, j: nat)
    requires Inv(w) && Enabled(w, HubReads(j)) && w.net.toHub[j][0].dst != 0
    ensures j != 0
    ensures var m := w.net.toHub[j][0];
            m.dst < |w.servers| &&
            Next(w, HubReads(j)) ==
              w.(net := Net(w.net.toHub[j := w.net.toHub[j][1..]],
                            w.net.toLeaf[m.dst := w.net.toLeaf[m.dst] + [m]]))
  {
    var m := w.net.toHub[j][0];
    var net := w.net.(toHub := w.net.toHub[j := w.net.toHub[j][1..]]);
    assert FromServer(|w.servers|, j, m);
    StarSteps.IsWired(w, 0);
    HubFindsLink(|w.servers|, w.servers[0], m.dst);
    HubArrives(w, j);
    ForwardEffect(w, net, Pos(|w.servers|, 0, j), m);
  }

  lemma ForwardEffect(w: World, net: Net, pos: nat, m: Msg)
    requires Sized(w) && Wired(w) && Routed(net) && pos < |w.servers[0].links|
    requires 0 < m.dst < |net.toLeaf| && FindLink(w.servers[0].links, m.dst) < |w.servers[0].links|
    ensures Handle(w, net, 0, pos, m) ==
              w.(net := net.(toLeaf := net.toLeaf[m.dst := net.toLeaf[m.dst] + [m]]))
  {
    ForwardNet(net, m);
    HandleQuiet(w, net, 0, pos, m);
    assert w.servers[0 := w.servers[0]] == w.servers;
  }

  lemma ForwardNet(net: Net, m: Msg)
    requires 0 < m.dst < |net.toLeaf|
    ensures Post(net, 0, [Send(m.dst, m)]) == net.(toLeaf := net.toLeaf[m.dst := net.toLeaf[m.dst] + [m]])
  {
    assert [Send(m.dst, m)][1..] == [];
  }
}
