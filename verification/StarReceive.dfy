/** Every message that server_read_cb handles preserves the invariant. */
module StarReceive {
  import opened Bytes
  import opened ProcTable
  import opened Exchange
  import opened StarServer
  import opened StarSystem
  import opened StarFlight
  import opened StarInvariant
  import opened StarSteps

  /** `m` has just been taken out of a pipe that server `i` reads through the link at `pos`. */
  ghost predicate Arrives(w: World, net: Net, i: nat, pos: nat, m: Msg)
    requires Sized(w)
  {
    && i < |w.servers| && m.src < |w.servers|
    && Routed(net) && |net.toHub| == |w.servers|
    && m in Flight(w.net) && Flight(net) == Flight(w.net) - multiset{m}
    && pos == Pos(|w.servers|, i, m.src)
    && (i != 0 ==> m.dst == i)
    && (i == 0 && m.src == 0 ==> m.dst == 0)
  }

  lemma ArrivalExpected(w: World, net: Net, i: nat, pos: nat, m: Msg)
    requires Inv(w) && Arrives(w, net, i, pos, m)
    ensures Expected(|w.servers|, w.h, m) && m.dst < |w.servers| && pos < |w.servers[i].links|
  {
    assert Flight(w.net)[m] == 1;
    if m.cmd == DmdxRequest {
      assert WantSlotOk(w, m.src, m.dst);
    } else if m.cmd == DmdxResponse {
      assert WantSlotOk(w, m.dst, m.src);
    }
  }

  /** The message leaves the bag and nothing else changes. */
  lemma RemoveExpected(n: nat, h: History, h': History, before: Net, after: Net, m: Msg)
    requires SizedLogs(n, h) && SizedLogs(n, h') && InFlight(n, h, before)
    requires Expected(n, h, m) && Flight(after) == Flight(before) - multiset{m}
    requires forall x :: Expected(n, h', x) <==> x != m && Expected(n, h, x)
    ensures InFlight(n, h', after)
  {
  }

  lemma HandleQuiet(w: World, net: Net, i: nat, pos: nat, m: Msg)
    requires Sized(w) && Wired(w) && Routed(net) && i < |w.servers| && pos < |w.servers[i].links|
    requires ReadCb(w.servers[i], pos, m).requests == []
    ensures Handle(w, net, i, pos, m).inbox == w.inbox
  {
    assert w.inbox[i] + [] == w.inbox[i];
  }

  lemma HandleNothingSent(w: World, net: Net, i: nat, pos: nat, m: Msg)
    requires Sized(w) && Wired(w) && Routed(net) && i < |w.servers| && pos < |w.servers[i].links|
    requires ReadCb(w.servers[i], pos, m).sends == []
    ensures Handle(w, net, i, pos, m).net == net
  {
  }

  // ------------------------------------------------------------- forwarding

  lemma NetOnly(w: World, net: Net)
    requires Inv(w) && Routed(net) && |net.toHub| == |w.servers| && Flight(net) == Flight(w.net)
    ensures Inv(w.(net := net))
  {
    var w' := w.(net := net);
    assert InFlight(|w.servers|, w.h, net);
    StillFrame(w, w');
    ModexFrame(w, w');
  }

  lemma ForwardShape(w: World, net: Net, pos: nat, m: Msg)
    requires Sized(w) && Wired(w) && Routed(net) && |net.toHub| == |w.servers|
    requires 0 < m.dst < |w.servers| && pos < |w.servers|
    ensures var w' := Handle(w, net, 0, pos, m);
            w' == w.(net := w'.net) && Routed(w'.net) && Flight(w'.net) == Flight(net) + multiset{m}
  {
    IsWired(w, 0);
    HubFindsLink(|w.servers|, w.servers[0], m.dst);
    assert Forward(w.servers[0], m) == [Send(m.dst, m)];
    PostFlight(net, 0, [Send(m.dst, m)]);
    assert Msgs([Send(m.dst, m)]) == [m];
    HandleQuiet(w, net, 0, pos, m);
  }

  /** The hub passes a foreign message on and is otherwise untouched. */
  lemma ForwardStep(w: World, net: Net, pos: nat, m: Msg)
    requires Inv(w) && Arrives(w, net, 0, pos, m) && m.dst != 0
    ensures pos < |w.servers[0].links| && Inv(Handle(w, net, 0, pos, m))
  {
    ArrivalExpected(w, net, 0, pos, m);
    ForwardShape(w, net, pos, m);
    var w' := Handle(w, net, 0, pos, m);
    assert Flight(w'.net) == Flight(w.net);
    NetOnly(w, w'.net);
  }

  // ---------------------------------------------------------------- barrier

  lemma BarrierResponseStep(w: World, net: Net, i: nat, pos: nat, m: Msg)
    requires Inv(w) && Arrives(w, net, i, pos, m) && m.dst == i && m.cmd == BarrierResponse
    ensures pos < |w.servers[i].links| && Inv(Handle(w, net, i, pos, m))
  {
    ArrivalExpected(w, net, i, pos, m);
    var w' := Handle(w, net, i, pos, m);
    HandleNothingSent(w, net, i, pos, m);
    HandleQuiet(w, net, i, pos, m);
    HandleWired(w, net, i, pos, m);
    ResponseInFlight(|w.servers|, w.h, w'.h, w.net, net, m);
    WakeParts(w, w', i);
  }

  lemma ResponseInFlight(n: nat, h: History, h': History, before: Net, after: Net, m: Msg)
    requires SizedLogs(n, h) && SizedLogs(n, h') && InFlight(n, h, before)
    requires Expected(n, h, m) && m.cmd == BarrierResponse && Flight(after) == Flight(before) - multiset{m}
    requires h'.f == h.f && h'.x == h.x && h'.b.phase == h.b.phase[m.dst := BWoken]
    ensures InFlight(n, h', after)
  {
    RemoveExpected(n, h, h', before, after, m);
  }

  lemma WakeParts(w: World, w': World, i: nat)
    requires LocalInv(w) && SameSize(w, w') && i < |w.servers| && w.h.b.phase[i] == BReleased
    requires w'.servers == w.servers[i := SetLink(w.servers[i], OwnPos(|w.servers|, i), OwnLink(w, i).(active := false))]
    requires w'.main == w.main && w'.inbox == w.inbox && w'.h.f == w.h.f && w'.h.x == w.h.x
    requires w'.h.b == w.h.b.(phase := w.h.b.phase[i := BWoken])
    ensures BarrierInv(w') && FenceInv(w') && ModexInv(w') && TableInv(w')
  {
    BarrierWakes(w, w', i);
    forall j | 0 <= j < |w.servers| ensures FenceSlotOk(w.h.f, j, w'.main[j], OwnLink(w', j), w'.servers[j].aborted) {
      assert FenceSlotOk(w.h.f, j, w.main[j], OwnLink(w, j), w.servers[j].aborted);
      assert BarrierPhaseOk(w.h.b, j, w.main[j], OwnLink(w, j).active);
    }
    QuietFrame(w, w');
  }

  lemma BarrierWakes(w: World, w': World, i: nat)
    requires SameSize(w, w') && BarrierInv(w) && i < |w.servers| && w.h.b.phase[i] == BReleased
    requires w'.servers == w.servers[i := SetLink(w.servers[i], OwnPos(|w.servers|, i), OwnLink(w, i).(active := false))]
    requires w'.main == w.main && w'.h.b == w.h.b.(phase := w.h.b.phase[i := BWoken])
    ensures BarrierInv(w')
  {
    assert Counted(w'.h.b.phase) == Counted(w.h.b.phase);
    forall j | 0 <= j < |w.servers| ensures BarrierPhaseOk(w'.h.b, j, w'.main[j], OwnLink(w', j).active) {
      assert BarrierPhaseOk(w.h.b, j, w.main[j], OwnLink(w, j).active);
    }
  }

  /** A set of `n` indices below `n` is all of them. */
  lemma {:induction false} FullSet(n: nat, s: set<nat>)
    requires forall i | i in s :: i < n
    ensures |s| <= n
    ensures |s| == n <==> forall i: nat | i < n :: i in s
    decreases n
  {
    if n > 0 {
      var t := s - {n - 1};
      FullSet(n - 1, t);
      assert n - 1 in s ==> s == t + {n - 1};
      assert n - 1 !in s ==> s == t;
    } else {
      assert s == {};
    }
  }

  lemma CountOneMore(n: nat, phase: seq<BarrierPhase>, i: nat)
    requires i < |phase| == n && phase[i] == BRequested
    ensures |Counted(phase[i := BCounted])| == |Counted(phase)| + 1
    ensures var after := phase[i := BCounted];
            |Counted(after)| == n <==> forall j | 0 <= j < n :: after[j] == BCounted
  {
    var after := phase[i := BCounted];
    assert Counted(after) == Counted(phase) + {i};
    FullSet(n, Counted(after));
    assert forall j: nat | j < n :: j in Counted(after) <==> after[j] == BCounted;
  }

  lemma CountedInFlight(n: nat, h: History, h': History, before: Net, after: Net, m: Msg)
    requires SizedLogs(n, h) && SizedLogs(n, h') && InFlight(n, h, before)
    requires Expected(n, h, m) && m.cmd == BarrierRequest && Flight(after) == Flight(before) - multiset{m}
    requires h'.f == h.f && h'.x == h.x && h'.b.phase == h.b.phase[m.src := BCounted]
    ensures InFlight(n, h', after)
  {
    RemoveExpected(n, h, h', before, after, m);
  }

  lemma ReleasedExpected(n: nat, h: History, h': History, m: Msg, x: Msg)
    requires SizedLogs(n, h) && SizedLogs(n, h')
    requires Expected(n, h, m) && m.cmd == BarrierRequest
    requires forall j | 0 <= j < n && j != m.src :: h.b.phase[j] == BCounted
    requires h'.f == h.f && h'.x == h.x && h'.b.phase == seq(n, _ => BReleased)
    ensures IsCopy(n, x, BarrierResponse, []) ==> !Expected(n, h, x)
    ensures Expected(n, h', x) <==> IsCopy(n, x, BarrierResponse, []) || (x != m && Expected(n, h, x))
  {
    if x.cmd == BarrierRequest {
      assert Expected(n, h, x) <==> x == m;
    } else if x.cmd != BarrierResponse {
      assert Expected(n, h', x) <==> Expected(n, h, x);
    }
  }

  lemma ReleasedInFlight(n: nat, h: History, h': History, before: Net, mid: Net, after: Net, m: Msg)
    requires SizedLogs(n, h) && SizedLogs(n, h') && InFlight(n, h, before)
    requires Expected(n, h, m) && m.cmd == BarrierRequest && Flight(mid) == Flight(before) - multiset{m}
    requires Flight(after) == Flight(mid) + multiset(Copies(n, 0, BarrierResponse, []))
    requires forall j | 0 <= j < n && j != m.src :: h.b.phase[j] == BCounted
    requires h'.f == h.f && h'.x == h.x && h'.b.phase == seq(n, _ => BReleased)
    ensures InFlight(n, h', after)
  {
    CopiesOnce(n, 0, BarrierResponse, []);
    forall x ensures Flight(after)[x] == if Expected(n, h', x) then 1 else 0 {
      ReleasedExpected(n, h, h', m, x);
    }
  }

  lemma CountParts(w: World, w': World, src: nat)
    requires LocalInv(w) && SameSize(w, w') && src < |w.servers| && w.h.b.phase[src] == BRequested
    requires w.servers[0].barrierCnt + 1 < |w.servers|
    requires w'.servers == w.servers[0 := w.servers[0].(barrierCnt := w.servers[0].barrierCnt + 1)]
    requires w'.main == w.main && w'.inbox == w.inbox && w'.h.f == w.h.f && w'.h.x == w.h.x
    requires w'.h.b == w.h.b.(phase := w.h.b.phase[src := BCounted])
    ensures BarrierInv(w') && FenceInv(w') && ModexInv(w') && TableInv(w')
  {
    CountOneMore(|w.servers|, w.h.b.phase, src);
    assert BarrierInv(w') by {
      forall i | 0 <= i < |w.servers| ensures BarrierPhaseOk(w'.h.b, i, w'.main[i], OwnLink(w', i).active) {
        assert BarrierPhaseOk(w.h.b, i, w.main[i], OwnLink(w, i).active);
      }
    }
    FenceFrame(w, w');
    ModexFrame(w, w');
    TableFrame(w, w');
  }

  lemma ReleaseParts(w: World, w': World, src: nat)
    requires LocalInv(w) && SameSize(w, w') && src < |w.servers| && w.h.b.phase[src] == BRequested
    requires forall j | 0 <= j < |w.servers| && j != src :: w.h.b.phase[j] == BCounted
    requires w'.servers == w.servers[0 := w.servers[0].(barrierCnt := 0)]
    requires w'.main == w.main && w'.inbox == w.inbox && w'.h.f == w.h.f && w'.h.x == w.h.x
    requires w'.h.b == w.h.b.(phase := seq(|w.servers|, _ => BReleased), round := w.h.b.round + 1)
    ensures BarrierInv(w') && FenceInv(w') && ModexInv(w') && TableInv(w')
  {
    assert BarrierInv(w') by {
      assert Counted(w'.h.b.phase) == {};
      forall i | 0 <= i < |w.servers| ensures BarrierPhaseOk(w'.h.b, i, w'.main[i], OwnLink(w', i).active) {
        assert BarrierPhaseOk(w.h.b, i, w.main[i], OwnLink(w, i).active);
      }
    }
    FenceFrame(w, w');
    ModexFrame(w, w');
    TableFrame(w, w');
  }

  /** What the hub does with the request that completes a barrier. */
  lemma LastBarrierShape(w: World, net: Net, pos: nat, m: Msg)
    requires Sized(w) && Wired(w) && Routed(net) && |net.toHub| == |w.servers| && pos < |w.servers|
    requires m.src < |w.servers| && m.dst == 0 && m.cmd == BarrierRequest
    requires w.servers[0].barrierCnt + 1 == |w.servers|
    requires forall j | 0 <= j < |w.servers| && j != m.src :: w.h.b.phase[j] == BCounted
    ensures var w' := Handle(w, net, 0, pos, m);
            && w'.servers == w.servers[0 := w.servers[0].(barrierCnt := 0)]
            && w'.main == w.main && w'.inbox == w.inbox
            && w'.h == w.h.(b := w.h.b.(phase := seq(|w.servers|, _ => BReleased), round := w.h.b.round + 1))
            && Routed(w'.net) && |w'.net.toHub| == |w.servers|
            && Flight(w'.net) == Flight(net) + multiset(Copies(|w.servers|, 0, BarrierResponse, []))
  {
    IsWired(w, 0);
    BroadcastGood(|w.servers|, w.servers[0], 0, BarrierResponse, []);
    PostFlight(net, 0, Broadcast(w.servers[0], 0, BarrierResponse, []));
    HandleQuiet(w, net, 0, pos, m);
  }

  lemma LastRequester(w: World, m: Msg)
    requires Sized(w) && Wired(w) && BarrierInv(w) && Expected(|w.servers|, w.h, m) && m.cmd == BarrierRequest
    ensures w.servers[0].barrierCnt + 1 == |w.servers| <==>
            forall j | 0 <= j < |w.servers| && j != m.src :: w.h.b.phase[j] == BCounted
  {
    CountOneMore(|w.servers|, w.h.b.phase, m.src);
    var after := w.h.b.phase[m.src := BCounted];
    assert forall j | 0 <= j < |w.servers| && j != m.src :: after[j] == w.h.b.phase[j];
  }

  lemma LastBarrierRequest(w: World, net: Net, pos: nat, m: Msg)
    requires Inv(w) && Arrives(w, net, 0, pos, m) && m.dst == 0 && m.cmd == BarrierRequest
    requires w.servers[0].barrierCnt + 1 == |w.servers|
    ensures pos < |w.servers[0].links| && Inv(Handle(w, net, 0, pos, m))
  {
    ArrivalExpected(w, net, 0, pos, m);
    LastRequester(w, m);
    LastBarrierShape(w, net, pos, m);
    HandleWired(w, net, 0, pos, m);
    var w' := Handle(w, net, 0, pos, m);
    ReleasedInFlight(|w.servers|, w.h, w'.h, w.net, net, w'.net, m);
    ReleaseParts(w, w', m.src);
  }

  lemma EarlyBarrierShape(w: World, net: Net, pos: nat, m: Msg)
    requires Sized(w) && Wired(w) && Routed(net) && |net.toHub| == |w.servers| && pos < |w.servers|
    requires m.src < |w.servers| && m.dst == 0 && m.cmd == BarrierRequest
    requires w.servers[0].barrierCnt + 1 != |w.servers| && w.h.b.phase[m.src] == BRequested
    requires exists j :: 0 <= j < |w.servers| && j != m.src && w.h.b.phase[j] != BCounted
    ensures var w' := Handle(w, net, 0, pos, m);
            && w'.servers == w.servers[0 := w.servers[0].(barrierCnt := w.servers[0].barrierCnt + 1)]
            && w'.main == w.main && w'.inbox == w.inbox && w'.net == net
            && w'.h == w.h.(b := w.h.b.(phase := w.h.b.phase[m.src := BCounted]))
  {
    HandleQuiet(w, net, 0, pos, m);
    var j :| 0 <= j < |w.servers| && j != m.src && w.h.b.phase[j] != BCounted;
    assert w.h.b.phase[m.src := BCounted][j] != BCounted;
  }

  lemma EarlyBarrierRequest(w: World, net: Net, pos: nat, m: Msg)
    requires Inv(w) && Arrives(w, net, 0, pos, m) && m.dst == 0 && m.cmd == BarrierRequest
    requires w.servers[0].barrierCnt + 1 != |w.servers|
    ensures pos < |w.servers[0].links| && Inv(Handle(w, net, 0, pos, m))
  {
    ArrivalExpected(w, net, 0, pos, m);
    LastRequester(w, m);
    EarlyBarrierShape(w, net, pos, m);
    HandleWired(w, net, 0, pos, m);
    var w' := Handle(w, net, 0, pos, m);
    CountedInFlight(|w.servers|, w.h, w'.h, w.net, net, m);
    CountParts(w, w', m.src);
  }

  // ------------------------------------------------------------------ fence

  function CountFence(f: FenceLog, src: nat): FenceLog
    requires src < |f.phase|
  {
    f.(order := f.order + [src], phase := f.phase[src := FCounted])
  }

  function CloseRound(n: nat, f: FenceLog, src: nat): FenceLog
    requires Below(f.order + [src], |f.calls|)
  {
    var order := f.order + [src];
    f.(order := [], orders := f.orders + [order],
       results := f.results + [Gather(order, RoundData(f.calls, |f.results|))],
       phase := seq(n, _ => FCompleting))
  }

  lemma SentData(n: nat, f: FenceLog, src: nat)
    requires FenceLogOk(n, f) && src < n && f.phase[src] == FSent
    ensures |f.calls[src]| == |f.results| + 1 && src !in f.order
    ensures Below(f.order + [src], n) && Distinct(f.order + [src])
    ensures Gather(f.order + [src], RoundData(f.calls, |f.results|))
         == Gather(f.order, RoundData(f.calls, |f.results|)) + f.calls[src][|f.results|].data
  {
    assert FencePhaseOk(f, src);
    GatherAppend(f.order, src, RoundData(f.calls, |f.results|));
  }

  lemma CountFenceLog(n: nat, f: FenceLog, src: nat)
    requires FenceLogOk(n, f) && src < n && f.phase[src] == FSent && |f.order| + 1 < n
    ensures FenceLogOk(n, CountFence(f, src))
  {
    SentData(n, f, src);
    var f' := CountFence(f, src);
    forall k | 0 <= k < |f.results| ensures RoundOk(n, f', k) {
      assert RoundOk(n, f, k);
    }
    forall i | 0 <= i < n ensures FencePhaseOk(f', i) {
      assert FencePhaseOk(f, i);
    }
    assert OrderOk(n, f') by {
      forall i: nat | i < n ensures i in f'.order <==> f'.phase[i] == FCounted {
        assert i in f'.order <==> i in f.order || i == src;
      }
    }
  }

  lemma {:induction false} DistinctSize(order: seq<nat>)
    requires Distinct(order)
    ensures |Elements(order)| == |order|
  {
    if order != [] {
      var rest := order[1..];
      assert Distinct(rest);
      DistinctSize(rest);
      assert order == [order[0]] + rest;
      assert Elements(order) == {order[0]} + Elements(rest);
      assert order[0] !in Elements(rest);
    }
  }

  lemma FullOrder(n: nat, order: seq<nat>)
    requires Below(order, n) && Distinct(order) && |order| == n
    ensures Permutation(n, order)
  {
    DistinctSize(order);
    FullSet(n, Elements(order));
    forall j: nat | j < n ensures j in order {
      assert j in Elements(order);
    }
  }

  lemma CloseRoundLog(n: nat, f: FenceLog, src: nat)
    requires FenceLogOk(n, f) && src < n && f.phase[src] == FSent && |f.order| + 1 == n
    ensures Below(f.order + [src], |f.calls|) && FenceLogOk(n, CloseRound(n, f, src))
    ensures forall i | 0 <= i < n && i != src :: f.phase[i] == FCounted
  {
    SentData(n, f, src);
    var order := f.order + [src];
    FullOrder(n, order);
    forall i | 0 <= i < n && i != src ensures f.phase[i] == FCounted {
      assert i in order;
    }
    var f' := CloseRound(n, f, src);
    forall i | 0 <= i < n ensures FencePhaseOk(f', i) && |f.calls[i]| == |f.results| + 1 {
      assert FencePhaseOk(f, i);
    }
    forall k | 0 <= k < |f'.results| ensures RoundOk(n, f', k) {
      if k < |f.results| {
        assert RoundOk(n, f, k);
      }
    }
  }

  lemma CountFenceInFlight(n: nat, h: History, h': History, before: Net, after: Net, m: Msg)
    requires SizedLogs(n, h) && SizedLogs(n, h') && InFlight(n, h, before)
    requires Expected(n, h, m) && m.cmd == FenceContrib && Flight(after) == Flight(before) - multiset{m}
    requires h'.b == h.b && h'.x == h.x && h'.f == CountFence(h.f, m.src)
    ensures InFlight(n, h', after)
  {
    forall x ensures Expected(n, h', x) <==> x != m && Expected(n, h, x) {
      CountFenceExpected(n, h, h', m, x);
    }
    RemoveExpected(n, h, h', before, after, m);
  }

  lemma CountFenceExpected(n: nat, h: History, h': History, m: Msg, x: Msg)
    requires SizedLogs(n, h) && SizedLogs(n, h') && Expected(n, h, m) && m.cmd == FenceContrib
    requires h'.b == h.b && h'.x == h.x && h'.f == CountFence(h.f, m.src)
    ensures Expected(n, h', x) <==> x != m && Expected(n, h, x)
  {
  }

  lemma CloseRoundExpected(n: nat, h: History, h': History, m: Msg, data: seq<byte>, x: Msg)
    requires SizedLogs(n, h) && SizedLogs(n, h')
    requires Expected(n, h, m) && m.cmd == FenceContrib
    requires forall i | 0 <= i < n && i != m.src :: h.f.phase[i] == FCounted
    requires h'.b == h.b && h'.x == h.x && h'.f.phase == seq(n, _ => FCompleting)
    requires h'.f.results != [] && h'.f.results[|h'.f.results| - 1] == data
    ensures IsCopy(n, x, FenceComplete, data) ==> !Expected(n, h, x)
    ensures Expected(n, h', x) <==> IsCopy(n, x, FenceComplete, data) || (x != m && Expected(n, h, x))
  {
    if x.cmd == FenceContrib {
      assert Expected(n, h, x) <==> x == m;
    } else if x.cmd != FenceComplete {
      assert Expected(n, h', x) <==> Expected(n, h, x);
    }
  }

  lemma CloseRoundInFlight(n: nat, h: History, h': History, before: Net, mid: Net, after: Net, m: Msg, data: seq<byte>)
    requires SizedLogs(n, h) && SizedLogs(n, h') && InFlight(n, h, before)
    requires Expected(n, h, m) && m.cmd == FenceContrib && Flight(mid) == Flight(before) - multiset{m}
    requires Flight(after) == Flight(mid) + multiset(Copies(n, 0, FenceComplete, data))
    requires forall i | 0 <= i < n && i != m.src :: h.f.phase[i] == FCounted
    requires h'.b == h.b && h'.x == h.x && h'.f.phase == seq(n, _ => FCompleting)
    requires h'.f.results != [] && h'.f.results[|h'.f.results| - 1] == data
    ensures InFlight(n, h', after)
  {
    CopiesOnce(n, 0, FenceComplete, data);
    forall x ensures Flight(after)[x] == if Expected(n, h', x) then 1 else 0 {
      CloseRoundExpected(n, h, h', m, data, x);
    }
  }

  /** The hub's fence statics change; calls and completions do not. */
  lemma HubFenceParts(w: World, w': World)
    requires LocalInv(w) && SameSize(w, w')
    requires w'.servers == w.servers[0 := w.servers[0].(contribCnt := w'.servers[0].contribCnt, fenceBuf := w'.servers[0].fenceBuf)]
    requires w'.main == w.main && w'.inbox == w.inbox && w'.h.b == w.h.b && w'.h.x == w.h.x
    requires w'.h.f.calls == w.h.f.calls && w'.h.f.dones == w.h.f.dones
    requires FenceLogOk(|w.servers|, w'.h.f) && HubFenceOk(w'.h.f, w'.servers[0])
    ensures BarrierInv(w') && FenceInv(w') && ModexInv(w') && TableInv(w')
  {
    BarrierFrame(w, w');
    assert FenceInv(w') by {
      forall i | 0 <= i < |w.servers| ensures FenceSlotOk(w'.h.f, i, w'.main[i], OwnLink(w', i), w'.servers[i].aborted) {
        assert FenceSlotOk(w.h.f, i, w.main[i], OwnLink(w, i), w.servers[i].aborted);
      }
    }
    assert ModexInv(w') by {
      forall i, k | (i, k) in w'.h.x.wants ensures WantSlotOk(w', i, k) {
        assert WantSlotOk(w, i, k);
      }
    }
    TableFrame(w, w');
  }

  lemma EarlyFenceParts(w: World, w': World, m: Msg)
    requires LocalInv(w) && SameSize(w, w') && Expected(|w.servers|, w.h, m) && m.cmd == FenceContrib
    requires w.servers[0].contribCnt + 1 != |w.servers|
    requires var s := w.servers[0];
             w'.servers == w.servers[0 := s.(contribCnt := s.contribCnt + 1, fenceBuf := s.fenceBuf + m.data)]
    requires w'.main == w.main && w'.inbox == w.inbox && w'.h == w.h.(f := CountFence(w.h.f, m.src))
    ensures BarrierInv(w') && FenceInv(w') && ModexInv(w') && TableInv(w')
  {
    SentData(|w.servers|, w.h.f, m.src);
    CountFenceLog(|w.servers|, w.h.f, m.src);
    HubFenceParts(w, w');
  }

  lemma EarlyFenceContrib(w: World, net: Net, pos: nat, m: Msg)
    requires Inv(w) && Arrives(w, net, 0, pos, m) && m.dst == 0 && m.cmd == FenceContrib
    requires w.servers[0].contribCnt + 1 != |w.servers|
    ensures pos < |w.servers[0].links| && Inv(Handle(w, net, 0, pos, m))
  {
    ArrivalExpected(w, net, 0, pos, m);
    HandleWired(w, net, 0, pos, m);
    HandleQuiet(w, net, 0, pos, m);
    HandleNothingSent(w, net, 0, pos, m);
    var w' := Handle(w, net, 0, pos, m);
    CountFenceInFlight(|w.servers|, w.h, w'.h, w.net, net, m);
    EarlyFenceParts(w, w', m);
  }

  /** What the hub does with the contribution that completes a round. */
  lemma LastFenceShape(w: World, net: Net, pos: nat, m: Msg)
    requires Sized(w) && Wired(w) && Routed(net) && |net.toHub| == |w.servers| && pos < |w.servers|
    requires m.src < |w.servers| && m.dst == 0 && m.cmd == FenceContrib
    requires w.servers[0].contribCnt + 1 == |w.servers| == |w.h.f.order| + 1
    requires Below(w.h.f.order + [m.src], |w.h.f.calls|)
    ensures var w' := Handle(w, net, 0, pos, m);
            var data := w.servers[0].fenceBuf + m.data;
            && w'.servers == w.servers[0 := w.servers[0].(contribCnt := 0, fenceBuf := [])]
            && w'.main == w.main && w'.inbox == w.inbox && w'.h == w.h.(f := CloseRound(|w.servers|, w.h.f, m.src))
            && Routed(w'.net) && |w'.net.toHub| == |w.servers|
            && Flight(w'.net) == Flight(net) + multiset(Copies(|w.servers|, 0, FenceComplete, data))
  {
    IsWired(w, 0);
    var data := w.servers[0].fenceBuf + m.data;
    BroadcastGood(|w.servers|, w.servers[0], 0, FenceComplete, data);
    PostFlight(net, 0, Broadcast(w.servers[0], 0, FenceComplete, data));
    HandleQuiet(w, net, 0, pos, m);
  }

  lemma LastFenceParts(w: World, w': World, m: Msg)
    requires LocalInv(w) && SameSize(w, w') && Expected(|w.servers|, w.h, m) && m.cmd == FenceContrib
    requires w.servers[0].contribCnt + 1 == |w.servers|
    requires w'.servers == w.servers[0 := w.servers[0].(contribCnt := 0, fenceBuf := [])]
    requires Below(w.h.f.order + [m.src], |w.h.f.calls|)
    requires w'.main == w.main && w'.inbox == w.inbox && w'.h == w.h.(f := CloseRound(|w.servers|, w.h.f, m.src))
    ensures BarrierInv(w') && FenceInv(w') && ModexInv(w') && TableInv(w')
    ensures forall i | 0 <= i < |w.servers| && i != m.src :: w.h.f.phase[i] == FCounted
    ensures w'.h.f.results == w.h.f.results + [w.servers[0].fenceBuf + m.data]
  {
    SentData(|w.servers|, w.h.f, m.src);
    CloseRoundLog(|w.servers|, w.h.f, m.src);
    HubFenceParts(w, w');
  }

  lemma LastFenceKeeps(w: World, net: Net, w': World, m: Msg)
    requires Inv(w) && SameSize(w, w') && Expected(|w.servers|, w.h, m) && m.cmd == FenceContrib
    requires w.servers[0].contribCnt + 1 == |w.servers| && Flight(net) == Flight(w.net) - multiset{m}
    requires w'.servers == w.servers[0 := w.servers[0].(contribCnt := 0, fenceBuf := [])]
    requires Below(w.h.f.order + [m.src], |w.h.f.calls|)
    requires w'.main == w.main && w'.inbox == w.inbox && w'.h == w.h.(f := CloseRound(|w.servers|, w.h.f, m.src))
    requires Routed(w'.net)
    requires Flight(w'.net) == Flight(net) + multiset(Copies(|w.servers|, 0, FenceComplete, w.servers[0].fenceBuf + m.data))
    ensures Inv(w')
  {
    LastFenceParts(w, w', m);
    CloseRoundInFlight(|w.servers|, w.h, w'.h, w.net, net, w'.net, m, w.servers[0].fenceBuf + m.data);
  }

  lemma LastFenceContrib(w: World, net: Net, pos: nat, m: Msg)
    requires Inv(w) && Arrives(w, net, 0, pos, m) && m.dst == 0 && m.cmd == FenceContrib
    requires w.servers[0].contribCnt + 1 == |w.servers|
    ensures pos < |w.servers[0].links| && Inv(Handle(w, net, 0, pos, m))
  {
    ArrivalExpected(w, net, 0, pos, m);
    assert Below(w.h.f.order + [m.src], |w.h.f.calls|);
    LastFenceShape(w, net, pos, m);
    HandleWired(w, net, 0, pos, m);
    LastFenceKeeps(w, net, Handle(w, net, 0, pos, m), m);
  }

  function Complete(f: FenceLog, i: nat, d: Fired): FenceLog
    requires i < |f.dones| == |f.phase|
  {
    f.(dones := f.dones[i := f.dones[i] + [d]], phase := f.phase[i := FIdle])
  }

  lemma CompleteLog(n: nat, f: FenceLog, i: nat, d: Fired)
    requires FenceLogOk(n, f) && i < n && f.phase[i] == FCompleting && f.results != []
    requires f.calls[i] != [] && d == Fired(CallbackOf(f.calls[i][|f.calls[i]| - 1]), f.results[|f.results| - 1])
    ensures FenceLogOk(n, Complete(f, i, d))
  {
    var f' := Complete(f, i, d);
    forall k | 0 <= k < |f.results| ensures RoundOk(n, f', k) {
      assert RoundOk(n, f, k);
    }
    forall j | 0 <= j < n ensures FencePhaseOk(f', j) {
      assert FencePhaseOk(f, j);
    }
  }

  lemma CompleteInFlight(n: nat, h: History, h': History, before: Net, after: Net, m: Msg, d: Fired)
    requires SizedLogs(n, h) && SizedLogs(n, h') && InFlight(n, h, before)
    requires Expected(n, h, m) && m.cmd == FenceComplete && Flight(after) == Flight(before) - multiset{m}
    requires h'.b == h.b && h'.x == h.x && h'.f == Complete(h.f, m.dst, d)
    ensures InFlight(n, h', after)
  {
    RemoveExpected(n, h, h', before, after, m);
  }

  lemma CompleteTables(i: nat, calls: seq<Call>, dones: seq<Fired>, t: Tables, d: Fired)
    requires |calls| == |dones| + 1 && TablesOk(i, calls, dones, t.table, t.bad)
    ensures var last := calls[|dones|];
            var after := if last.FenceCall? then t
                         else match UnpackProcs(t.table, d.data)
                              case Garbled => t.(bad := true)
                              case Table(u) => t.(table := u);
            TablesOk(i, calls, dones + [d], after.table, after.bad)
  {
    var dones' := dones + [d];
    assert dones'[..|dones|] == dones && dones[..|dones|] == dones;
    forall k | 0 <= k < |calls| ensures LaunchDataOk(i, calls, dones', k) {
      assert LaunchDataOk(i, calls, dones, k);
      assert calls[k].LaunchCall? ==> dones'[..k] == dones[..k];
    }
  }

  /** A completion runs the callback that the pending contribution stored. */
  lemma CompleteFires(w: World, net: Net, i: nat, pos: nat, m: Msg)
    requires Inv(w) && Arrives(w, net, i, pos, m) && m.dst == i && m.cmd == FenceComplete
    ensures pos == OwnPos(|w.servers|, i) && !FenceIdle(w.h.f, i) && w.h.f.calls[i] != []
    ensures w.h.f.phase[i] == FCompleting && |w.h.f.calls[i]| == |w.h.f.dones[i]| + 1
    ensures var o := ReadCb(w.servers[i], pos, m);
            && o.fired == [Fired(CallbackOf(w.h.f.calls[i][|w.h.f.calls[i]| - 1]), m.data)]
            && o.sends == [] && o.requests == []
  {
    ArrivalExpected(w, net, i, pos, m);
    assert FencePhaseOk(w.h.f, i);
    assert FenceSlotOk(w.h.f, i, w.main[i], OwnLink(w, i), w.servers[i].aborted);
  }

  lemma CompleteParts(w: World, w': World, i: nat, data: seq<byte>, d: Fired)
    requires LocalInv(w) && SameSize(w, w') && i < |w.servers| && w.h.f.phase[i] == FCompleting && w.h.f.results != []
    requires data == w.h.f.results[|w.h.f.results| - 1]
    requires w.h.f.calls[i] != [] && d == Fired(CallbackOf(w.h.f.calls[i][|w.h.f.calls[i]| - 1]), data)
    requires w'.servers == w.servers[i := Fire(w.servers[i], OwnPos(|w.servers|, i), data).server]
    requires w'.main == w.main && w'.inbox == w.inbox && w'.h == w.h.(f := Complete(w.h.f, i, d))
    ensures BarrierInv(w') && FenceInv(w') && ModexInv(w') && TableInv(w')
  {
    assert FencePhaseOk(w.h.f, i);
    CompleteLog(|w.servers|, w.h.f, i, d);
    assert FenceSlotOk(w.h.f, i, w.main[i], OwnLink(w, i), w.servers[i].aborted);
    forall j | 0 <= j < |w.servers|
      ensures BarrierPhaseOk(w.h.b, j, w'.main[j], OwnLink(w', j).active)
      ensures FenceSlotOk(w'.h.f, j, w'.main[j], OwnLink(w', j), w'.servers[j].aborted)
    {
      assert BarrierPhaseOk(w.h.b, j, w.main[j], OwnLink(w, j).active);
      assert FenceSlotOk(w.h.f, j, w.main[j], OwnLink(w, j), w.servers[j].aborted);
    }
    BarrierFrame(w, w');
    CompleteModex(w, w', i, data, d);
    CompleteTable(w, w', i, data, d);
  }

  lemma CompleteTable(w: World, w': World, i: nat, data: seq<byte>, d: Fired)
    requires SameSize(w, w') && TableInv(w) && i < |w.servers| && |w.h.f.phase| == |w.servers|
    requires |w.h.f.calls[i]| == |w.h.f.dones[i]| + 1 && d == Fired(CallbackOf(w.h.f.calls[i][|w.h.f.dones[i]|]), data)
    requires OwnLink(w, i).cb == d.cb
    requires w'.servers == w.servers[i := Fire(w.servers[i], OwnPos(|w.servers|, i), data).server]
    requires w'.h.f == Complete(w.h.f, i, d)
    ensures TableInv(w')
  {
    CompleteTables(i, w.h.f.calls[i], w.h.f.dones[i], Tables(w.servers[i].table, w.servers[i].aborted), d);
  }

  lemma CompleteModex(w: World, w': World, i: nat, data: seq<byte>, d: Fired)
    requires SameSize(w, w') && ModexInv(w) && i < |w.servers| && !FenceIdle(w.h.f, i) && |w.h.f.phase| == |w.servers|
    requires w'.servers == w.servers[i := Fire(w.servers[i], OwnPos(|w.servers|, i), data).server]
    requires w'.inbox == w.inbox && w'.h.x == w.h.x && w'.h.f == Complete(w.h.f, i, d)
    ensures ModexInv(w')
  {
    forall j, k | (j, k) in w.h.x.wants ensures WantSlotOk(w', j, k) {
      assert WantSlotOk(w, j, k);
    }
    ModexFrame(w, w');
  }

  lemma FenceCompleteStep(w: World, net: Net, i: nat, pos: nat, m: Msg)
    requires Inv(w) && Arrives(w, net, i, pos, m) && m.dst == i && m.cmd == FenceComplete
    ensures pos < |w.servers[i].links| && Inv(Handle(w, net, i, pos, m))
  {
    ArrivalExpected(w, net, i, pos, m);
    CompleteFires(w, net, i, pos, m);
    HandleWired(w, net, i, pos, m);
    HandleQuiet(w, net, i, pos, m);
    HandleNothingSent(w, net, i, pos, m);
    var w' := Handle(w, net, i, pos, m);
    var d := Fired(CallbackOf(w.h.f.calls[i][|w.h.f.calls[i]| - 1]), m.data);
    CompleteInFlight(|w.servers|, w.h, w'.h, w.net, net, m, d);
    CompleteParts(w, w', i, m.data, d);
  }

  // ------------------------------------------------------------ direct modex

  lemma InboxAdd(x: ModexLog, k: nat, inbox: seq<Request>, i: nat)
    requires InboxOk(x, k, inbox) && (i, k) in x.wants && x.wants[(i, k)].stage == Asked
    ensures InboxOk(SetStage(x, (i, k), AtOwner), k, inbox + [Request(i, x.wants[(i, k)].proc)])
  {
    var r := Request(i, x.wants[(i, k)].proc);
    var x' := SetStage(x, (i, k), AtOwner);
    forall q ensures multiset(inbox + [r])[q] == if Waiting(x', k, q) then 1 else 0 {
      assert multiset(inbox + [r])[q] == multiset(inbox)[q] + multiset{r}[q];
      assert Waiting(x', k, q) <==> Waiting(x, k, q) || q == r;
    }
  }

  lemma RequestInFlight(n: nat, h: History, h': History, before: Net, after: Net, m: Msg)
    requires SizedLogs(n, h) && SizedLogs(n, h') && InFlight(n, h, before)
    requires Expected(n, h, m) && m.cmd == DmdxRequest && Flight(after) == Flight(before) - multiset{m}
    requires h'.b == h.b && h'.f == h.f && h'.x == SetStage(h.x, (m.src, m.dst), AtOwner)
    ensures InFlight(n, h', after)
  {
    forall x ensures Expected(n, h', x) <==> x != m && Expected(n, h, x) {
      RequestExpected(n, h, h', m, x);
    }
    RemoveExpected(n, h, h', before, after, m);
  }

  lemma RequestExpected(n: nat, h: History, h': History, m: Msg, x: Msg)
    requires SizedLogs(n, h) && SizedLogs(n, h') && Expected(n, h, m) && m.cmd == DmdxRequest
    requires h'.b == h.b && h'.f == h.f && h'.x == SetStage(h.x, (m.src, m.dst), AtOwner)
    ensures Expected(n, h', x) <==> x != m && Expected(n, h, x)
  {
  }

  /** A request reaches the library of the owner as the requester put it. */
  lemma RequestAsked(w: World, net: Net, i: nat, pos: nat, m: Msg)
    requires Inv(w) && Arrives(w, net, i, pos, m) && m.dst == i && m.cmd == DmdxRequest
    ensures pos < |w.servers[i].links| && (m.src, i) in w.h.x.wants
    ensures ReadCb(w.servers[i], pos, m)
         == Outcome(w.servers[i], [], [Request(m.src, w.h.x.wants[(m.src, i)].proc)], [])
  {
    ArrivalExpected(w, net, i, pos, m);
    assert WantSlotOk(w, m.src, i);
    DmdxRoundTrip(m.src, w.h.x.wants[(m.src, i)].proc);
  }

  lemma DmdxRequestStep(w: World, net: Net, i: nat, pos: nat, m: Msg)
    requires Inv(w) && Arrives(w, net, i, pos, m) && m.dst == i && m.cmd == DmdxRequest
    ensures pos < |w.servers[i].links| && Inv(Handle(w, net, i, pos, m))
  {
    ArrivalExpected(w, net, i, pos, m);
    RequestAsked(w, net, i, pos, m);
    HandleWired(w, net, i, pos, m);
    HandleNothingSent(w, net, i, pos, m);
    assert w.servers[i := w.servers[i]] == w.servers;
    RequestKeeps(w, net, Handle(w, net, i, pos, m), i, m);
  }

  lemma RequestKeeps(w: World, net: Net, w': World, i: nat, m: Msg)
    requires Inv(w) && SameSize(w, w') && Expected(|w.servers|, w.h, m) && m.dst == i < |w.servers| && m.cmd == DmdxRequest
    requires Routed(net) && Flight(net) == Flight(w.net) - multiset{m}
    requires w'.servers == w.servers && w'.main == w.main && w'.net == net
    requires w'.inbox == w.inbox[i := w.inbox[i] + [Request(m.src, w.h.x.wants[(m.src, i)].proc)]]
    requires w'.h == w.h.(x := SetStage(w.h.x, (m.src, i), AtOwner))
    ensures Inv(w')
  {
    assert InboxOk(w.h.x, i, w.inbox[i]);
    InboxAdd(w.h.x, i, w.inbox[i], m.src);
    RequestInFlight(|w.servers|, w.h, w'.h, w.net, net, m);
    StillFrame(w, w');
    StageModex(w, w', (m.src, i), AtOwner, i);
  }

  lemma ResponseArrived(n: nat, h: History, h': History, before: Net, after: Net, m: Msg)
    requires SizedLogs(n, h) && SizedLogs(n, h') && InFlight(n, h, before)
    requires Expected(n, h, m) && m.cmd == DmdxResponse && Flight(after) == Flight(before) - multiset{m}
    requires h'.b == h.b && h'.f == h.f && h'.x.wants == h.x.wants - {(m.dst, m.src)}
    ensures InFlight(n, h', after)
  {
    forall x ensures Expected(n, h', x) <==> x != m && Expected(n, h, x) {
      ResponseExpected(n, h, h', m, x);
    }
    RemoveExpected(n, h, h', before, after, m);
  }

  lemma ResponseExpected(n: nat, h: History, h': History, m: Msg, x: Msg)
    requires SizedLogs(n, h) && SizedLogs(n, h') && Expected(n, h, m) && m.cmd == DmdxResponse
    requires h'.b == h.b && h'.f == h.f && h'.x.wants == h.x.wants - {(m.dst, m.src)}
    ensures Expected(n, h', x) <==> x != m && Expected(n, h, x)
  {
  }

  /** A response runs the callback that the requester stored for this request. */
  lemma ResponseFires(w: World, net: Net, i: nat, pos: nat, m: Msg)
    requires Inv(w) && Arrives(w, net, i, pos, m) && m.dst == i && m.cmd == DmdxResponse
    ensures pos < |w.servers[i].links| && (i, m.src) in w.h.x.wants
    ensures w.h.x.wants[(i, m.src)].stage == Answered(m.data)
    ensures ReadCb(w.servers[i], pos, m)
         == Outcome(w.servers[i], [], [], [Fired(UserCallback(w.h.x.wants[(i, m.src)].token), m.data)])
  {
    ArrivalExpected(w, net, i, pos, m);
    assert WantSlotOk(w, i, m.src);
  }

  lemma CloseModex(w: World, w': World, i: nat, k: nat, d: ModexDone)
    requires SameSize(w, w') && ModexInv(w) && (i, k) in w.h.x.wants && w.h.x.wants[(i, k)].stage.Answered?
    requires w'.servers == w.servers && w'.h.f == w.h.f && w'.inbox == w.inbox && i < |w.servers| && DoneOk(d)
    requires w'.h.x == ModexLog(w.h.x.wants - {(i, k)}, w.h.x.dones[i := w.h.x.dones[i] + [d]])
    ensures ModexInv(w')
  {
    forall i', k' | (i', k') in w'.h.x.wants ensures WantSlotOk(w', i', k') {
      assert WantSlotOk(w, i', k');
    }
    forall k' | 0 <= k' < |w.servers| ensures InboxOk(w'.h.x, k', w'.inbox[k']) {
      assert InboxOk(w.h.x, k', w.inbox[k']);
      assert forall r :: Waiting(w'.h.x, k', r) <==> Waiting(w.h.x, k', r);
    }
  }

  lemma DmdxResponseStep(w: World, net: Net, i: nat, pos: nat, m: Msg)
    requires Inv(w) && Arrives(w, net, i, pos, m) && m.dst == i && m.cmd == DmdxResponse
    ensures pos < |w.servers[i].links| && Inv(Handle(w, net, i, pos, m))
  {
    ArrivalExpected(w, net, i, pos, m);
    ResponseFires(w, net, i, pos, m);
    HandleWired(w, net, i, pos, m);
    HandleNothingSent(w, net, i, pos, m);
    HandleQuiet(w, net, i, pos, m);
    var w' := Handle(w, net, i, pos, m);
    ResponseArrived(|w.servers|, w.h, w'.h, w.net, net, m);
    assert w'.servers == w.servers;
    StillFrame(w, w');
    var want := w.h.x.wants[(i, m.src)];
    CloseModex(w, w', i, m.src, ModexDone(m.src, want, [Fired(UserCallback(want.token), m.data)]));
  }

  // ------------------------------------------------------------- all of them

  lemma ReceiveStep(w: World, net: Net, i: nat, pos: nat, m: Msg)
    requires Inv(w) && Arrives(w, net, i, pos, m)
    ensures pos < |w.servers[i].links| && Inv(Handle(w, net, i, pos, m))
  {
    ArrivalExpected(w, net, i, pos, m);
    if m.dst != i {
      ForwardStep(w, net, pos, m);
    } else {
      match m.cmd {
        case BarrierRequest =>
          if w.servers[0].barrierCnt + 1 == |w.servers| {
            LastBarrierRequest(w, net, pos, m);
          } else {
            EarlyBarrierRequest(w, net, pos, m);
          }
        case BarrierResponse => BarrierResponseStep(w, net, i, pos, m);
        case FenceContrib =>
          if w.servers[0].contribCnt + 1 == |w.servers| {
            LastFenceContrib(w, net, pos, m);
          } else {
            EarlyFenceContrib(w, net, pos, m);
          }
        case FenceComplete => FenceCompleteStep(w, net, i, pos, m);
        case DmdxRequest => DmdxRequestStep(w, net, i, pos, m);
        case DmdxResponse => DmdxResponseStep(w, net, i, pos, m);
      }
    }
  }

  lemma HubArrives(w: World, j: nat)
    requires Inv(w) && j < |w.servers| && w.net.toHub[j] != []
    ensures Arrives(w, w.net.(toHub := w.net.toHub[j := w.net.toHub[j][1..]]), 0, Pos(|w.servers|, 0, j), w.net.toHub[j][0])
  {
    PopHub(w.net, j);
    assert FromServer(|w.servers|, j, w.net.toHub[j][0]);
  }

  lemma LeafArrives(w: World, j: nat)
    requires Inv(w) && 0 < j < |w.servers| && w.net.toLeaf[j] != []
    ensures Arrives(w, w.net.(toLeaf := w.net.toLeaf[j := w.net.toLeaf[j][1..]]), j, 0, w.net.toLeaf[j][0])
  {
    PopLeaf(w.net, j);
    var m := w.net.toLeaf[j][0];
    assert Flight(w.net)[m] == 1;
    if m.cmd == DmdxRequest {
      assert WantSlotOk(w, m.src, m.dst);
    } else if m.cmd == DmdxResponse {
      assert WantSlotOk(w, m.dst, m.src);
    }
  }

  lemma NextInv(w: World, a: Action)
    requires Inv(w) && Enabled(w, a)
    ensures Inv(Next(w, a))
  {
    match a {
      case Barrier(i) => BarrierStep(w, i);
      case Return(i) => ReturnStep(w, i);
      case Launch(i, ns) =>
        var s := w.servers[i].(table := w.servers[i].table + [ns]);
        ContributeStep(w, i, a, LaunchCall(ns, PackProcs(i, s.table)), s);
      case Fence(i, token, data) => ContributeStep(w, i, a, FenceCall(token, data), w.servers[i]);
      case Modex(i, proc, token) => ModexStep(w, i, proc, token);
      case HubReads(j) =>
        HubArrives(w, j);
        ReceiveStep(w, w.net.(toHub := w.net.toHub[j := w.net.toHub[j][1..]]), 0, Pos(|w.servers|, 0, j), w.net.toHub[j][0]);
      case LeafReads(j) =>
        LeafArrives(w, j);
        ReceiveStep(w, w.net.(toLeaf := w.net.toLeaf[j := w.net.toLeaf[j][1..]]), j, 0, w.net.toLeaf[j][0]);
      case Reply(k, t, data) => ReplyStep(w, k, t, data);
    }
  }

  /** The invariant holds throughout every run. */
  lemma {:induction false} RunInv(w: World, acts: seq<Action>)
    requires Inv(w) && ValidRun(w, acts)
    ensures Inv(Exec(w, acts))
    decreases |acts|
  {
    if acts != [] {
      NextInv(w, acts[0]);
      NextWired(w, acts[0]);
      RunInv(Next(w, acts[0]), acts[1..]);
    }
  }
}
