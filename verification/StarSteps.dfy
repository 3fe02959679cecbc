/** Every step of the star preserves the invariant. */
module StarSteps {
  import opened Bytes
  import opened ProcTable
  import opened Exchange
  import opened StarServer
  import opened StarSystem
  import opened StarFlight
  import opened StarInvariant

  lemma IsWired(w: World, i: nat)
    requires Sized(w) && Wired(w) && i < |w.servers|
    ensures ServerWired(|w.servers|, i, w.servers[i])
  {
  }

  /** Posting one message from server `i`. */
  lemma PostOne(w: World, i: nat, s: Server, m: Msg)
    requires Sized(w) && Wired(w) && Routed(w.net) && i < |w.servers|
    requires SameWiring(w.servers[i], s) && m.src == i && m.dst < |w.servers|
    ensures Routed(Post(w.net, i, SendTo(s, m)))
    ensures Flight(Post(w.net, i, SendTo(s, m))) == Flight(w.net) + multiset{m}
  {
    IsWired(w, i);
    SendToGood(|w.servers|, i, s, m);
    PostFlight(w.net, i, SendTo(s, m));
    assert Msgs(SendTo(s, m)) == [m];
  }

  // ------------------------------------------------------------- frames

  predicate SameSize(w: World, w': World) {
    Sized(w) && Sized(w') && Wired(w) && Wired(w') && |w.servers| == |w'.servers|
  }

  lemma FenceFrame(w: World, w': World)
    requires SameSize(w, w') && FenceInv(w) && w'.h.f == w.h.f
    requires w'.servers[0].contribCnt == w.servers[0].contribCnt && w'.servers[0].fenceBuf == w.servers[0].fenceBuf
    requires forall i | 0 <= i < |w.servers| ::
               FenceSlotOk(w'.h.f, i, w'.main[i], OwnLink(w', i), w'.servers[i].aborted)
    ensures FenceInv(w')
  {
  }

  lemma TableFrame(w: World, w': World)
    requires SameSize(w, w') && TableInv(w)
    requires w'.h.f.calls == w.h.f.calls && w'.h.f.dones == w.h.f.dones
    requires forall i | 0 <= i < |w.servers| ::
               w.servers[i].table == w'.servers[i].table && w.servers[i].aborted == w'.servers[i].aborted
    ensures TableInv(w')
  {
  }

  lemma ModexFrame(w: World, w': World)
    requires SameSize(w, w') && ModexInv(w) && w'.h.x == w.h.x && w'.inbox == w.inbox
    requires forall i, k | (i, k) in w.h.x.wants :: WantSlotOk(w', i, k)
    ensures ModexInv(w')
  {
  }

  lemma BarrierFrame(w: World, w': World)
    requires SameSize(w, w') && BarrierInv(w) && w'.h.b == w.h.b
    requires w'.servers[0].barrierCnt == w.servers[0].barrierCnt
    requires forall i | 0 <= i < |w.servers| :: BarrierPhaseOk(w.h.b, i, w'.main[i], OwnLink(w', i).active)
    ensures BarrierInv(w')
  {
  }

  /** Only the modex log, the inboxes and the pipes may change. */
  lemma StillFrame(w: World, w': World)
    requires LocalInv(w) && SameSize(w, w') && w'.servers == w.servers && w'.main == w.main
    requires w'.h.b == w.h.b && w'.h.f == w.h.f
    ensures BarrierInv(w') && FenceInv(w') && TableInv(w')
  {
    BarrierFrame(w, w');
    FenceFrame(w, w');
    TableFrame(w, w');
  }

  // --------------------------------------------------- calls of the servers

  lemma BarrierInFlight(n: nat, h: History, h': History, before: Net, after: Net, i: nat)
    requires SizedLogs(n, h) && SizedLogs(n, h') && i < n
    requires h'.f == h.f && h'.x == h.x && h'.b.phase == h.b.phase[i := BRequested] && h.b.phase[i] == BIdle
    requires InFlight(n, h, before)
    requires Flight(after) == Flight(before) + multiset{Msg(0, i, BarrierRequest, [])}
    ensures InFlight(n, h', after)
  {
    forall m ensures Flight(after)[m] == if Expected(n, h', m) then 1 else 0 {
      assert Expected(n, h', m) <==> m == Msg(0, i, BarrierRequest, []) || Expected(n, h, m);
    }
  }

  /** Main threads and locks may change where the fence slots allow it; nothing else does. */
  lemma QuietFrame(w: World, w': World)
    requires LocalInv(w) && SameSize(w, w') && w'.inbox == w.inbox && w'.h.f == w.h.f && w'.h.x == w.h.x
    requires forall i | 0 <= i < |w.servers| :: SameButLocks(w.servers[i], w'.servers[i])
    requires forall i | 0 <= i < |w.servers| ::
               FenceSlotOk(w.h.f, i, w'.main[i], OwnLink(w', i), w'.servers[i].aborted)
    ensures FenceInv(w') && ModexInv(w') && TableInv(w')
  {
    FenceFrame(w, w');
    forall i, k | (i, k) in w.h.x.wants ensures WantSlotOk(w', i, k) {
      assert WantSlotOk(w, i, k);
    }
    ModexFrame(w, w');
    TableFrame(w, w');
  }

  predicate SameButLocks(s: Server, s': Server) {
    && s'.contribCnt == s.contribCnt && s'.fenceBuf == s.fenceBuf && s'.table == s.table && s'.aborted == s.aborted
    && |s'.links| == |s.links| && forall p | 0 <= p < |s.links| :: s'.links[p].cb == s.links[p].cb
  }

  lemma BarrierEnters(w: World, w': World, i: nat)
    requires SameSize(w, w') && BarrierInv(w) && i < |w.servers| && w.main[i] == Running
    requires w'.servers == w.servers[i := SetLink(w.servers[i], OwnPos(|w.servers|, i), OwnLink(w, i).(active := true))]
    requires w'.main == w.main[i := InBarrier]
    requires w'.h.b == w.h.b.(entered := w.h.b.entered[i := w.h.b.entered[i] + 1], phase := w.h.b.phase[i := BRequested])
    ensures w.h.b.phase[i] == BIdle && BarrierInv(w')
  {
    assert BarrierPhaseOk(w.h.b, i, w.main[i], OwnLink(w, i).active);
    assert Counted(w'.h.b.phase) == Counted(w.h.b.phase);
    forall j | 0 <= j < |w.servers| ensures BarrierPhaseOk(w'.h.b, j, w'.main[j], OwnLink(w', j).active) {
      assert BarrierPhaseOk(w.h.b, j, w.main[j], OwnLink(w, j).active);
    }
  }

  lemma BarrierParts(w: World, w': World, i: nat)
    requires LocalInv(w) && Enabled(w, Barrier(i)) && SameSize(w, w')
    requires w'.servers == w.servers[i := SetLink(w.servers[i], OwnPos(|w.servers|, i), OwnLink(w, i).(active := true))]
    requires w'.main == w.main[i := InBarrier] && w'.inbox == w.inbox && w'.h.f == w.h.f && w'.h.x == w.h.x
    requires w'.h.b == w.h.b.(entered := w.h.b.entered[i := w.h.b.entered[i] + 1], phase := w.h.b.phase[i := BRequested])
    ensures w.h.b.phase[i] == BIdle
    ensures BarrierInv(w') && FenceInv(w') && ModexInv(w') && TableInv(w')
  {
    BarrierEnters(w, w', i);
    forall j | 0 <= j < |w.servers| ensures FenceSlotOk(w.h.f, j, w'.main[j], OwnLink(w', j), w'.servers[j].aborted) {
      assert FenceSlotOk(w.h.f, j, w.main[j], OwnLink(w, j), w.servers[j].aborted);
    }
    QuietFrame(w, w');
  }

  lemma BarrierStep(w: World, i: nat)
    requires Inv(w) && Enabled(w, Barrier(i))
    ensures Inv(Next(w, Barrier(i)))
  {
    var w' := Next(w, Barrier(i));
    NextWired(w, Barrier(i));
    PostOne(w, i, w'.servers[i], Msg(0, i, BarrierRequest, []));
    BarrierParts(w, w', i);
    BarrierInFlight(|w.servers|, w.h, w'.h, w.net, w'.net, i);
  }

  lemma ReturnInFlight(n: nat, h: History, h': History, net: Net, i: nat)
    requires SizedLogs(n, h) && SizedLogs(n, h') && i < n
    requires h'.f == h.f && h'.x == h.x && h'.b.phase == h.b.phase[i := BIdle] && h.b.phase[i] == BWoken
    requires InFlight(n, h, net)
    ensures InFlight(n, h', net)
  {
    forall m ensures Flight(net)[m] == if Expected(n, h', m) then 1 else 0 {
      assert Expected(n, h', m) <==> Expected(n, h, m);
    }
  }

  lemma BarrierLeft(w: World, w': World, i: nat)
    requires SameSize(w, w') && BarrierInv(w) && i < |w.servers| && w.main[i] != Running && !OwnLink(w, i).active
    requires w'.servers == w.servers && w'.main == w.main[i := Running]
    requires w'.h.b == if w.main[i] == InBarrier
                       then w.h.b.(returned := w.h.b.returned[i := w.h.b.returned[i] + 1], phase := w.h.b.phase[i := BIdle])
                       else w.h.b
    ensures w.main[i] == InBarrier ==> w.h.b.phase[i] == BWoken
    ensures BarrierInv(w')
  {
    assert BarrierPhaseOk(w.h.b, i, w.main[i], OwnLink(w, i).active);
    assert Counted(w'.h.b.phase) == Counted(w.h.b.phase);
    forall j | 0 <= j < |w.servers| ensures BarrierPhaseOk(w'.h.b, j, w'.main[j], OwnLink(w', j).active) {
      assert BarrierPhaseOk(w.h.b, j, w.main[j], OwnLink(w, j).active);
    }
  }

  lemma ReturnParts(w: World, w': World, i: nat)
    requires LocalInv(w) && SameSize(w, w') && Enabled(w, Return(i))
    requires w'.servers == w.servers && w'.main == w.main[i := Running] && w'.inbox == w.inbox
    requires w'.h.f == w.h.f && w'.h.x == w.h.x
    requires w'.h.b == if w.main[i] == InBarrier
                       then w.h.b.(returned := w.h.b.returned[i := w.h.b.returned[i] + 1], phase := w.h.b.phase[i := BIdle])
                       else w.h.b
    ensures w.main[i] == InBarrier ==> w.h.b.phase[i] == BWoken
    ensures BarrierInv(w') && FenceInv(w') && ModexInv(w') && TableInv(w')
  {
    BarrierLeft(w, w', i);
    forall j | 0 <= j < |w.servers| ensures FenceSlotOk(w.h.f, j, w'.main[j], OwnLink(w', j), w'.servers[j].aborted) {
      assert FenceSlotOk(w.h.f, j, w.main[j], OwnLink(w, j), w.servers[j].aborted);
    }
    QuietFrame(w, w');
  }

  lemma ReturnStep(w: World, i: nat)
    requires Inv(w) && Enabled(w, Return(i))
    ensures Inv(Next(w, Return(i)))
  {
    var w' := Next(w, Return(i));
    NextWired(w, Return(i));
    ReturnParts(w, w', i);
    if w.main[i] == InBarrier {
      ReturnInFlight(|w.servers|, w.h, w'.h, w.net, i);
    }
  }

  // ---------------------------------------------------------- contributions

  lemma {:induction false} GatherSame(order: seq<nat>, d: seq<seq<byte>>, d': seq<seq<byte>>)
    requires Below(order, |d|) && |d| == |d'|
    requires forall k | 0 <= k < |order| :: d[order[k]] == d'[order[k]]
    ensures Gather(order, d) == Gather(order, d')
  {
    if order != [] {
      GatherSame(order[1..], d, d');
    }
  }

  function AddCall(f: FenceLog, i: nat, call: Call): FenceLog
    requires i < |f.calls| == |f.phase|
  {
    f.(calls := f.calls[i := f.calls[i] + [call]], phase := f.phase[i := FSent])
  }

  lemma AddCallLog(n: nat, f: FenceLog, i: nat, call: Call)
    requires FenceLogOk(n, f) && i < n && FenceIdle(f, i)
    ensures f.phase[i] == FIdle && FenceLogOk(n, AddCall(f, i, call))
    ensures Gather(f.order, RoundData(AddCall(f, i, call).calls, |f.results|)) == Gather(f.order, RoundData(f.calls, |f.results|))
  {
    var f' := AddCall(f, i, call);
    assert FencePhaseOk(f, i);
    forall k | 0 <= k < |f.results| ensures RoundOk(n, f', k) {
      assert RoundOk(n, f, k);
      assert RoundData(f'.calls, k) == RoundData(f.calls, k);
    }
    forall j | 0 <= j < n ensures FencePhaseOk(f', j) {
      assert FencePhaseOk(f, j);
    }
    assert OrderOk(n, f') by {
      assert forall j: nat | j < n :: f'.phase[j] == FCounted <==> f.phase[j] == FCounted;
    }
    forall k | 0 <= k < |f.order|
      ensures RoundData(f'.calls, |f.results|)[f.order[k]] == RoundData(f.calls, |f.results|)[f.order[k]]
    {
      assert f.order[k] in f.order;
    }
    GatherSame(f.order, RoundData(f'.calls, |f.results|), RoundData(f.calls, |f.results|));
  }

  lemma ContributeExpected(n: nat, h: History, h': History, i: nat, call: Call, m: Msg)
    requires SizedLogs(n, h) && SizedLogs(n, h') && i < n
    requires h'.b == h.b && h'.x == h.x && h'.f == AddCall(h.f, i, call) && h.f.phase[i] == FIdle
    ensures Expected(n, h', m) <==> m == Msg(0, i, FenceContrib, call.data) || Expected(n, h, m)
    ensures !Expected(n, h, Msg(0, i, FenceContrib, call.data))
  {
  }

  lemma ContributeInFlight(n: nat, h: History, h': History, before: Net, after: Net, i: nat, call: Call)
    requires SizedLogs(n, h) && SizedLogs(n, h') && i < n
    requires h'.b == h.b && h'.x == h.x && h'.f == AddCall(h.f, i, call) && h.f.phase[i] == FIdle
    requires InFlight(n, h, before)
    requires Flight(after) == Flight(before) + multiset{Msg(0, i, FenceContrib, call.data)}
    ensures InFlight(n, h', after)
  {
    forall m ensures Flight(after)[m] == if Expected(n, h', m) then 1 else 0 {
      ContributeExpected(n, h, h', i, call, m);
    }
  }

  lemma AddCallTables(i: nat, calls: seq<Call>, dones: seq<Fired>, t: Tables, call: Call)
    requires |calls| == |dones| && TablesOk(i, calls, dones, t.table, t.bad)
    requires call.LaunchCall? ==> NamesFit(t.table + [call.ns]) && call.data == PackProcs(i, t.table + [call.ns])
    ensures TablesOk(i, calls + [call], dones, if call.LaunchCall? then t.table + [call.ns] else t.table, t.bad)
  {
    var calls' := calls + [call];
    assert calls'[..|calls|] == calls;
    assert dones[..|calls|] == dones;
    forall k | 0 <= k < |calls'| ensures LaunchDataOk(i, calls', dones, k) {
      if k < |calls| {
        assert LaunchDataOk(i, calls, dones, k);
        assert calls'[..k] == calls[..k];
      }
    }
  }

  lemma ContributeParts(w: World, w': World, i: nat, s: Server, call: Call)
    requires LocalInv(w) && SameSize(w, w') && i < |w.servers|
    requires SlotFree(|w.servers|, w.h, i, OwnPos(|w.servers|, i))
    requires call.LaunchCall? ==> w.main[i] == Running
    requires call.LaunchCall? ==> NamesFit(w.servers[i].table + [call.ns])
    requires call.LaunchCall? ==> call.data == PackProcs(i, w.servers[i].table + [call.ns])
    requires w'.servers == w.servers[i := s]
    requires var own := OwnLink(w, i);
             s == SetLink(w.servers[i], OwnPos(|w.servers|, i),
                          own.(cb := CallbackOf(call), active := call.LaunchCall? || own.active))
                  .(table := if call.LaunchCall? then w.servers[i].table + [call.ns] else w.servers[i].table)
    requires w'.main == if call.LaunchCall? then w.main[i := InProcs] else w.main
    requires w'.inbox == w.inbox && w'.h == w.h.(f := AddCall(w.h.f, i, call))
    ensures w.h.f.phase[i] == FIdle
    ensures BarrierInv(w') && FenceInv(w') && ModexInv(w') && TableInv(w')
  {
    ContributeFence(w, w', i, call);
    forall j | 0 <= j < |w.servers| ensures BarrierPhaseOk(w.h.b, j, w'.main[j], OwnLink(w', j).active) {
      assert BarrierPhaseOk(w.h.b, j, w.main[j], OwnLink(w, j).active);
    }
    BarrierFrame(w, w');
    ContributeModex(w, w', i, call);
    ContributeTables(w, w', i, call);
  }

  lemma ContributeModex(w: World, w': World, i: nat, call: Call)
    requires SameSize(w, w') && ModexInv(w) && i < |w.servers| && SlotFree(|w.servers|, w.h, i, OwnPos(|w.servers|, i))
    requires w'.h.x == w.h.x && w'.inbox == w.inbox && w'.h.f == AddCall(w.h.f, i, call)
    requires forall j | 0 <= j < |w.servers| && j != i :: w'.servers[j] == w.servers[j]
    requires forall p | 0 <= p < |w.servers[i].links| && p != OwnPos(|w.servers|, i) :: w'.servers[i].links[p] == w.servers[i].links[p]
    ensures ModexInv(w')
  {
    forall j, k | (j, k) in w.h.x.wants ensures WantSlotOk(w', j, k) {
      assert WantSlotOk(w, j, k);
    }
    ModexFrame(w, w');
  }

  lemma ContributeFence(w: World, w': World, i: nat, call: Call)
    requires SameSize(w, w') && i < |w.servers| && FenceInv(w) && FenceIdle(w.h.f, i)
    requires w'.h.f == AddCall(w.h.f, i, call)
    requires forall j | 0 <= j < |w.servers| && j != i ::
               w'.main[j] == w.main[j] && OwnLink(w', j) == OwnLink(w, j) && w'.servers[j].aborted == w.servers[j].aborted
    requires w'.servers[0].contribCnt == w.servers[0].contribCnt && w'.servers[0].fenceBuf == w.servers[0].fenceBuf
    requires OwnLink(w', i).cb == CallbackOf(call) && w'.servers[i].aborted == w.servers[i].aborted
    requires call.LaunchCall? ==> w'.main[i] == InProcs && OwnLink(w', i).active
    requires call.FenceCall? ==> w'.main[i] == w.main[i] && OwnLink(w', i).active == OwnLink(w, i).active
    ensures w.h.f.phase[i] == FIdle && FenceInv(w')
  {
    AddCallLog(|w.servers|, w.h.f, i, call);
    forall j | 0 <= j < |w.servers| ensures FenceSlotOk(w'.h.f, j, w'.main[j], OwnLink(w', j), w'.servers[j].aborted) {
      assert FenceSlotOk(w.h.f, j, w.main[j], OwnLink(w, j), w.servers[j].aborted);
    }
  }

  lemma ContributeTables(w: World, w': World, i: nat, call: Call)
    requires SameSize(w, w') && i < |w.servers| && TableInv(w) && FenceIdle(w.h.f, i)
    requires w'.h.f == AddCall(w.h.f, i, call)
    requires forall j | 0 <= j < |w.servers| && j != i ::
               w'.servers[j].table == w.servers[j].table && w'.servers[j].aborted == w.servers[j].aborted
    requires var t := w.servers[i].table;
             && w'.servers[i].table == (if call.LaunchCall? then t + [call.ns] else t)
             && w'.servers[i].aborted == w.servers[i].aborted
             && (call.LaunchCall? ==> NamesFit(t + [call.ns]) && call.data == PackProcs(i, t + [call.ns]))
    ensures TableInv(w')
  {
    AddCallTables(i, w.h.f.calls[i], w.h.f.dones[i], Tables(w.servers[i].table, w.servers[i].aborted), call);
  }

  lemma ContributeStep(w: World, i: nat, a: Action, call: Call, s: Server)
    requires Inv(w) && Enabled(w, a)
    requires match a
             case Launch(i', ns) =>
               i' == i && s == w.servers[i].(table := w.servers[i].table + [ns]) && call == LaunchCall(ns, PackProcs(i, s.table))
             case Fence(i', token, data) => i' == i && s == w.servers[i] && call == FenceCall(token, data)
             case _ => false
    ensures Inv(Next(w, a))
  {
    var w' := Next(w, a);
    NextWired(w, a);
    assert w' == Contribute(w, i, s, CallbackOf(call), call, call.LaunchCall?);
    PostOne(w, i, w'.servers[i], Msg(0, i, FenceContrib, call.data));
    ContributeParts(w, w', i, w'.servers[i], call);
    ContributeInFlight(|w.servers|, w.h, w'.h, w.net, w'.net, i, call);
  }

  // ------------------------------------------------------------ direct modex

  lemma ModexExpected(n: nat, h: History, h': History, i: nat, k: nat, want: Want, m: Msg)
    requires SizedLogs(n, h) && SizedLogs(n, h') && (i, k) !in h.x.wants && want.stage == Asked
    requires h'.b == h.b && h'.f == h.f && h'.x.wants == h.x.wants[(i, k) := want]
    ensures Expected(n, h', m) <==> m == Msg(k, i, DmdxRequest, want.body) || Expected(n, h, m)
    ensures !Expected(n, h, Msg(k, i, DmdxRequest, want.body))
  {
  }

  lemma ModexInFlight(n: nat, h: History, h': History, before: Net, after: Net, i: nat, k: nat, want: Want)
    requires SizedLogs(n, h) && SizedLogs(n, h') && (i, k) !in h.x.wants
    requires want.stage == Asked
    requires h'.b == h.b && h'.f == h.f && h'.x.wants == h.x.wants[(i, k) := want]
    requires InFlight(n, h, before)
    requires Flight(after) == Flight(before) + multiset{Msg(k, i, DmdxRequest, want.body)}
    ensures InFlight(n, h', after)
  {
    forall m ensures Flight(after)[m] == if Expected(n, h', m) then 1 else 0 {
      ModexExpected(n, h, h', i, k, want, m);
    }
  }

  lemma ModexParts(w: World, w': World, i: nat, k: nat, want: Want)
    requires LocalInv(w) && SameSize(w, w') && i < |w.servers| && k < |w.servers|
    requires SlotFree(|w.servers|, w.h, i, Pos(|w.servers|, i, k)) && want.stage == Asked && WantOk(i, want)
    requires var p := Pos(|w.servers|, i, k);
             w'.servers == w.servers[i := SetLink(w.servers[i], p, w.servers[i].links[p].(cb := UserCallback(want.token)))]
    requires w'.main == w.main && w'.inbox == w.inbox
    requires w'.h == w.h.(x := w.h.x.(wants := w.h.x.wants[(i, k) := want]))
    ensures BarrierInv(w') && FenceInv(w') && ModexInv(w') && TableInv(w')
  {
    forall j | 0 <= j < |w.servers|
      ensures BarrierPhaseOk(w.h.b, j, w'.main[j], OwnLink(w', j).active)
      ensures FenceSlotOk(w'.h.f, j, w'.main[j], OwnLink(w', j), w'.servers[j].aborted)
    {
      assert BarrierPhaseOk(w.h.b, j, w.main[j], OwnLink(w, j).active);
      assert FenceSlotOk(w.h.f, j, w.main[j], OwnLink(w, j), w.servers[j].aborted);
    }
    BarrierFrame(w, w');
    FenceFrame(w, w');
    TableFrame(w, w');
    OpenModex(w, w', i, k, want);
  }

  lemma OpenModex(w: World, w': World, i: nat, k: nat, want: Want)
    requires SameSize(w, w') && ModexInv(w) && i < |w.servers| && k < |w.servers|
    requires SlotFree(|w.servers|, w.h, i, Pos(|w.servers|, i, k)) && want.stage == Asked && WantOk(i, want)
    requires var p := Pos(|w.servers|, i, k);
             w'.servers == w.servers[i := SetLink(w.servers[i], p, w.servers[i].links[p].(cb := UserCallback(want.token)))]
    requires w'.inbox == w.inbox && w'.h.f == w.h.f && w'.h.x == w.h.x.(wants := w.h.x.wants[(i, k) := want])
    ensures ModexInv(w')
  {
    forall i', k' | (i', k') in w'.h.x.wants ensures WantSlotOk(w', i', k') {
      assert (i', k') != (i, k) ==> WantSlotOk(w, i', k');
    }
    forall k' | 0 <= k' < |w.servers| ensures InboxOk(w'.h.x, k', w'.inbox[k']) {
      assert InboxOk(w.h.x, k', w.inbox[k']);
      assert forall r :: Waiting(w'.h.x, k', r) <==> Waiting(w.h.x, k', r);
    }
  }

  lemma ModexStep(w: World, i: nat, proc: Proc, token: nat)
    requires Inv(w) && Enabled(w, Modex(i, proc, token))
    ensures Inv(Next(w, Modex(i, proc, token)))
  {
    var a := Modex(i, proc, token);
    var found := FindId(w.servers[i].table, proc.name, proc.rank);
    if found.Owner? && found.id >= 0 {
      var k := found.id;
      var w' := Next(w, a);
      NextWired(w, a);
      var want := Want(proc, token, PackDmdx(i, proc), Asked);
      PostOne(w, i, w'.servers[i], Msg(k, i, DmdxRequest, want.body));
      ModexParts(w, w', i, k, want);
      ModexInFlight(|w.servers|, w.h, w'.h, w.net, w'.net, i, k, want);
    }
  }

  lemma ReplyExpected(n: nat, h: History, h': History, i: nat, k: nat, data: seq<byte>, m: Msg)
    requires SizedLogs(n, h) && SizedLogs(n, h') && (i, k) in h.x.wants && h.x.wants[(i, k)].stage == AtOwner
    requires h'.b == h.b && h'.f == h.f && h'.x.wants == h.x.wants[(i, k) := h.x.wants[(i, k)].(stage := Answered(data))]
    ensures Expected(n, h', m) <==> m == Msg(i, k, DmdxResponse, data) || Expected(n, h, m)
    ensures !Expected(n, h, Msg(i, k, DmdxResponse, data))
  {
  }

  lemma ReplyInFlight(n: nat, h: History, h': History, before: Net, after: Net, i: nat, k: nat, data: seq<byte>)
    requires SizedLogs(n, h) && SizedLogs(n, h') && (i, k) in h.x.wants && h.x.wants[(i, k)].stage == AtOwner
    requires h'.b == h.b && h'.f == h.f && h'.x.wants == h.x.wants[(i, k) := h.x.wants[(i, k)].(stage := Answered(data))]
    requires InFlight(n, h, before)
    requires Flight(after) == Flight(before) + multiset{Msg(i, k, DmdxResponse, data)}
    ensures InFlight(n, h', after)
  {
    forall m ensures Flight(after)[m] == if Expected(n, h', m) then 1 else 0 {
      ReplyExpected(n, h, h', i, k, data, m);
    }
  }

  lemma InboxTake(x: ModexLog, k: nat, inbox: seq<Request>, t: nat, stage: Stage)
    requires InboxOk(x, k, inbox) && t < |inbox| && stage != AtOwner
    ensures Waiting(x, k, inbox[t])
    ensures InboxOk(SetStage(x, (inbox[t].sender as nat, k), stage), k, inbox[..t] + inbox[t + 1..])
  {
    var r := inbox[t];
    assert r in multiset(inbox);
    assert Waiting(x, k, r);
    var x' := SetStage(x, (r.sender as nat, k), stage);
    assert inbox == inbox[..t] + [r] + inbox[t + 1..];
    forall q ensures multiset(inbox[..t] + inbox[t + 1..])[q] == if Waiting(x', k, q) then 1 else 0 {
      assert multiset(inbox)[q] == multiset(inbox[..t] + inbox[t + 1..])[q] + multiset{r}[q];
      assert Waiting(x', k, q) <==> Waiting(x, k, q) && q != r;
    }
  }

  lemma ReplyStep(w: World, k: nat, t: nat, data: seq<byte>)
    requires Inv(w) && Enabled(w, Reply(k, t, data))
    ensures Inv(Next(w, Reply(k, t, data)))
  {
    var a := Reply(k, t, data);
    var w' := Next(w, a);
    NextWired(w, a);
    var r := w.inbox[k][t];
    assert InboxOk(w.h.x, k, w.inbox[k]);
    InboxTake(w.h.x, k, w.inbox[k], t, Answered(data));
    var i := r.sender as nat;
    assert WantSlotOk(w, i, k);
    PostOne(w, k, w.servers[k], Msg(i, k, DmdxResponse, data));
    ReplyInFlight(|w.servers|, w.h, w'.h, w.net, w'.net, i, k, data);
    StillFrame(w, w');
    StageModex(w, w', (i, k), Answered(data), k);
  }

  /** Moving one open request on to its next stage. */
  lemma StageModex(w: World, w': World, key: (nat, nat), stage: Stage, k: nat)
    requires SameSize(w, w') && ModexInv(w) && key in w.h.x.wants && w'.h.x == SetStage(w.h.x, key, stage)
    requires w'.servers == w.servers && w'.h.f == w.h.f && k < |w.servers| && key.1 == k
    requires w'.inbox == w.inbox[k := w'.inbox[k]] && InboxOk(w'.h.x, k, w'.inbox[k])
    ensures ModexInv(w')
  {
    forall i', k' | (i', k') in w'.h.x.wants ensures WantSlotOk(w', i', k') {
      assert WantSlotOk(w, i', k');
    }
    forall k' | 0 <= k' < |w.servers| ensures InboxOk(w'.h.x, k', w'.inbox[k']) {
      if k' != k {
        assert InboxOk(w.h.x, k', w.inbox[k']);
        assert forall r :: Waiting(w'.h.x, k', r) <==> Waiting(w.h.x, k', r);
      }
    }
  }
}
