/** What every reachable world of the star satisfies, part by part. */
module StarInvariant {
  import opened Bytes
  import opened ProcTable
  import opened Exchange
  import opened StarServer
  import opened StarSystem
  import opened StarFlight

  function CallbackOf(c: Call): Callback {
    match c
    case LaunchCall(_, _) => ProcsCallback
    case FenceCall(token, _) => UserCallback(token)
  }

  /** The messages that the phases say are under way: each of them exactly once, and no other. */
  ghost predicate Expected(n: nat, h: History, m: Msg)
    requires SizedLogs(n, h)
  {
    match m.cmd
    case BarrierRequest => m.dst == 0 && m.src < n && m.data == [] && h.b.phase[m.src] == BRequested
    case BarrierResponse => m.src == 0 && m.dst < n && m.data == [] && h.b.phase[m.dst] == BReleased
    case FenceContrib =>
      && m.dst == 0 && m.src < n && h.f.phase[m.src] == FSent
      && h.f.calls[m.src] != [] && m.data == h.f.calls[m.src][|h.f.calls[m.src]| - 1].data
    case FenceComplete =>
      && m.src == 0 && m.dst < n && h.f.phase[m.dst] == FCompleting
      && h.f.results != [] && m.data == h.f.results[|h.f.results| - 1]
    case DmdxRequest =>
      && (m.src, m.dst) in h.x.wants && h.x.wants[(m.src, m.dst)].stage == Asked
      && m.data == h.x.wants[(m.src, m.dst)].body
    case DmdxResponse =>
      (m.dst, m.src) in h.x.wants && h.x.wants[(m.dst, m.src)].stage == Answered(m.data)
  }

  predicate WantOk(i: nat, want: Want) {
    && IsName(want.proc.name) && 0 <= want.proc.rank < INT_LIMIT
    && want.body == PackDmdx(i, want.proc)
  }

  ghost predicate InFlight(n: nat, h: History, net: Net)
    requires SizedLogs(n, h)
  {
    forall m :: Flight(net)[m] == if Expected(n, h, m) then 1 else 0
  }

  // -------------------------------------------------------------- barrier

  ghost function Counted(phase: seq<BarrierPhase>): set<nat> {
    set i: nat | i < |phase| && phase[i] == BCounted
  }

  predicate BarrierPhaseOk(b: BarrierLog, i: nat, main: Main, active: bool)
    requires i < |b.phase| == |b.entered| == |b.returned|
  {
    match b.phase[i]
    case BIdle => main != InBarrier && b.entered[i] == b.returned[i] == b.round
    case BRequested => main == InBarrier && active && b.entered[i] == b.round + 1 && b.returned[i] == b.round
    case BCounted => main == InBarrier && active && b.entered[i] == b.round + 1 && b.returned[i] == b.round
    case BReleased => main == InBarrier && active && b.entered[i] == b.round == b.returned[i] + 1
    case BWoken => main == InBarrier && !active && b.entered[i] == b.round == b.returned[i] + 1
  }

  function OwnLink(w: World, i: nat): Link
    requires Sized(w) && Wired(w) && i < |w.servers|
  {
    w.servers[i].links[OwnPos(|w.servers|, i)]
  }

  ghost predicate BarrierInv(w: World)
    requires Sized(w) && Wired(w)
  {
    && (forall i | 0 <= i < |w.servers| :: BarrierPhaseOk(w.h.b, i, w.main[i], OwnLink(w, i).active))
    && w.servers[0].barrierCnt == |Counted(w.h.b.phase)| < |w.servers|
  }

  // ---------------------------------------------------------------- fence

  ghost predicate Distinct(order: seq<nat>) {
    forall j, k | 0 <= j < k < |order| :: order[j] != order[k]
  }

  ghost predicate Permutation(n: nat, order: seq<nat>) {
    |order| == n && Below(order, n) && Distinct(order) && forall j: nat | j < n :: j in order
  }

  /** A completed round: its result is what all n servers contributed to it, in arrival order. */
  ghost predicate RoundOk(n: nat, f: FenceLog, k: nat)
    requires |f.calls| == n && k < |f.results| == |f.orders|
  {
    && Permutation(n, f.orders[k])
    && (forall i | 0 <= i < n :: k < |f.calls[i]|)
    && f.results[k] == Gather(f.orders[k], RoundData(f.calls, k))
  }

  ghost predicate FencePhaseOk(f: FenceLog, i: nat)
    requires i < |f.phase| == |f.calls| == |f.dones|
  {
    var r := |f.results|;
    && (match f.phase[i]
        case FIdle => |f.calls[i]| == |f.dones[i]| == r
        case FSent => |f.calls[i]| == r + 1 && |f.dones[i]| == r
        case FCounted => |f.calls[i]| == r + 1 && |f.dones[i]| == r
        case FCompleting => |f.calls[i]| == r == |f.dones[i]| + 1)
    && forall k | 0 <= k < |f.dones[i]| :: f.dones[i][k] == Fired(CallbackOf(f.calls[i][k]), f.results[k])
  }

  /** The round that the hub is gathering. */
  ghost predicate OrderOk(n: nat, f: FenceLog)
    requires |f.phase| == n
  {
    && |f.order| < n && Below(f.order, n) && Distinct(f.order)
    && forall i: nat | i < n :: i in f.order <==> f.phase[i] == FCounted
  }

  ghost predicate FenceLogOk(n: nat, f: FenceLog) {
    && |f.calls| == |f.dones| == |f.phase| == n
    && |f.orders| == |f.results|
    && (forall k | 0 <= k < |f.results| :: RoundOk(n, f, k))
    && (forall i | 0 <= i < n :: FencePhaseOk(f, i))
    && OrderOk(n, f)
  }

  ghost predicate HubFenceOk(f: FenceLog, hub: Server) {
    && Below(f.order, |f.calls|)
    && hub.contribCnt == |f.order|
    && hub.fenceBuf == Gather(f.order, RoundData(f.calls, |f.results|))
  }

  /** The slot of the own link belongs to the pending contribution, and a pending
      table exchange keeps the main thread blocked. */
  predicate FenceSlotOk(f: FenceLog, i: nat, main: Main, link: Link, aborted: bool)
    requires i < |f.calls| == |f.dones|
  {
    && (main == InProcs && link.active ==> aborted || !FenceIdle(f, i))
    && (!FenceIdle(f, i) ==>
          && f.calls[i] != []
          && var last := f.calls[i][|f.calls[i]| - 1];
             && link.cb == CallbackOf(last)
             && (last.LaunchCall? ==> main == InProcs && link.active)
             && (main == InProcs && link.active ==> aborted || last.LaunchCall?))
  }

  ghost predicate FenceInv(w: World)
    requires Sized(w) && Wired(w)
  {
    && FenceLogOk(|w.servers|, w.h.f)
    && HubFenceOk(w.h.f, w.servers[0])
    && forall i | 0 <= i < |w.servers| :: FenceSlotOk(w.h.f, i, w.main[i], OwnLink(w, i), w.servers[i].aborted)
  }

  // ---------------------------------------------------------------- modex

  predicate WantSlotOk(w: World, i: nat, k: nat)
    requires Sized(w) && Wired(w) && (i, k) in w.h.x.wants
  {
    var n := |w.servers|;
    && i < n && k < n
    && WantOk(i, w.h.x.wants[(i, k)])
    && w.servers[i].links[Pos(n, i, k)].cb == UserCallback(w.h.x.wants[(i, k)].token)
    && (Pos(n, i, k) == OwnPos(n, i) ==> FenceIdle(w.h.f, i))
  }

  predicate Waiting(x: ModexLog, k: nat, r: Request) {
    && r.sender >= 0 && (r.sender as nat, k) in x.wants
    && x.wants[(r.sender as nat, k)].stage == AtOwner && x.wants[(r.sender as nat, k)].proc == r.proc
  }

  ghost predicate InboxOk(x: ModexLog, k: nat, inbox: seq<Request>) {
    forall r :: multiset(inbox)[r] == if Waiting(x, k, r) then 1 else 0
  }

  predicate DoneOk(d: ModexDone) {
    d.want.stage.Answered? && d.fired == [Fired(UserCallback(d.want.token), d.want.stage.data)]
  }

  ghost predicate ModexInv(w: World)
    requires Sized(w) && Wired(w)
  {
    && (forall i, k | (i, k) in w.h.x.wants :: WantSlotOk(w, i, k))
    && (forall i, k, k' | (i, k) in w.h.x.wants && (i, k') in w.h.x.wants && i != 0 :: k == k')
    && (forall k | 0 <= k < |w.servers| :: InboxOk(w.h.x, k, w.inbox[k]))
    && forall i, y | 0 <= i < |w.servers| && 0 <= y < |w.h.x.dones[i]| :: DoneOk(w.h.x.dones[i][y])
  }

  // --------------------------------------------------------------- tables

  datatype Tables = Tables(table: seq<Nspace>, bad: bool)

  /** A server's namespace table and abort flag after its contributions and completions. */
  function TablesAfter(calls: seq<Call>, dones: seq<Fired>): Tables
    decreases |calls|
  {
    if calls == [] then Tables([], false)
    else
      var k := |calls| - 1;
      var t := TablesAfter(calls[..k], if |dones| > k then dones[..k] else dones);
      match calls[k]
      case FenceCall(_, _) => t
      case LaunchCall(ns, _) =>
        var grown := t.(table := t.table + [ns]);
        if |dones| <= k then grown
        else
          match UnpackProcs(grown.table, dones[k].data)
          case Garbled => grown.(bad := true)
          case Table(u) => grown.(table := u)
  }

  ghost predicate LaunchDataOk(i: nat, calls: seq<Call>, dones: seq<Fired>, k: nat)
    requires k < |calls|
  {
    calls[k].LaunchCall? ==>
      && k <= |dones|
      && var table := TablesAfter(calls[..k], dones[..k]).table + [calls[k].ns];
         NamesFit(table) && calls[k].data == PackProcs(i, table)
  }

  ghost predicate TableInv(w: World)
    requires Sized(w) && Wired(w)
  {
    forall i | 0 <= i < |w.servers| ::
      TablesOk(i, w.h.f.calls[i], w.h.f.dones[i], w.servers[i].table, w.servers[i].aborted)
  }

  ghost predicate TablesOk(i: nat, calls: seq<Call>, dones: seq<Fired>, table: seq<Nspace>, aborted: bool) {
    && Tables(table, aborted) == TablesAfter(calls, dones)
    && forall k | 0 <= k < |calls| :: LaunchDataOk(i, calls, dones, k)
  }

  /** What does not speak of the messages under way. */
  ghost predicate LocalInv(w: World) {
    && Sized(w) && Wired(w)
    && BarrierInv(w)
    && FenceInv(w)
    && ModexInv(w)
    && TableInv(w)
  }

  ghost predicate Inv(w: World) {
    && LocalInv(w)
    && |w.servers| < INT_LIMIT
    && Routed(w.net)
    && InFlight(|w.servers|, w.h, w.net)
  }

  lemma InitInv(n: nat)
    requires 0 < n < INT_LIMIT
    ensures Inv(Init(n))
  {
    var w := Init(n);
    BagOfEmpty(w.net.toHub);
    BagOfEmpty(w.net.toLeaf);
    assert Counted(w.h.b.phase) == {};
  }
}
