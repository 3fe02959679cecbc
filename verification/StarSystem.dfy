/** n servers in a star (unit/test_server.c): pipes, library requests, blocked main
    threads, and the steps by which the whole system moves. */
module StarSystem {
  import opened Bytes
  import opened ProcTable
  import opened Exchange
  import opened StarServer

  /** toHub[i] carries what server i writes to the hub (toHub[0] is the hub's own
      pipe); toLeaf[i] carries what the hub writes to server i. */
  datatype Net = Net(toHub: seq<seq<Msg>>, toLeaf: seq<seq<Msg>>)

  /** Where the main thread of a process stands. */
  datatype Main = Running | InBarrier | InProcs

  datatype Call =
    | LaunchCall(ns: Nspace, data: seq<byte>)
    | FenceCall(token: nat, data: seq<byte>)

  datatype BarrierPhase = BIdle | BRequested | BCounted | BReleased | BWoken
  datatype FencePhase = FIdle | FSent | FCounted | FCompleting

  datatype Stage = Asked | AtOwner | Answered(data: seq<byte>)
  datatype Want = Want(proc: Proc, token: nat, body: seq<byte>, stage: Stage)
  datatype ModexDone = ModexDone(owner: nat, want: Want, fired: seq<Fired>)

  /** Barrier calls entered and left per server, the phase of each server, and the
      number of barriers the hub has completed. */
  datatype BarrierLog = BarrierLog(entered: seq<nat>, returned: seq<nat>, phase: seq<BarrierPhase>, round: nat)

  /** Contributions made and completions received per server, the phase of each
      server, the arrival order of the current round at the hub, and the arrival
      orders and results of the completed rounds. */
  datatype FenceLog = FenceLog(calls: seq<seq<Call>>, dones: seq<seq<Fired>>, phase: seq<FencePhase>,
                               order: seq<nat>, orders: seq<seq<nat>>, results: seq<seq<byte>>)

  /** Modex requests still open, keyed by (requester, owner), and those completed per requester. */
  datatype ModexLog = ModexLog(wants: map<(nat, nat), Want>, dones: seq<seq<ModexDone>>)

  /** What an observer of the whole system notes down. */
  datatype History = History(b: BarrierLog, f: FenceLog, x: ModexLog)

  datatype World = World(servers: seq<Server>, net: Net, inbox: seq<seq<Request>>, main: seq<Main>, h: History)

  datatype Action =
    | Barrier(i: nat)                          // server_barrier up to its wait
    | Launch(i: nat, ns: Nspace)               // server_launch_clients up to the wait of server_send_procs
    | Return(i: nat)                           // the wait ends
    | Fence(i: nat, token: nat, data: seq<byte>)   // server_fence_contrib
    | Modex(i: nat, proc: Proc, token: nat)    // server_dmdx_get
    | HubReads(j: nat)                         // server_read_cb at the hub, link to j
    | LeafReads(j: nat)                        // server_read_cb at leaf j
    | Reply(k: nat, t: nat, data: seq<byte>)   // the library answers request t of server k

  // ------------------------------------------------------------- topology

  /** Position in server_list of the link between `i` and `k`: the hub's list is
      built from n-1 down to 0, a leaf's has a single entry. */
  function Pos(n: nat, i: nat, k: nat): nat
    requires i < n && k < n
  {
    if i == 0 then n - 1 - k else 0
  }

  function OwnPos(n: nat, i: nat): nat
    requires i < n
  {
    Pos(n, i, 0)
  }

  function InitServer(n: nat, i: nat): Server
    requires i < n
  {
    var links := if i == 0 then seq(n, p requires 0 <= p < n => Link(n - 1 - p, NoCallback, true))
                 else [Link(0, NoCallback, true)];
    Server(i, links, 0, 0, [], [], false)
  }

  function Init(n: nat): (w: World)
    requires n > 0
    ensures Sized(w) && Wired(w)
  {
    World(seq(n, i requires 0 <= i < n => InitServer(n, i)),
          Net(seq(n, _ => []), seq(n, _ => [])),
          seq(n, _ => []),
          seq(n, _ => Running),
          History(BarrierLog(seq(n, _ => 0), seq(n, _ => 0), seq(n, _ => BIdle), 0),
                  FenceLog(seq(n, _ => []), seq(n, _ => []), seq(n, _ => FIdle), [], [], []),
                  ModexLog(map[], seq(n, _ => []))))
  }

  predicate Sized(w: World) {
    var n := |w.servers|;
    && n > 0
    && |w.net.toHub| == |w.net.toLeaf| == |w.inbox| == |w.main| == n
    && SizedLogs(n, w.h)
  }

  predicate SizedLogs(n: nat, h: History) {
    && |h.b.entered| == |h.b.returned| == |h.b.phase| == n
    && |h.f.calls| == |h.f.dones| == |h.f.phase| == n
    && |h.x.dones| == n
  }

  /** Identities and link lists never change after server_init. */
  predicate Wired(w: World)
    requires Sized(w)
  {
    var n := |w.servers|;
    forall i | 0 <= i < n ::
      && w.servers[i].id == i
      && |w.servers[i].links| == (if i == 0 then n else 1)
      && forall p | 0 <= p < |w.servers[i].links| ::
           w.servers[i].links[p].idx == if i == 0 then n - 1 - p else 0
  }

  // ---------------------------------------------------------------- pipes

  function Put(net: Net, i: nat, s: Send): Net {
    if i == 0 && s.link != 0 then
      if s.link < |net.toLeaf| then net.(toLeaf := net.toLeaf[s.link := net.toLeaf[s.link] + [s.msg]]) else net
    else
      if i < |net.toHub| then net.(toHub := net.toHub[i := net.toHub[i] + [s.msg]]) else net
  }

  function Post(net: Net, i: nat, sends: seq<Send>): (r: Net)
    ensures |r.toHub| == |net.toHub| && |r.toLeaf| == |net.toLeaf|
    decreases |sends|
  {
    if sends == [] then net else Post(Put(net, i, sends[0]), i, sends[1..])
  }

  // ----------------------------------------------------- callers' discipline

  predicate FenceIdle(f: FenceLog, i: nat)
    requires i < |f.calls| && i < |f.dones|
  {
    |f.calls[i]| == |f.dones[i]|
  }

  /** There is one callback slot per link, so nothing may be pending on link `p`. */
  predicate SlotFree(n: nat, h: History, i: nat, p: nat)
    requires i < n && SizedLogs(n, h)
  {
    && (p == OwnPos(n, i) ==> FenceIdle(h.f, i))
    && forall k | 0 <= k < n && Pos(n, i, k) == p :: (i, k) !in h.x.wants
  }

  predicate Enabled(w: World, a: Action)
    requires Sized(w) && Wired(w)
  {
    var n := |w.servers|;
    match a
    case Barrier(i) => i < n && w.main[i] == Running
    case Return(i) => i < n && w.main[i] != Running && !w.servers[i].links[OwnPos(n, i)].active
    case Launch(i, ns) =>
      && i < n && w.main[i] == Running && SlotFree(n, w.h, i, OwnPos(n, i))
      && NamesFit(w.servers[i].table + [ns])
    case Fence(i, _, _) => i < n && SlotFree(n, w.h, i, OwnPos(n, i))
    case Modex(i, proc, _) =>
      && i < n && IsName(proc.name) && 0 <= proc.rank < INT_LIMIT
      && (match FindId(w.servers[i].table, proc.name, proc.rank)
          case NotFound => true
          case OutOfBounds => false
          case Owner(k) => 0 <= k ==> k < n && SlotFree(n, w.h, i, Pos(n, i, k)))
    case HubReads(j) => j < n && w.net.toHub[j] != []
    case LeafReads(j) => 0 < j < n && w.net.toLeaf[j] != []
    case Reply(k, t, _) => k < n && t < |w.inbox[k]| && 0 <= w.inbox[k][t].sender
  }

  // ---------------------------------------------------------------- steps

  /** Round `k` of the contributions, server by server. */
  function RoundData(calls: seq<seq<Call>>, k: nat): (d: seq<seq<byte>>)
    ensures |d| == |calls|
  {
    seq(|calls|, i requires 0 <= i < |calls| => if k < |calls[i]| then calls[i][k].data else [])
  }

  function ObserveFence(n: nat, f: FenceLog, src: nat): FenceLog
    requires src < |f.phase|
  {
    var order := f.order + [src];
    if |order| == n && Below(order, |f.calls|) then
      f.(order := [], orders := f.orders + [order],
         results := f.results + [Gather(order, RoundData(f.calls, |f.results|))],
         phase := seq(n, _ => FCompleting))
    else f.(order := order, phase := f.phase[src := FCounted])
  }

  function ObserveBarrier(n: nat, b: BarrierLog, src: nat): BarrierLog
    requires src < |b.phase| == n
  {
    var phase := b.phase[src := BCounted];
    if forall i | 0 <= i < n :: phase[i] == BCounted
    then b.(phase := seq(n, _ => BReleased), round := b.round + 1)
    else b.(phase := phase)
  }

  /** What is noted down when server `i` has handled message `m` and run the callbacks `fired`. */
  function Observe(n: nat, h: History, i: nat, m: Msg, fired: seq<Fired>): (r: History)
    requires i < n && SizedLogs(n, h)
    ensures SizedLogs(n, r)
  {
    if m.dst != i || m.src >= n then h
    else
      match m.cmd
      case BarrierRequest => h.(b := ObserveBarrier(n, h.b, m.src))
      case BarrierResponse => h.(b := h.b.(phase := h.b.phase[i := BWoken]))
      case FenceContrib => h.(f := ObserveFence(n, h.f, m.src))
      case FenceComplete =>
        h.(f := h.f.(dones := h.f.dones[i := h.f.dones[i] + fired], phase := h.f.phase[i := FIdle]))
      case DmdxRequest =>
        if (m.src, i) in h.x.wants then h.(x := SetStage(h.x, (m.src, i), AtOwner)) else h
      case DmdxResponse =>
        if (i, m.src) in h.x.wants then
          h.(x := ModexLog(h.x.wants - {(i, m.src)},
                           h.x.dones[i := h.x.dones[i] + [ModexDone(m.src, h.x.wants[(i, m.src)], fired)]]))
        else h
  }

  function SetStage(x: ModexLog, key: (nat, nat), stage: Stage): ModexLog
    requires key in x.wants
  {
    x.(wants := x.wants[key := x.wants[key].(stage := stage)])
  }

  /** Server `i` handles `m`, read from `net`, on the link at position `pos`. */
  function Handle(w: World, net: Net, i: nat, pos: nat, m: Msg): World
    requires Sized(w) && i < |w.servers| && pos < |w.servers[i].links|
  {
    var o := ReadCb(w.servers[i], pos, m);
    w.(servers := w.servers[i := o.server],
       net := Post(net, i, o.sends),
       inbox := w.inbox[i := w.inbox[i] + o.requests],
       h := Observe(|w.servers|, w.h, i, m, o.fired))
  }

  function SetLink(s: Server, p: nat, link: Link): Server
    requires p < |s.links|
  {
    s.(links := s.links[p := link])
  }

  /** Store a callback and send a contribution, blocking the main thread if `wait`. */
  function Contribute(w: World, i: nat, s: Server, cb: Callback, call: Call, wait: bool): World
    requires Sized(w) && i < |w.servers| && OwnPos(|w.servers|, i) < |s.links|
  {
    var p := OwnPos(|w.servers|, i);
    var s' := SetLink(s, p, s.links[p].(cb := cb, active := wait || s.links[p].active));
    w.(servers := w.servers[i := s'],
       net := Post(w.net, i, SendTo(s', Msg(0, i, FenceContrib, call.data))),
       main := if wait then w.main[i := InProcs] else w.main,
       h := w.h.(f := w.h.f.(calls := w.h.f.calls[i := w.h.f.calls[i] + [call]], phase := w.h.f.phase[i := FSent])))
  }

  function Next(w: World, a: Action): World
    requires Sized(w) && Wired(w) && Enabled(w, a)
  {
    var n := |w.servers|;
    match a
    case Barrier(i) =>
      var p := OwnPos(n, i);
      var s := SetLink(w.servers[i], p, w.servers[i].links[p].(active := true));
      w.(servers := w.servers[i := s],
         net := Post(w.net, i, SendTo(s, Msg(0, i, BarrierRequest, []))),
         main := w.main[i := InBarrier],
         h := w.h.(b := w.h.b.(entered := w.h.b.entered[i := w.h.b.entered[i] + 1], phase := w.h.b.phase[i := BRequested])))
    case Return(i) =>
      var h := if w.main[i] == InBarrier
               then w.h.(b := w.h.b.(returned := w.h.b.returned[i := w.h.b.returned[i] + 1], phase := w.h.b.phase[i := BIdle]))
               else w.h;
      w.(main := w.main[i := Running], h := h)
    case Launch(i, ns) =>
      var s := w.servers[i].(table := w.servers[i].table + [ns]);
      Contribute(w, i, s, ProcsCallback, LaunchCall(ns, PackProcs(i, s.table)), true)
    case Fence(i, token, data) =>
      Contribute(w, i, w.servers[i], UserCallback(token), FenceCall(token, data), false)
    case Modex(i, proc, token) =>
      (match FindId(w.servers[i].table, proc.name, proc.rank)
       case Owner(k) =>
         if k < 0 then w
         else
           var p := Pos(n, i, k);
           var s := SetLink(w.servers[i], p, w.servers[i].links[p].(cb := UserCallback(token)));
           w.(servers := w.servers[i := s],
              net := Post(w.net, i, SendTo(s, Msg(k, i, DmdxRequest, PackDmdx(i, proc)))),
              h := w.h.(x := w.h.x.(wants := w.h.x.wants[(i, k) := Want(proc, token, PackDmdx(i, proc), Asked)])))
       case _ => w)
    case HubReads(j) =>
      Handle(w, w.net.(toHub := w.net.toHub[j := w.net.toHub[j][1..]]), 0, Pos(n, 0, j), w.net.toHub[j][0])
    case LeafReads(j) =>
      Handle(w, w.net.(toLeaf := w.net.toLeaf[j := w.net.toLeaf[j][1..]]), j, 0, w.net.toLeaf[j][0])
    case Reply(k, t, data) =>
      var r := w.inbox[k][t];
      var key := (r.sender as nat, k);
      w.(net := Post(w.net, k, SendTo(w.servers[k], Msg(r.sender, k, DmdxResponse, data))),
         inbox := w.inbox[k := w.inbox[k][..t] + w.inbox[k][t + 1..]],
         h := if key in w.h.x.wants then w.h.(x := SetStage(w.h.x, key, Answered(data))) else w.h)
  }

  predicate SameWiring(s: Server, s': Server) {
    && s.id == s'.id
    && |s.links| == |s'.links|
    && forall p | 0 <= p < |s.links| :: s.links[p].idx == s'.links[p].idx
  }

  lemma ReadKeepsWiring(s: Server, pos: nat, m: Msg)
    requires pos < |s.links|
    ensures SameWiring(s, ReadCb(s, pos, m).server)
  {
  }

  lemma HandleWired(w: World, net: Net, i: nat, pos: nat, m: Msg)
    requires Sized(w) && Wired(w) && i < |w.servers| && pos < |w.servers[i].links|
    requires |net.toHub| == |net.toLeaf| == |w.servers|
    ensures Sized(Handle(w, net, i, pos, m)) && Wired(Handle(w, net, i, pos, m))
  {
    ReadKeepsWiring(w.servers[i], pos, m);
  }

  lemma ContributeWired(w: World, i: nat, s: Server, cb: Callback, call: Call, wait: bool)
    requires Sized(w) && Wired(w) && i < |w.servers| && SameWiring(w.servers[i], s)
    ensures var r := Contribute(w, i, s, cb, call, wait); Sized(r) && Wired(r) && |r.servers| == |w.servers|
  {
  }

  lemma ModexWired(w: World, i: nat, proc: Proc, token: nat)
    requires Sized(w) && Wired(w) && Enabled(w, Modex(i, proc, token))
    ensures var r := Next(w, Modex(i, proc, token)); Sized(r) && Wired(r) && |r.servers| == |w.servers|
  {
  }

  lemma NextWired(w: World, a: Action)
    requires Sized(w) && Wired(w) && Enabled(w, a)
    ensures Sized(Next(w, a)) && Wired(Next(w, a)) && |Next(w, a).servers| == |w.servers|
  {
    match a {
      case HubReads(j) =>
        HandleWired(w, w.net.(toHub := w.net.toHub[j := w.net.toHub[j][1..]]), 0, Pos(|w.servers|, 0, j), w.net.toHub[j][0]);
      case LeafReads(j) =>
        HandleWired(w, w.net.(toLeaf := w.net.toLeaf[j := w.net.toLeaf[j][1..]]), j, 0, w.net.toLeaf[j][0]);
      case Modex(i, proc, token) => ModexWired(w, i, proc, token);
      case Launch(i, ns) =>
        var s := w.servers[i].(table := w.servers[i].table + [ns]);
        ContributeWired(w, i, s, ProcsCallback, LaunchCall(ns, PackProcs(i, s.table)), true);
      case Fence(i, token, data) =>
        ContributeWired(w, i, w.servers[i], UserCallback(token), FenceCall(token, data), false);
      case _ =>
    }
  }

  ghost predicate ValidRun(w: World, acts: seq<Action>)
    requires Sized(w) && Wired(w)
    decreases |acts|
  {
    acts == [] || (
      && Enabled(w, acts[0])
      && (NextWired(w, acts[0]); ValidRun(Next(w, acts[0]), acts[1..])))
  }

  /** The world after a run. */
  ghost function Exec(w: World, acts: seq<Action>): (r: World)
    requires Sized(w) && Wired(w) && ValidRun(w, acts)
    ensures Sized(r) && Wired(r) && |r.servers| == |w.servers|
    decreases |acts|
  {
    if acts == [] then w
    else
      NextWired(w, acts[0]);
      Exec(Next(w, acts[0]), acts[1..])
  }
}
