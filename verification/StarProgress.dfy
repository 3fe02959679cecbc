/** The star cannot stall: internal steps use up a potential, and when none is left
    nobody waits except for a server that has not called yet. */
module StarProgress {
  import opened Bytes
  import opened ProcTable
  import opened StarServer
  import opened StarSystem
  import opened StarFlight
  import opened StarInvariant
  import opened StarReceive
  import opened StarTheorems
  import StarSteps
  import Exchange

  /** Steps the system takes by itself: deliveries, library answers, wake-ups. */
  predicate Internal(a: Action) {
    a.HubReads? || a.LeafReads? || a.Reply? || a.Return?
  }

  function Sum(s: seq<nat>): nat {
    if s == [] then 0 else s[0] + Sum(s[1..])
  }

  lemma {:induction false} SumUpdate(s: seq<nat>, j: nat, v: nat)
    requires j < |s|
    ensures Sum(s[j := v]) + s[j] == Sum(s) + v
  {
    if j == 0 {
      assert s[j := v][1..] == s[1..];
    } else {
      assert s[j := v][1..] == s[1..][j - 1 := v];
      SumUpdate(s[1..], j - 1, v);
    }
  }

  // -------------------------------------------------------------- potential

  /** Work still owed by a message at the server it is for. */
  function Owed(m: Msg): nat {
    match m.cmd
    case BarrierRequest => 3
    case BarrierResponse => 2
    case FenceContrib => 3
    case FenceComplete => 2
    case DmdxRequest => 4
    case DmdxResponse => 1
  }

  /** One more step for a message that the hub has yet to forward. */
  function OwedAtHub(m: Msg): nat {
    Owed(m) + if m.dst == 0 then 0 else 1
  }

  function HubPipe(pipe: seq<Msg>): nat {
    if pipe == [] then 0 else OwedAtHub(pipe[0]) + HubPipe(pipe[1..])
  }

  function LeafPipe(pipe: seq<Msg>): nat {
    if pipe == [] then 0 else Owed(pipe[0]) + LeafPipe(pipe[1..])
  }

  function HubPipes(net: Net): seq<nat> {
    seq(|net.toHub|, j requires 0 <= j < |net.toHub| => HubPipe(net.toHub[j]))
  }

  function LeafPipes(net: Net): seq<nat> {
    seq(|net.toLeaf|, j requires 0 <= j < |net.toLeaf| => LeafPipe(net.toLeaf[j]))
  }

  function NetOwed(net: Net): nat {
    Sum(HubPipes(net)) + Sum(LeafPipes(net))
  }

  function Asks(w: World): seq<nat> {
    seq(|w.inbox|, k requires 0 <= k < |w.inbox| => |w.inbox[k]|)
  }

  function Awake(w: World, i: nat): nat
    requires Sized(w) && Wired(w) && i < |w.servers|
  {
    if w.main[i] != Running && !OwnLink(w, i).active then 1 else 0
  }

  function Wakes(w: World): seq<nat>
    requires Sized(w) && Wired(w)
  {
    seq(|w.servers|, i requires 0 <= i < |w.servers| => Awake(w, i))
  }

  function Potential(w: World): nat
    requires Sized(w) && Wired(w)
  {
    NetOwed(w.net) + 2 * w.servers[0].barrierCnt + 2 * w.servers[0].contribCnt + 3 * Sum(Asks(w)) + Sum(Wakes(w))
  }

  lemma {:induction false} HubPipeAppend(pipe: seq<Msg>, m: Msg)
    ensures HubPipe(pipe + [m]) == HubPipe(pipe) + OwedAtHub(m)
  {
    if pipe != [] {
      assert (pipe + [m])[1..] == pipe[1..] + [m];
      HubPipeAppend(pipe[1..], m);
    }
  }

  lemma {:induction false} LeafPipeAppend(pipe: seq<Msg>, m: Msg)
    ensures LeafPipe(pipe + [m]) == LeafPipe(pipe) + Owed(m)
  {
    if pipe != [] {
      assert (pipe + [m])[1..] == pipe[1..] + [m];
      LeafPipeAppend(pipe[1..], m);
    }
  }

  /** What a write by server `i` adds. */
  function WriteOwed(i: nat, s: Send): nat {
    if i == 0 && s.link != 0 then Owed(s.msg) else OwedAtHub(s.msg)
  }

  function WritesOwed(i: nat, sends: seq<Send>): nat {
    if sends == [] then 0 else WriteOwed(i, sends[0]) + WritesOwed(i, sends[1..])
  }

  lemma PutOwed(net: Net, i: nat, s: Send)
    requires Routed(net) && GoodSend(|net.toHub|, i, s)
    ensures NetOwed(Put(net, i, s)) == NetOwed(net) + WriteOwed(i, s)
  {
    var after := Put(net, i, s);
    if i == 0 && s.link != 0 {
      LeafPipeAppend(net.toLeaf[s.link], s.msg);
      SumUpdate(LeafPipes(net), s.link, LeafPipe(after.toLeaf[s.link]));
      assert LeafPipes(after) == LeafPipes(net)[s.link := LeafPipe(after.toLeaf[s.link])];
    } else {
      HubPipeAppend(net.toHub[i], s.msg);
      SumUpdate(HubPipes(net), i, HubPipe(after.toHub[i]));
      assert HubPipes(after) == HubPipes(net)[i := HubPipe(after.toHub[i])];
    }
  }

  lemma {:induction false} PostOwed(net: Net, i: nat, sends: seq<Send>)
    requires Routed(net) && GoodSends(|net.toHub|, i, sends)
    ensures NetOwed(Post(net, i, sends)) == NetOwed(net) + WritesOwed(i, sends)
    decreases |sends|
  {
    if sends != [] {
      PutFlight(net, i, sends[0]);
      PutOwed(net, i, sends[0]);
      PostOwed(Put(net, i, sends[0]), i, sends[1..]);
    }
  }

  lemma {:induction false} BroadcastOwed(n: nat, s: Server, p: nat, cmd: Cmd, data: seq<byte>)
    requires HubWired(n, s) && p <= n && (cmd == BarrierResponse || cmd == FenceComplete)
    ensures WritesOwed(0, Broadcast(s, p, cmd, data)) == 2 * (n - p)
    decreases n - p
  {
    if p < n {
      var first := Msg(n - 1 - p, 0, cmd, data);
      SendToGood(n, 0, s, first);
      BroadcastOwed(n, s, p + 1, cmd, data);
      var rest := Broadcast(s, p + 1, cmd, data);
      assert Broadcast(s, p, cmd, data) == SendTo(s, first) + rest;
      assert (SendTo(s, first) + rest)[1..] == rest;
    }
  }

  lemma PopHubOwed(net: Net, j: nat)
    requires j < |net.toHub| && net.toHub[j] != []
    ensures NetOwed(net.(toHub := net.toHub[j := net.toHub[j][1..]])) + OwedAtHub(net.toHub[j][0]) == NetOwed(net)
  {
    var after := net.(toHub := net.toHub[j := net.toHub[j][1..]]);
    SumUpdate(HubPipes(net), j, HubPipe(after.toHub[j]));
    assert HubPipes(after) == HubPipes(net)[j := HubPipe(after.toHub[j])];
  }

  lemma PopLeafOwed(net: Net, j: nat)
    requires j < |net.toLeaf| && net.toLeaf[j] != []
    ensures NetOwed(net.(toLeaf := net.toLeaf[j := net.toLeaf[j][1..]])) + Owed(net.toLeaf[j][0]) == NetOwed(net)
  {
    var after := net.(toLeaf := net.toLeaf[j := net.toLeaf[j][1..]]);
    SumUpdate(LeafPipes(net), j, LeafPipe(after.toLeaf[j]));
    assert LeafPipes(after) == LeafPipes(net)[j := LeafPipe(after.toLeaf[j])];
  }

  // ----------------------------------------------------------------- steps

  /** What handling a message costs: everything but the pipe it came from. */
  function Rest(w: World): nat
    requires Sized(w) && Wired(w)
  {
    2 * w.servers[0].barrierCnt + 2 * w.servers[0].contribCnt + 3 * Sum(Asks(w)) + Sum(Wakes(w))
  }

  lemma SameWakes(w: World, w': World)
    requires StarSteps.SameSize(w, w') && w'.main == w.main
    requires forall j | 0 <= j < |w.servers| :: OwnLink(w', j).active == OwnLink(w, j).active
    ensures Wakes(w') == Wakes(w)
  {
  }

  lemma OneWake(w: World, w': World, i: nat)
    requires StarSteps.SameSize(w, w') && w'.main == w.main && i < |w.servers|
    requires forall j | 0 <= j < |w.servers| && j != i :: OwnLink(w', j).active == OwnLink(w, j).active
    ensures Sum(Wakes(w')) <= Sum(Wakes(w)) + 1
  {
    SumUpdate(Wakes(w), i, Awake(w', i));
    assert Wakes(w') == Wakes(w)[i := Awake(w', i)];
  }

  lemma AskMore(w: World, w': World, i: nat, r: Request)
    requires Sized(w) && Sized(w') && i < |w.inbox| && w'.inbox == w.inbox[i := w.inbox[i] + [r]]
    ensures Sum(Asks(w')) == Sum(Asks(w)) + 1
  {
    SumUpdate(Asks(w), i, |w.inbox[i]| + 1);
    assert Asks(w') == Asks(w)[i := |w.inbox[i]| + 1];
  }

  lemma AskLess(w: World, w': World, k: nat, t: nat)
    requires Sized(w) && Sized(w') && k < |w.inbox| && t < |w.inbox[k]|
    requires w'.inbox == w.inbox[k := w.inbox[k][..t] + w.inbox[k][t + 1..]]
    ensures Sum(Asks(w')) + 1 == Sum(Asks(w))
  {
    SumUpdate(Asks(w), k, |w.inbox[k]| - 1);
    assert Asks(w') == Asks(w)[k := |w.inbox[k]| - 1];
  }

  // A message that wakes at most its receiver and sends nothing.
  lemma WakeParts(w: World, net: Net, i: nat, pos: nat, m: Msg)
    requires Sized(w) && Wired(w) && Routed(net) && i < |w.servers| && pos < |w.servers[i].links|
    requires |net.toHub| == |net.toLeaf| == |w.servers| && Owed(m) == 2
    requires ReadCb(w.servers[i], pos, m).sends == [] && ReadCb(w.servers[i], pos, m).requests == []
    ensures pos < |w.servers[i].links| && Sized(Handle(w, net, i, pos, m)) && Wired(Handle(w, net, i, pos, m))
    ensures var w' := Handle(w, net, i, pos, m);
            NetOwed(w'.net) + Rest(w') < NetOwed(net) + Rest(w) + Owed(m)
  {
    HandleWired(w, net, i, pos, m);
    HandleQuiet(w, net, i, pos, m);
    HandleNothingSent(w, net, i, pos, m);
    OneWake(w, Handle(w, net, i, pos, m), i);
  }

  // A message that only leaves a request with the library.
  lemma RequestParts(w: World, net: Net, i: nat, pos: nat, m: Msg, r: Request)
    requires Sized(w) && Wired(w) && Routed(net) && i < |w.servers| && pos < |w.servers[i].links|
    requires |net.toHub| == |net.toLeaf| == |w.servers| && Owed(m) == 4
    requires ReadCb(w.servers[i], pos, m) == Outcome(w.servers[i], [], [r], [])
    ensures pos < |w.servers[i].links| && Sized(Handle(w, net, i, pos, m)) && Wired(Handle(w, net, i, pos, m))
    ensures var w' := Handle(w, net, i, pos, m);
            NetOwed(w'.net) + Rest(w') < NetOwed(net) + Rest(w) + Owed(m)
  {
    HandleWired(w, net, i, pos, m);
    var w' := Handle(w, net, i, pos, m);
    AskMore(w, w', i, r);
    HandleNothingSent(w, net, i, pos, m);
    SameWakes(w, w');
  }

  // A message that only fires a callback.
  lemma ResponseParts(w: World, net: Net, i: nat, pos: nat, m: Msg)
    requires Sized(w) && Wired(w) && Routed(net) && i < |w.servers| && pos < |w.servers[i].links|
    requires |net.toHub| == |net.toLeaf| == |w.servers| && Owed(m) == 1
    requires var o := ReadCb(w.servers[i], pos, m); o == Outcome(w.servers[i], [], [], o.fired)
    ensures pos < |w.servers[i].links| && Sized(Handle(w, net, i, pos, m)) && Wired(Handle(w, net, i, pos, m))
    ensures var w' := Handle(w, net, i, pos, m);
            NetOwed(w'.net) + Rest(w') < NetOwed(net) + Rest(w) + Owed(m)
  {
    HandleWired(w, net, i, pos, m);
    HandleQuiet(w, net, i, pos, m);
    HandleNothingSent(w, net, i, pos, m);
    SameWakes(w, Handle(w, net, i, pos, m));
  }

  /** Handling a message at its destination costs less than the message owed. */
  lemma HandleOwed(w: World, net: Net, i: nat, pos: nat, m: Msg)
    requires Inv(w) && Arrives(w, net, i, pos, m) && m.dst == i
    ensures pos < |w.servers[i].links| && Sized(Handle(w, net, i, pos, m)) && Wired(Handle(w, net, i, pos, m))
    ensures var w' := Handle(w, net, i, pos, m);
            NetOwed(w'.net) + Rest(w') < NetOwed(net) + Rest(w) + Owed(m)
  {
    ArrivalExpected(w, net, i, pos, m);
    StarSteps.IsWired(w, i);
    match m.cmd {
      case BarrierRequest => CountOwed(w, net, pos, m);
      case FenceContrib => CountOwed(w, net, pos, m);
      case BarrierResponse =>
        WakeParts(w, net, i, pos, m);
      case FenceComplete =>
        CompleteFires(w, net, i, pos, m);
        WakeParts(w, net, i, pos, m);
      case DmdxRequest =>
        RequestAsked(w, net, i, pos, m);
        RequestParts(w, net, i, pos, m, Request(m.src, w.h.x.wants[(m.src, i)].proc));
      case DmdxResponse =>
        ResponseFires(w, net, i, pos, m);
        ResponseParts(w, net, i, pos, m);
    }
  }

  /** The two counting commands at the hub. */
  lemma CountOwed(w: World, net: Net, pos: nat, m: Msg)
    requires Sized(w) && Wired(w) && Routed(net) && |net.toHub| == |w.servers| && pos < |w.servers|
    requires m.dst == 0 && (m.cmd == BarrierRequest || m.cmd == FenceContrib)
    ensures Sized(Handle(w, net, 0, pos, m)) && Wired(Handle(w, net, 0, pos, m))
    ensures var w' := Handle(w, net, 0, pos, m);
            NetOwed(w'.net) + Rest(w') < NetOwed(net) + Rest(w) + Owed(m)
  {
    HandleWired(w, net, 0, pos, m);
    HandleQuiet(w, net, 0, pos, m);
    StarSteps.IsWired(w, 0);
    var w' := Handle(w, net, 0, pos, m);
    SameWakes(w, w');
    var cmd := if m.cmd == BarrierRequest then BarrierResponse else FenceComplete;
    var data := if m.cmd == BarrierRequest then [] else w.servers[0].fenceBuf + m.data;
    BroadcastGood(|w.servers|, w.servers[0], 0, cmd, data);
    BroadcastOwed(|w.servers|, w.servers[0], 0, cmd, data);
    PostOwed(net, 0, Broadcast(w.servers[0], 0, cmd, data));
  }

  lemma HubReadsOwed(w: World, j: nat)
    requires Inv(w) && Enabled(w, HubReads(j))
    ensures Sized(Next(w, HubReads(j))) && Wired(Next(w, HubReads(j)))
    ensures Potential(Next(w, HubReads(j))) < Potential(w)
  {
    NextWired(w, HubReads(j));
    HubArrives(w, j);
    PopHubOwed(w.net, j);
    var m := w.net.toHub[j][0];
    var net := w.net.(toHub := w.net.toHub[j := w.net.toHub[j][1..]]);
    if m.dst == 0 {
      HandleOwed(w, net, 0, Pos(|w.servers|, 0, j), m);
    } else {
      ForwardedOnce(w, j);
      var w' := Next(w, HubReads(j));
      PutOwed(net, 0, Send(m.dst, m));
      assert w'.net == Put(net, 0, Send(m.dst, m));
      SameWakes(w, w');
    }
  }

  lemma LeafReadsOwed(w: World, j: nat)
    requires Inv(w) && Enabled(w, LeafReads(j))
    ensures Sized(Next(w, LeafReads(j))) && Wired(Next(w, LeafReads(j)))
    ensures Potential(Next(w, LeafReads(j))) < Potential(w)
  {
    NextWired(w, LeafReads(j));
    LeafArrives(w, j);
    PopLeafOwed(w.net, j);
    HandleOwed(w, w.net.(toLeaf := w.net.toLeaf[j := w.net.toLeaf[j][1..]]), j, 0, w.net.toLeaf[j][0]);
  }

  lemma ReplyOwed(w: World, k: nat, t: nat, data: seq<byte>)
    requires Inv(w) && Enabled(w, Reply(k, t, data))
    ensures Sized(Next(w, Reply(k, t, data))) && Wired(Next(w, Reply(k, t, data)))
    ensures Potential(Next(w, Reply(k, t, data))) < Potential(w)
  {
    var r := w.inbox[k][t];
    assert InboxOk(w.h.x, k, w.inbox[k]);
    StarSteps.InboxTake(w.h.x, k, w.inbox[k], t, Answered(data));
    assert WantSlotOk(w, r.sender as nat, k);
    StarSteps.IsWired(w, k);
    SendToGood(|w.servers|, k, w.servers[k], Msg(r.sender, k, DmdxResponse, data));
    ReplyParts(w, k, t, data);
  }

  lemma ReplyParts(w: World, k: nat, t: nat, data: seq<byte>)
    requires Sized(w) && Wired(w) && Routed(w.net) && Enabled(w, Reply(k, t, data))
    requires var m := Msg(w.inbox[k][t].sender, k, DmdxResponse, data);
             var sends := SendTo(w.servers[k], m);
             |sends| == 1 && sends[0].msg == m && GoodSend(|w.net.toHub|, k, sends[0])
    ensures Sized(Next(w, Reply(k, t, data))) && Wired(Next(w, Reply(k, t, data)))
    ensures Potential(Next(w, Reply(k, t, data))) < Potential(w)
  {
    var a := Reply(k, t, data);
    NextWired(w, a);
    var sends := SendTo(w.servers[k], Msg(w.inbox[k][t].sender, k, DmdxResponse, data));
    assert sends[1..] == [];
    PostOwed(w.net, k, sends);
    AskLess(w, Next(w, a), k, t);
    SameWakes(w, Next(w, a));
  }

  lemma ReturnOwed(w: World, i: nat)
    requires Inv(w) && Enabled(w, Return(i))
    ensures Sized(Next(w, Return(i))) && Wired(Next(w, Return(i)))
    ensures Potential(Next(w, Return(i))) < Potential(w)
  {
    NextWired(w, Return(i));
    ReturnParts(w, Next(w, Return(i)), i);
  }

  lemma ReturnParts(w: World, w': World, i: nat)
    requires StarSteps.SameSize(w, w') && i < |w.servers| && w.main[i] != Running && !OwnLink(w, i).active
    requires w'.servers == w.servers && w'.net == w.net && w'.inbox == w.inbox && w'.main == w.main[i := Running]
    ensures Potential(w') < Potential(w)
  {
    SumUpdate(Wakes(w), i, 0);
    assert Wakes(w') == Wakes(w)[i := 0];
    assert Asks(w') == Asks(w);
  }

  /** Every internal step lowers the potential. */
  lemma InternalStep(w: World, a: Action)
    requires Inv(w) && Enabled(w, a) && Internal(a)
    ensures Sized(Next(w, a)) && Wired(Next(w, a)) && Potential(Next(w, a)) < Potential(w)
  {
    match a {
      case HubReads(j) => HubReadsOwed(w, j);
      case LeafReads(j) => LeafReadsOwed(w, j);
      case Reply(k, t, data) => ReplyOwed(w, k, t, data);
      case Return(i) => ReturnOwed(w, i);
    }
  }

  ghost predicate AllInternal(acts: seq<Action>) {
    forall k | 0 <= k < |acts| :: Internal(acts[k])
  }

  lemma InternalKeeps(w: World, a: Action)
    requires Inv(w) && Enabled(w, a) && Internal(a)
    ensures Sized(Next(w, a)) && Wired(Next(w, a)) && Inv(Next(w, a)) && Potential(Next(w, a)) < Potential(w)
  {
    InternalStep(w, a);
    NextInv(w, a);
  }

  /** Without new calls, a run is no longer than the potential it starts with. */
  lemma {:induction false} BoundedRun(w: World, acts: seq<Action>)
    requires Inv(w) && ValidRun(w, acts) && AllInternal(acts)
    ensures |acts| + Potential(Exec(w, acts)) <= Potential(w)
    decreases |acts|
  {
    if acts != [] {
      var rest := acts[1..];
      assert forall k | 0 <= k < |rest| :: rest[k] == acts[k + 1];
      InternalKeeps(w, acts[0]);
      BoundedRun(Next(w, acts[0]), rest);
    }
  }

  // ------------------------------------------------------------- quiescence

  /** No internal step is possible. */
  ghost predicate Quiescent(w: World)
    requires Sized(w) && Wired(w)
  {
    forall a | Internal(a) :: !Enabled(w, a)
  }

  lemma QuiescentPipes(w: World)
    requires Sized(w) && Wired(w) && Routed(w.net) && Quiescent(w)
    ensures Flight(w.net) == multiset{}
  {
    forall j | 0 <= j < |w.servers| ensures w.net.toHub[j] == [] && w.net.toLeaf[j] == [] {
      assert !Enabled(w, HubReads(j));
      assert !Enabled(w, LeafReads(j));
    }
    BagOfEmpty(w.net.toHub);
    BagOfEmpty(w.net.toLeaf);
  }

  lemma AskedCanReply(w: World, k: nat)
    requires Sized(w) && Wired(w) && k < |w.servers| && InboxOk(w.h.x, k, w.inbox[k]) && w.inbox[k] != []
    ensures Enabled(w, Reply(k, 0, []))
  {
    assert multiset(w.inbox[k])[w.inbox[k][0]] > 0;
  }

  lemma QuiescentInbox(w: World, k: nat)
    requires Sized(w) && Wired(w) && Quiescent(w) && k < |w.servers| && InboxOk(w.h.x, k, w.inbox[k])
    ensures w.inbox[k] == []
  {
    if w.inbox[k] != [] {
      AskedCanReply(w, k);
    }
  }

  lemma QuiescentMain(w: World, i: nat)
    requires Sized(w) && Wired(w) && Quiescent(w) && i < |w.servers|
    ensures w.main[i] != Running ==> OwnLink(w, i).active
  {
    assert !Enabled(w, Return(i));
  }

  lemma NothingExpected(w: World, m: Msg)
    requires Inv(w) && Flight(w.net) == multiset{}
    ensures !Expected(|w.servers|, w.h, m)
  {
    assert Flight(w.net)[m] == 0;
  }

  lemma QuietPhases(w: World, i: nat)
    requires Inv(w) && Quiescent(w) && i < |w.servers|
    ensures w.h.b.phase[i] == BIdle || w.h.b.phase[i] == BCounted
    ensures w.h.f.phase[i] == FIdle || w.h.f.phase[i] == FCounted
  {
    QuiescentPipes(w);
    QuiescentMain(w, i);
    assert BarrierPhaseOk(w.h.b, i, w.main[i], OwnLink(w, i).active);
    assert FencePhaseOk(w.h.f, i);
    NothingExpected(w, Msg(0, i, BarrierRequest, []));
    NothingExpected(w, Msg(i, 0, BarrierResponse, []));
    if w.h.f.phase[i] == FSent {
      NothingExpected(w, Msg(0, i, FenceContrib, w.h.f.calls[i][|w.h.f.calls[i]| - 1].data));
    } else if w.h.f.phase[i] == FCompleting {
      NothingExpected(w, Msg(i, 0, FenceComplete, w.h.f.results[|w.h.f.results| - 1]));
    }
  }

  /** Some server has not entered the barrier that the hub is counting. */
  lemma SomeoneIdle(w: World)
    requires Inv(w) && Quiescent(w)
    ensures exists j :: 0 <= j < |w.servers| && w.h.b.phase[j] == BIdle
  {
    FullSet(|w.servers|, Counted(w.h.b.phase));
    var j: nat :| j < |w.servers| && j !in Counted(w.h.b.phase);
    QuietPhases(w, j);
  }

  /** Once all n servers have entered their k-th barrier, the system, left alone,
      comes to rest only when all n have left it. */
  lemma BarrierReleases(w: World, k: nat)
    requires Inv(w) && Quiescent(w)
    requires forall i | 0 <= i < |w.servers| :: w.h.b.entered[i] >= k
    ensures forall i | 0 <= i < |w.servers| :: w.h.b.returned[i] >= k
  {
    SomeoneIdle(w);
    var j :| 0 <= j < |w.servers| && w.h.b.phase[j] == BIdle;
    assert BarrierPhaseOk(w.h.b, j, w.main[j], OwnLink(w, j).active);
    forall i | 0 <= i < |w.servers| ensures w.h.b.returned[i] >= k {
      QuietPhases(w, i);
      assert BarrierPhaseOk(w.h.b, i, w.main[i], OwnLink(w, i).active);
    }
  }

  lemma SomeoneSilent(w: World)
    requires Inv(w) && Quiescent(w)
    ensures exists j :: 0 <= j < |w.servers| && w.h.f.phase[j] == FIdle
  {
    if forall j | 0 <= j < |w.servers| :: w.h.f.phase[j] != FIdle {
      forall j: nat | j < |w.servers| ensures j in w.h.f.order {
        QuietPhases(w, j);
      }
      DistinctSize(w.h.f.order);
      FullSet(|w.servers|, Exchange.Elements(w.h.f.order));
    }
  }

  /** Once all n servers have made their k-th contribution, the system, left alone,
      comes to rest only when all n have completed it. */
  lemma FenceReleases(w: World, k: nat)
    requires Inv(w) && Quiescent(w)
    requires forall i | 0 <= i < |w.servers| :: |w.h.f.calls[i]| >= k
    ensures forall i | 0 <= i < |w.servers| :: |w.h.f.dones[i]| >= k
  {
    SomeoneSilent(w);
    var j :| 0 <= j < |w.servers| && w.h.f.phase[j] == FIdle;
    assert FencePhaseOk(w.h.f, j);
    forall i | 0 <= i < |w.servers| ensures |w.h.f.dones[i]| >= k {
      QuietPhases(w, i);
      assert FencePhaseOk(w.h.f, i);
    }
  }

  /** An open request is somewhere: in a pipe or before the owner's library. */
  lemma OpenWantMoves(w: World, i: nat, k: nat)
    requires Inv(w) && (i, k) in w.h.x.wants
    ensures k < |w.servers| && (w.inbox[k] != [] || exists m :: m in Flight(w.net))
  {
    assert WantSlotOk(w, i, k);
    if w.h.x.wants[(i, k)].stage == AtOwner {
      assert InboxOk(w.h.x, k, w.inbox[k]);
      WaitingInInbox(w.h.x, i, k, w.inbox[k]);
    } else {
      WantInFlight(|w.servers|, w.h, w.net, i, k);
    }
  }

  lemma WaitingInInbox(x: ModexLog, i: nat, k: nat, inbox: seq<Request>)
    requires InboxOk(x, k, inbox) && (i, k) in x.wants && x.wants[(i, k)].stage == AtOwner
    ensures inbox != []
  {
    assert multiset(inbox)[Request(i, x.wants[(i, k)].proc)] == 1;
  }

  lemma WantInFlight(n: nat, h: History, net: Net, i: nat, k: nat)
    requires SizedLogs(n, h) && InFlight(n, h, net) && (i, k) in h.x.wants && h.x.wants[(i, k)].stage != AtOwner
    ensures exists m :: m in Flight(net)
  {
    var want := h.x.wants[(i, k)];
    var m := if want.stage == Asked then Msg(k, i, DmdxRequest, want.body) else Msg(i, k, DmdxResponse, want.stage.data);
    assert Expected(n, h, m);
    assert Flight(net)[m] == 1;
  }

  /** Left alone, the system comes to rest only when every modex has been answered. */
  lemma ModexReleases(w: World)
    requires Inv(w) && Quiescent(w)
    ensures forall i: nat, k: nat :: (i, k) !in w.h.x.wants
  {
    QuiescentPipes(w);
    forall i: nat, k: nat ensures (i, k) !in w.h.x.wants {
      if (i, k) in w.h.x.wants {
        OpenWantMoves(w, i, k);
        QuiescentInbox(w, k);
      }
    }
  }

  /** Left alone, the system comes to rest with a server in server_send_procs only if it
      waits for another one to contribute, or its process has aborted. */
  lemma ProcsRelease(w: World, i: nat)
    requires Inv(w) && Quiescent(w) && i < |w.servers| && w.main[i] == InProcs && !w.servers[i].aborted
    ensures |w.h.f.dones[i]| < |w.h.f.calls[i]|
    ensures exists j :: 0 <= j < |w.servers| && |w.h.f.calls[j]| < |w.h.f.calls[i]|
  {
    QuiescentMain(w, i);
    assert FenceSlotOk(w.h.f, i, w.main[i], OwnLink(w, i), w.servers[i].aborted);
    if forall j | 0 <= j < |w.servers| :: |w.h.f.calls[j]| >= |w.h.f.calls[i]| {
      FenceReleases(w, |w.h.f.calls[i]|);
    }
    assert FencePhaseOk(w.h.f, i);
  }

  lemma HandleKeepsCalls(w: World, net: Net, i: nat, pos: nat, m: Msg)
    requires Sized(w) && i < |w.servers| && pos < |w.servers[i].links|
    ensures var h := Handle(w, net, i, pos, m).h; h.b.entered == w.h.b.entered && h.f.calls == w.h.f.calls
  {
  }

  lemma StepKeepsCalls(w: World, a: Action)
    requires Sized(w) && Wired(w) && Enabled(w, a) && Internal(a)
    ensures Next(w, a).h.b.entered == w.h.b.entered && Next(w, a).h.f.calls == w.h.f.calls
  {
    match a {
      case HubReads(j) =>
        HandleKeepsCalls(w, w.net.(toHub := w.net.toHub[j := w.net.toHub[j][1..]]), 0, Pos(|w.servers|, 0, j), w.net.toHub[j][0]);
      case LeafReads(j) =>
        HandleKeepsCalls(w, w.net.(toLeaf := w.net.toLeaf[j := w.net.toLeaf[j][1..]]), j, 0, w.net.toLeaf[j][0]);
      case _ =>
    }
  }

  /** Internal steps make no calls. */
  lemma {:induction false} InternalKeepsCalls(w: World, acts: seq<Action>)
    requires Sized(w) && Wired(w) && ValidRun(w, acts) && AllInternal(acts)
    ensures Exec(w, acts).h.b.entered == w.h.b.entered && Exec(w, acts).h.f.calls == w.h.f.calls
    decreases |acts|
  {
    if acts != [] {
      StepKeepsCalls(w, acts[0]);
      NextWired(w, acts[0]);
      InternalKeepsCalls(Next(w, acts[0]), acts[1..]);
    }
  }

  /** No deadlock: when all n servers have entered k barriers and made r contributions,
      every run of internal steps is at most the potential long, and when it can go no
      further every barrier is left, every contribution completed, every modex answered,
      and no server that made no more contributions waits for an exchange of tables. */
  lemma NoDeadlock(n: nat, before: seq<Action>, w: World, acts: seq<Action>, k: nat, r: nat)
    requires Reached(n, before, w) && ValidRun(w, acts) && AllInternal(acts)
    requires |w.h.b.entered| == |w.h.f.calls| == n
    requires forall i | 0 <= i < n :: w.h.b.entered[i] >= k && |w.h.f.calls[i]| >= r
    ensures |acts| <= Potential(w)
    ensures var e := Exec(w, acts);
            Quiescent(e) ==>
              && (forall i: nat, j: nat :: (i, j) !in e.h.x.wants)
              && (forall i | 0 <= i < n :: e.h.b.returned[i] >= k && |e.h.f.dones[i]| >= r)
              && forall i | 0 <= i < n && |e.h.f.calls[i]| == r && e.main[i] == InProcs :: e.servers[i].aborted
  {
    ReachedInv(n, before, w);
    BoundedRun(w, acts);
    InternalKeepsCalls(w, acts);
    RunInv(w, acts);
    var e := Exec(w, acts);
    if Quiescent(e) {
      BarrierReleases(e, k);
      FenceReleases(e, r);
      ModexReleases(e);
      forall i | 0 <= i < n && |e.h.f.calls[i]| == r && e.main[i] == InProcs ensures e.servers[i].aborted {
        if !e.servers[i].aborted {
          ProcsRelease(e, i);
        }
      }
    }
  }
}
