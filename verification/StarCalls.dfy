/** The calls by which a process of unit/test_server.c starts a barrier, contributes
    to an all-gather, exchanges its table or asks for remote data: as routines on
    one process, and as the steps of the whole system that they are. */
module StarCalls {
  import opened Bytes
  import opened ProcTable
  import opened Exchange
  import opened StarServer
  import opened StarSystem

  /** What a call leaves behind: the process, what it wrote, and whether it failed,
      which is when the callback is given an error at once. */
  datatype Called = Called(server: Server, sends: seq<Send>, failed: bool)

  /** my_server_info on the hub, the first link on a leaf. */
  function OwnLink(s: Server): nat {
    if s.id == 0 then FindLink(s.links, 0) else 0
  }

  function Barriered(s: Server): Called
    requires OwnLink(s) < |s.links|
  {
    var p := OwnLink(s);
    var s' := SetLink(s, p, s.links[p].(active := true));
    Called(s', SendTo(s', Msg(0, s.id, BarrierRequest, [])), false)
  }

  function Contributed(s: Server, cb: Callback, data: seq<byte>, wait: bool): Called
    requires OwnLink(s) < |s.links|
  {
    var p := OwnLink(s);
    var s' := SetLink(s, p, s.links[p].(cb := cb, active := wait || s.links[p].active));
    Called(s', SendTo(s', Msg(0, s.id, FenceContrib, data)), false)
  }

  /** server_dmdx_get, for a rank inside the task map of its namespace. */
  function Requested(s: Server, proc: Proc, token: nat): Called
    requires s.links != [] && IsName(proc.name) && 0 <= proc.rank < INT_LIMIT
  {
    match FindId(s.table, proc.name, proc.rank)
    case Owner(k) =>
      if k < 0 then Called(s, [], true)
      else
        var p := if s.id == 0 then FindLink(s.links, k) else 0;
        if p == |s.links| then Called(s, [], true)
        else
          var s' := SetLink(s, p, s.links[p].(cb := UserCallback(token)));
          Called(s', SendTo(s', Msg(k, s.id, DmdxRequest, PackDmdx(s.id, proc))), false)
    case _ => Called(s, [], true)
  }

  /** `k` owns this process: the first namespace of that name has it at that rank. */
  predicate OwnedBy(table: seq<Nspace>, proc: Proc, k: nat) {
    exists x | 0 <= x < |table| ::
      && table[x].name == proc.name && 0 <= proc.rank < |table[x].taskMap| && table[x].taskMap[proc.rank] == k
      && forall y | 0 <= y < x :: table[y].name != proc.name
  }

  /** The link at `pos` leads to server `k`: on the hub the first with its index, on a leaf the only one. */
  predicate LeadsTo(s: Server, pos: nat, k: nat) {
    pos < |s.links| && if s.id == 0 then s.links[pos].idx == k && forall q | 0 <= q < pos :: s.links[q].idx != k else pos == 0
  }

  /** A request can be made of `k`, through the link at `pos`. */
  predicate CanAsk(s: Server, proc: Proc, pos: nat, k: nat) {
    OwnedBy(s.table, proc, k) && LeadsTo(s, pos, k)
  }

  /** The process after it stored the callback in the link at `pos`. */
  predicate OnlyStored(s: Server, s': Server, pos: nat, cb: Callback)
    requires pos < |s.links|
  {
    && s' == s.(links := s'.links) && |s'.links| == |s.links|
    && s'.links[pos] == s.links[pos].(cb := cb)
    && forall q | 0 <= q < |s.links| && q != pos :: s'.links[q] == s.links[q]
  }

  lemma OwnerFound(table: seq<Nspace>, proc: Proc, k: nat)
    ensures FindId(table, proc.name, proc.rank) == Owner(k) <==> OwnedBy(table, proc, k)
  {
    var x := Find(table, proc.name);
    if OwnedBy(table, proc, k) {
      var y :| 0 <= y < |table| && table[y].name == proc.name && 0 <= proc.rank < |table[y].taskMap|
               && table[y].taskMap[proc.rank] == k && forall z | 0 <= z < y :: table[z].name != proc.name;
      assert x == y;
    }
  }

  /** A request fails exactly if the rank has no known owner or no link leads there, and
      then nothing is sent or changed. Otherwise one request goes to the owner, and the
      callback is stored in the link that leads there. */
  lemma RequestExact(s: Server, proc: Proc, token: nat)
    requires s.links != [] && IsName(proc.name) && 0 <= proc.rank < INT_LIMIT
    ensures var c := Requested(s, proc, token);
            && (c.failed <==> c.sends == [])
            && (c.failed <==> forall pos: nat, k: nat :: !CanAsk(s, proc, pos, k))
            && (c.failed ==> c.server == s)
            && forall pos: nat, k: nat | CanAsk(s, proc, pos, k) ::
                 && OnlyStored(s, c.server, pos, UserCallback(token))
                 && c.sends == [Send(s.links[pos].idx, Msg(k, s.id, DmdxRequest, PackDmdx(s.id, proc)))]
  {
    var c := Requested(s, proc, token);
    var found := FindId(s.table, proc.name, proc.rank);
    forall pos: nat, k: nat | CanAsk(s, proc, pos, k)
      ensures !c.failed && OnlyStored(s, c.server, pos, UserCallback(token))
      ensures c.sends == [Send(s.links[pos].idx, Msg(k, s.id, DmdxRequest, PackDmdx(s.id, proc)))]
    {
      OwnerFound(s.table, proc, k);
      assert s.id == 0 ==> FindLink(s.links, k) == pos;
      assert FindLink(c.server.links, k) <= |s.links|;
    }
    if !c.failed {
      var pos: nat := if s.id == 0 then FindLink(s.links, found.id) else 0;
      OwnerFound(s.table, proc, found.id);
      assert CanAsk(s, proc, pos, found.id);
    }
  }

  method OwnLinkOf(p: ServerProcess) returns (pos: nat)
    ensures pos == OwnLink(p.State())
  {
    if p.id == 0 {
      pos := p.LinkOf(0);
    } else {
      pos := 0;
    }
  }

  /** server_barrier up to its wait. */
  method ServerBarrier(p: ServerProcess) returns (sends: seq<Send>)
    requires OwnLink(p.State()) < |p.links|
    modifies p
    ensures Called(p.State(), sends, false) == Barriered(old(p.State()))
  {
    var pos := OwnLinkOf(p);
    p.links := p.links[pos := p.links[pos].(active := true)];
    sends := p.SendMsg(Msg(0, p.id, BarrierRequest, []));
  }

  /** server_fence_contrib. */
  method ServerFenceContrib(p: ServerProcess, data: seq<byte>, cb: Callback) returns (sends: seq<Send>)
    requires OwnLink(p.State()) < |p.links|
    modifies p
    ensures Called(p.State(), sends, false) == Contributed(old(p.State()), cb, data, false)
  {
    var pos := OwnLinkOf(p);
    p.links := p.links[pos := p.links[pos].(cb := cb)];
    sends := p.SendMsg(Msg(0, p.id, FenceContrib, data));
  }

  /** server_send_procs up to its wait. */
  method ServerSendProcs(p: ServerProcess) returns (sends: seq<Send>)
    requires OwnLink(p.State()) < |p.links|
    requires NamesFit(p.table)
    modifies p
    ensures Called(p.State(), sends, false)
         == Contributed(old(p.State()), ProcsCallback, PackProcs(p.id, old(p.table)), true)
  {
    var pos := OwnLinkOf(p);
    p.links := p.links[pos := p.links[pos].(cb := ProcsCallback)];
    p.links := p.links[pos := p.links[pos].(active := true)];
    assert p.links == old(p.links)[pos := old(p.links)[pos].(cb := ProcsCallback, active := true)];
    sends := p.SendMsg(Msg(0, p.id, FenceContrib, PackProcs(p.id, p.table)));
  }

  /** server_dmdx_get. */
  method ServerDmdxGet(p: ServerProcess, proc: Proc, token: nat) returns (sends: seq<Send>, failed: bool)
    requires p.links != [] && IsName(proc.name) && 0 <= proc.rank < INT_LIMIT
    modifies p
    ensures Called(p.State(), sends, failed) == Requested(old(p.State()), proc, token)
    ensures failed <==> sends == []
    ensures failed <==> forall pos: nat, k: nat :: !CanAsk(old(p.State()), proc, pos, k)
    ensures failed ==> p.State() == old(p.State())
    ensures forall pos: nat, k: nat | CanAsk(old(p.State()), proc, pos, k) ::
              && OnlyStored(old(p.State()), p.State(), pos, UserCallback(token))
              && sends == [Send(old(p.links)[pos].idx, Msg(k, p.id, DmdxRequest, PackDmdx(p.id, proc)))]
  {
    RequestExact(p.State(), proc, token);
    sends, failed := [], true;
    match FindId(p.table, proc.name, proc.rank) {
      case NotFound =>
      case OutOfBounds =>
      case Owner(k) =>
        if k < 0 {
          return;
        }
        var pos := 0;
        if p.id == 0 {
          pos := p.LinkOf(k);
        }
        if pos == |p.links| {
          return;
        }
        failed := false;
        p.links := p.links[pos := p.links[pos].(cb := UserCallback(token))];
        sends := p.SendMsg(Msg(k, p.id, DmdxRequest, PackDmdx(p.id, proc)));
    }
  }

  // ------------------------------------------------ the calls are the steps

  lemma WiredLink(w: World, i: nat, k: nat)
    requires Sized(w) && Wired(w) && i < |w.servers| && k < |w.servers|
    ensures OwnLink(w.servers[i]) == OwnPos(|w.servers|, i) < |w.servers[i].links|
    ensures i == 0 ==> FindLink(w.servers[i].links, k) == Pos(|w.servers|, i, k) < |w.servers[i].links|
  {
    var n, s := |w.servers|, w.servers[i];
    assert s.id == i;
    if i == 0 {
      assert s.links[n - 1 - k].idx == k && s.links[n - 1].idx == 0;
      assert FindLink(s.links, k) < n && FindLink(s.links, 0) < n;
    }
  }

  /** A step of the system that a process takes by itself changes that process, and
      writes to its pipes, as the routine does; no other process changes. */
  lemma CallsAreSteps(w: World, a: Action)
    requires Sized(w) && Wired(w) && Enabled(w, a)
    requires a.Barrier? || a.Fence? || a.Launch? || a.Modex?
    ensures a.i < |w.servers| && OwnLink(w.servers[a.i]) < |w.servers[a.i].links|
    ensures var s := if a.Launch? then w.servers[a.i].(table := w.servers[a.i].table + [a.ns]) else w.servers[a.i];
            var c := match a
                     case Barrier(_) => Barriered(s)
                     case Fence(_, token, data) => Contributed(s, UserCallback(token), data, false)
                     case Launch(_, _) => Contributed(s, ProcsCallback, PackProcs(a.i, s.table), true)
                     case Modex(_, proc, token) => Requested(s, proc, token)
                     case _ => Called(s, [], true);
            && Next(w, a).servers == w.servers[a.i := c.server]
            && Next(w, a).net == Post(w.net, a.i, c.sends)
  {
    WiredLink(w, a.i, 0);
    if a.Modex? {
      match FindId(w.servers[a.i].table, a.proc.name, a.proc.rank) {
        case Owner(k) =>
          if 0 <= k {
            WiredLink(w, a.i, k);
          } else {
            assert w.servers[a.i := w.servers[a.i]] == w.servers;
          }
        case NotFound => assert w.servers[a.i := w.servers[a.i]] == w.servers;
        case OutOfBounds =>
      }
    }
  }
}
