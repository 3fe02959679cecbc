/** One emulated server of unit/test_server.c: its links, its counters, and what
    server_read_cb makes of one whole message. */
module StarServer {
  import opened Bytes
  import opened ProcTable

  datatype Cmd =
    | BarrierRequest | BarrierResponse
    | FenceContrib | FenceComplete
    | DmdxRequest | DmdxResponse

  datatype Msg = Msg(dst: nat, src: nat, cmd: Cmd, data: seq<byte>)

  /** server->modex_cbfunc with its cbdata: unset, the table callback
      _send_procs_cb, or a callback of the library identified by a token. */
  datatype Callback = NoCallback | ProcsCallback | UserCallback(token: nat)

  /** A server_info_t of server_list; `active` is its lock. */
  datatype Link = Link(idx: nat, cb: Callback, active: bool)

  datatype Server = Server(id: nat, links: seq<Link>, barrierCnt: nat, contribCnt: nat,
                           fenceBuf: seq<byte>, table: seq<Nspace>, aborted: bool)

  datatype Send = Send(link: nat, msg: Msg)
  datatype Request = Request(sender: int, proc: Proc)
  datatype Fired = Fired(cb: Callback, data: seq<byte>)

  /** The server afterwards, what it wrote, what it asked the library for, which callbacks ran. */
  datatype Outcome = Outcome(server: Server, sends: seq<Send>, requests: seq<Request>, fired: seq<Fired>)

  function FindLink(links: seq<Link>, idx: nat): (p: nat)
    ensures p <= |links|
    ensures p < |links| ==> links[p].idx == idx
    ensures forall q | 0 <= q < p :: links[q].idx != idx
  {
    if links == [] || links[0].idx == idx then 0 else 1 + FindLink(links[1..], idx)
  }

  /** server_send_msg: the hub picks the destination's link, a leaf its only one;
      an empty result stands for abort(). */
  function SendTo(s: Server, m: Msg): (out: seq<Send>)
    ensures |out| <= 1
  {
    if s.id == 0 then
      var p := FindLink(s.links, m.dst);
      if p < |s.links| then [Send(m.dst, m)] else []
    else if s.links == [] then []
    else [Send(s.links[0].idx, m)]
  }

  /** server_fwd_msg: dropped when no link leads to the destination. */
  function Forward(s: Server, m: Msg): seq<Send> {
    if FindLink(s.links, m.dst) < |s.links| then [Send(m.dst, m)] else []
  }

  function Broadcast(s: Server, p: nat, cmd: Cmd, data: seq<byte>): seq<Send>
    requires p <= |s.links|
    decreases |s.links| - p
  {
    if p == |s.links| then []
    else SendTo(s, Msg(s.links[p].idx, s.id, cmd, data)) + Broadcast(s, p + 1, cmd, data)
  }

  /** Calling the callback stored in the link the message came on. */
  function Fire(s: Server, pos: nat, data: seq<byte>): Outcome
    requires pos < |s.links|
  {
    var link := s.links[pos];
    match link.cb
    case NoCallback => Outcome(s.(aborted := true), [], [], [])
    case UserCallback(_) => Outcome(s, [], [], [Fired(link.cb, data)])
    case ProcsCallback =>
      match UnpackProcs(s.table, data)
      case Garbled => Outcome(s.(aborted := true), [], [], [Fired(link.cb, data)])
      case Table(t) =>
        Outcome(s.(table := t, links := s.links[pos := link.(active := false)]), [], [], [Fired(link.cb, data)])
  }

  /** server_read_cb: message `m` arrived on the link at position `pos`. */
  function ReadCb(s: Server, pos: nat, m: Msg): Outcome
    requires pos < |s.links|
  {
    if m.dst != s.id then Outcome(s, Forward(s, m), [], [])
    else
      match m.cmd
      case BarrierRequest =>
        if |s.links| == s.barrierCnt + 1
        then Outcome(s.(barrierCnt := 0), Broadcast(s, 0, BarrierResponse, []), [], [])
        else Outcome(s.(barrierCnt := s.barrierCnt + 1), [], [], [])
      case BarrierResponse =>
        Outcome(s.(links := s.links[pos := s.links[pos].(active := false)]), [], [], [])
      case FenceContrib =>
        var buf := s.fenceBuf + m.data;
        if |s.links| == s.contribCnt + 1
        then Outcome(s.(contribCnt := 0, fenceBuf := []), Broadcast(s, 0, FenceComplete, buf), [], [])
        else Outcome(s.(contribCnt := s.contribCnt + 1, fenceBuf := buf), [], [], [])
      case DmdxRequest =>
        if |m.data| != DMDX_BYTES then Outcome(s.(aborted := true), [], [], [])
        else
          var (sender, proc) := UnpackDmdx(m.data);
          Outcome(s, [], [Request(sender, proc)], [])
      case FenceComplete => Fire(s, pos, m.data)
      case DmdxResponse => Fire(s, pos, m.data)
  }

  // ------------------------------------------------------- the C routine

  /** The statics and the server_list of one process, updated message by message. */
  class ServerProcess {
    const id: nat
    var links: seq<Link>
    var barrierCnt: nat
    var contribCnt: nat
    var fenceBuf: seq<byte>
    var table: seq<Nspace>
    var aborted: bool

    ghost function State(): Server
      reads this
    {
      Server(id, links, barrierCnt, contribCnt, fenceBuf, table, aborted)
    }

    constructor (id: nat, links: seq<Link>)
      ensures State() == Server(id, links, 0, 0, [], [], false)
    {
      this.id := id;
      this.links := links;
      barrierCnt, contribCnt, fenceBuf, table, aborted := 0, 0, [], [], false;
    }

    method LinkOf(idx: nat) returns (p: nat)
      ensures p == FindLink(links, idx)
    {
      p := 0;
      while p < |links| && links[p].idx != idx
        invariant p <= |links|
        invariant FindLink(links, idx) == p + FindLink(links[p..], idx)
      {
        assert links[p..][1..] == links[p + 1..];
        p := p + 1;
      }
    }

    method SendMsg(m: Msg) returns (out: seq<Send>)
      ensures out == SendTo(State(), m)
    {
      if id == 0 {
        var p := LinkOf(m.dst);
        out := if p < |links| then [Send(m.dst, m)] else [];
      } else {
        out := if links == [] then [] else [Send(links[0].idx, m)];
      }
    }

    method Answer(cmd: Cmd, data: seq<byte>) returns (sends: seq<Send>)
      ensures sends == Broadcast(State(), 0, cmd, data)
    {
      sends := [];
      var p := 0;
      while p < |links|
        invariant p <= |links|
        invariant sends + Broadcast(State(), p, cmd, data) == Broadcast(State(), 0, cmd, data)
      {
        var out := SendMsg(Msg(links[p].idx, id, cmd, data));
        assert Broadcast(State(), p, cmd, data) == out + Broadcast(State(), p + 1, cmd, data);
        sends := sends + out;
        p := p + 1;
      }
    }

    method Callback(pos: nat, data: seq<byte>) returns (fired: seq<Fired>)
      requires pos < |links|
      modifies this
      ensures Outcome(State(), [], [], fired) == Fire(old(State()), pos, data)
    {
      var link := links[pos];
      match link.cb {
        case NoCallback =>
          aborted := true;
          fired := [];
        case UserCallback(_) =>
          fired := [Fired(link.cb, data)];
        case ProcsCallback =>
          match UnpackProcs(table, data) {
            case Garbled => aborted := true;
            case Table(t) =>
              table := t;
              links := links[pos := link.(active := false)];
          }
          fired := [Fired(link.cb, data)];
      }
    }

    method Receive(pos: nat, m: Msg) returns (sends: seq<Send>, requests: seq<Request>, fired: seq<Fired>)
      requires pos < |links|
      modifies this
      ensures Outcome(State(), sends, requests, fired) == ReadCb(old(State()), pos, m)
    {
      sends, requests, fired := [], [], [];
      if m.dst != id {
        var p := LinkOf(m.dst);
        if p < |links| {
          sends := [Send(m.dst, m)];
        }
        return;
      }
      match m.cmd {
        case BarrierRequest =>
          barrierCnt := barrierCnt + 1;
          if |links| == barrierCnt {
            barrierCnt := 0;
            sends := Answer(BarrierResponse, []);
            BroadcastFrame(old(State()), State(), 0, BarrierResponse, []);
          }
        case BarrierResponse =>
          links := links[pos := links[pos].(active := false)];
        case FenceContrib =>
          contribCnt := contribCnt + 1;
          if |m.data| > 0 {
            fenceBuf := fenceBuf + m.data;
          }
          assert fenceBuf == old(fenceBuf) + m.data;
          if |links| == contribCnt {
            sends := Answer(FenceComplete, fenceBuf);
            BroadcastFrame(old(State()), State(), 0, FenceComplete, fenceBuf);
            if |fenceBuf| > 0 {
              fenceBuf := [];
            }
            contribCnt := 0;
          }
        case FenceComplete =>
          fired := Callback(pos, m.data);
        case DmdxRequest =>
          if |m.data| != DMDX_BYTES {
            aborted := true;
          } else {
            var (sender, proc) := UnpackDmdx(m.data);
            requests := [Request(sender, proc)];
          }
        case DmdxResponse =>
          fired := Callback(pos, m.data);
      }
    }
  }

  lemma {:induction false} BroadcastFrame(s: Server, s': Server, p: nat, cmd: Cmd, data: seq<byte>)
    requires s.id == s'.id && s.links == s'.links && p <= |s.links|
    ensures Broadcast(s, p, cmd, data) == Broadcast(s', p, cmd, data)
    decreases |s.links| - p
  {
    if p < |s.links| {
      BroadcastFrame(s, s', p + 1, cmd, data);
    }
  }
}
