/** The messages in flight, as one bag: what posting, reading and broadcasting do to it,
    and the routing discipline of the star. */
module StarFlight {
  import opened Bytes
  import opened ProcTable
  import opened StarServer
  import opened StarSystem

  ghost function Bag(pipes: seq<seq<Msg>>): multiset<Msg> {
    if pipes == [] then multiset{} else multiset(pipes[0]) + Bag(pipes[1..])
  }

  ghost function Flight(net: Net): multiset<Msg> {
    Bag(net.toHub) + Bag(net.toLeaf)
  }

  /** Everything in a pipe to the hub was sent by that pipe's server, the hub's own
      pipe holds only messages for the hub, and a pipe to a leaf only messages for it. */
  ghost predicate Routed(net: Net) {
    && |net.toHub| == |net.toLeaf| > 0
    && net.toLeaf[0] == []
    && (forall i, x | 0 <= i < |net.toHub| && 0 <= x < |net.toHub[i]| :: FromServer(|net.toHub|, i, net.toHub[i][x]))
    && (forall i, x | 0 <= i < |net.toLeaf| && 0 <= x < |net.toLeaf[i]| :: net.toLeaf[i][x].dst == i)
  }

  predicate FromServer(n: nat, i: nat, m: Msg) {
    m.src == i && m.dst < n && (i == 0 ==> m.dst == 0)
  }

  /** A write that respects the topology. */
  predicate GoodSend(n: nat, i: nat, s: Send) {
    && i < n && s.msg.dst < n
    && if i == 0 then s.link == s.msg.dst && (s.link == 0 ==> s.msg.src == 0) else s.msg.src == i
  }

  predicate GoodSends(n: nat, i: nat, sends: seq<Send>) {
    forall k | 0 <= k < |sends| :: GoodSend(n, i, sends[k])
  }

  function Msgs(sends: seq<Send>): (m: seq<Msg>)
    ensures |m| == |sends|
  {
    seq(|sends|, k requires 0 <= k < |sends| => sends[k].msg)
  }

  lemma {:induction false} BagUpdate(pipes: seq<seq<Msg>>, j: nat, p: seq<Msg>)
    requires j < |pipes|
    ensures Bag(pipes[j := p]) + multiset(pipes[j]) == Bag(pipes) + multiset(p)
  {
    var changed := pipes[j := p];
    if j == 0 {
      assert changed[1..] == pipes[1..];
    } else {
      assert changed[1..] == pipes[1..][j - 1 := p];
      BagUpdate(pipes[1..], j - 1, p);
      var tail, before := Bag(pipes[1..][j - 1 := p]), Bag(pipes[1..]);
      forall x ensures (Bag(changed) + multiset(pipes[j]))[x] == (Bag(pipes) + multiset(p))[x] {
        assert (tail + multiset(pipes[j]))[x] == (before + multiset(p))[x];
      }
    }
  }

  lemma BagPush(pipes: seq<seq<Msg>>, j: nat, m: Msg)
    requires j < |pipes|
    ensures Bag(pipes[j := pipes[j] + [m]]) == Bag(pipes) + multiset{m}
  {
    BagUpdate(pipes, j, pipes[j] + [m]);
    var after := Bag(pipes[j := pipes[j] + [m]]);
    forall x ensures after[x] == (Bag(pipes) + multiset{m})[x] {
      assert (after + multiset(pipes[j]))[x] == (Bag(pipes) + multiset(pipes[j] + [m]))[x];
    }
  }

  lemma BagPop(pipes: seq<seq<Msg>>, j: nat)
    requires j < |pipes| && pipes[j] != []
    ensures pipes[j][0] in Bag(pipes)
    ensures Bag(pipes[j := pipes[j][1..]]) == Bag(pipes) - multiset{pipes[j][0]}
  {
    var popped := pipes[j := pipes[j][1..]];
    BagUpdate(pipes, j, pipes[j][1..]);
    BagHas(pipes, j, pipes[j][0]);
    assert pipes[j] == [pipes[j][0]] + pipes[j][1..];
    var after := Bag(popped);
    forall x ensures after[x] == (Bag(pipes) - multiset{pipes[j][0]})[x] {
      assert (after + multiset(pipes[j]))[x] == (Bag(pipes) + multiset(pipes[j][1..]))[x];
    }
  }

  lemma {:induction false} BagHas(pipes: seq<seq<Msg>>, j: nat, m: Msg)
    requires j < |pipes| && m in pipes[j]
    ensures m in Bag(pipes)
  {
    if j > 0 {
      BagHas(pipes[1..], j - 1, m);
    }
  }

  lemma {:induction false} BagOfEmpty(pipes: seq<seq<Msg>>)
    requires forall i | 0 <= i < |pipes| :: pipes[i] == []
    ensures Bag(pipes) == multiset{}
  {
    if pipes != [] {
      BagOfEmpty(pipes[1..]);
    }
  }

  lemma PutRouted(net: Net, i: nat, s: Send)
    requires Routed(net) && GoodSend(|net.toHub|, i, s)
    ensures Routed(Put(net, i, s)) && |Put(net, i, s).toHub| == |net.toHub|
  {
    var net' := Put(net, i, s);
    forall j, x | 0 <= j < |net'.toHub| && 0 <= x < |net'.toHub[j]|
      ensures FromServer(|net'.toHub|, j, net'.toHub[j][x])
    {
      assert x < |net.toHub[j]| ==> FromServer(|net.toHub|, j, net.toHub[j][x]);
    }
  }

  lemma PutFlight(net: Net, i: nat, s: Send)
    requires Routed(net) && GoodSend(|net.toHub|, i, s)
    ensures Routed(Put(net, i, s)) && |Put(net, i, s).toHub| == |net.toHub|
    ensures Flight(Put(net, i, s)) == Flight(net) + multiset{s.msg}
  {
    PutRouted(net, i, s);
    PutBag(net, i, s);
  }

  lemma PutBag(net: Net, i: nat, s: Send)
    requires i < |net.toHub| && (i == 0 ==> s.link < |net.toLeaf|)
    ensures Flight(Put(net, i, s)) == Flight(net) + multiset{s.msg}
  {
    if i == 0 && s.link != 0 {
      BagPush(net.toLeaf, s.link, s.msg);
    } else {
      BagPush(net.toHub, i, s.msg);
    }
  }

  lemma {:induction false} PostFlight(net: Net, i: nat, sends: seq<Send>)
    requires Routed(net) && GoodSends(|net.toHub|, i, sends)
    ensures Routed(Post(net, i, sends))
    ensures Flight(Post(net, i, sends)) == Flight(net) + multiset(Msgs(sends))
    decreases |sends|
  {
    if sends != [] {
      PutFlight(net, i, sends[0]);
      PostFlight(Put(net, i, sends[0]), i, sends[1..]);
      assert Msgs(sends) == [sends[0].msg] + Msgs(sends[1..]);
    }
  }

  lemma PopRouted(net: Net, j: nat)
    requires Routed(net) && j < |net.toHub| && net.toHub[j] != []
    ensures Routed(net.(toHub := net.toHub[j := net.toHub[j][1..]]))
  {
    var r := net.(toHub := net.toHub[j := net.toHub[j][1..]]);
    forall i, x | 0 <= i < |r.toHub| && 0 <= x < |r.toHub[i]| ensures FromServer(|r.toHub|, i, r.toHub[i][x]) {
      assert FromServer(|net.toHub|, i, net.toHub[i][if i == j then x + 1 else x]);
    }
  }

  lemma PopHub(net: Net, j: nat)
    requires Routed(net) && j < |net.toHub| && net.toHub[j] != []
    ensures var m := net.toHub[j][0]; var r := net.(toHub := net.toHub[j := net.toHub[j][1..]]);
            m in Flight(net) && Routed(r) && Flight(r) == Flight(net) - multiset{m}
  {
    PopRouted(net, j);
    BagPop(net.toHub, j);
  }

  lemma PopLeaf(net: Net, j: nat)
    requires Routed(net) && j < |net.toLeaf| && net.toLeaf[j] != []
    ensures var m := net.toLeaf[j][0]; var r := net.(toLeaf := net.toLeaf[j := net.toLeaf[j][1..]]);
            m in Flight(net) && Routed(r) && Flight(r) == Flight(net) - multiset{m}
  {
    BagPop(net.toLeaf, j);
  }

  // ----------------------------------------------------------- what is sent

  predicate HubWired(n: nat, s: Server) {
    s.id == 0 && |s.links| == n && forall p | 0 <= p < n :: s.links[p].idx == n - 1 - p
  }

  predicate ServerWired(n: nat, i: nat, s: Server) {
    && i < n && s.id == i
    && if i == 0 then HubWired(n, s) else |s.links| == 1 && s.links[0].idx == 0
  }

  lemma HubFindsLink(n: nat, s: Server, k: nat)
    requires HubWired(n, s) && k < n
    ensures FindLink(s.links, k) == n - 1 - k
  {
    assert s.links[n - 1 - k].idx == k;
  }

  /** server_send_msg always finds a link, and the message takes it. */
  lemma SendToGood(n: nat, i: nat, s: Server, m: Msg)
    requires ServerWired(n, i, s) && m.src == i && m.dst < n
    ensures var out := SendTo(s, m); |out| == 1 && out[0].msg == m && GoodSend(n, i, out[0])
  {
    if i == 0 {
      HubFindsLink(n, s, m.dst);
    }
  }

  /** The messages of a broadcast, in list order. */
  function Copies(n: nat, p: nat, cmd: Cmd, data: seq<byte>): (m: seq<Msg>)
    requires p <= n
    decreases n - p
  {
    if p == n then [] else [Msg(n - 1 - p, 0, cmd, data)] + Copies(n, p + 1, cmd, data)
  }

  lemma {:induction false} BroadcastGood(n: nat, s: Server, p: nat, cmd: Cmd, data: seq<byte>)
    requires HubWired(n, s) && p <= n
    ensures GoodSends(n, 0, Broadcast(s, p, cmd, data))
    ensures Msgs(Broadcast(s, p, cmd, data)) == Copies(n, p, cmd, data)
    decreases n - p
  {
    if p < n {
      var first := Msg(n - 1 - p, 0, cmd, data);
      SendToGood(n, 0, s, first);
      var rest := Broadcast(s, p + 1, cmd, data);
      assert Broadcast(s, p, cmd, data) == SendTo(s, first) + rest;
      BroadcastGood(n, s, p + 1, cmd, data);
      assert Msgs(SendTo(s, first) + rest) == [first] + Msgs(rest);
    }
  }

  predicate IsCopy(n: nat, m: Msg, cmd: Cmd, data: seq<byte>) {
    m.src == 0 && m.cmd == cmd && m.data == data && m.dst < n
  }

  /** Every server is sent the broadcast exactly once. */
  lemma {:induction false} CopiesOnce(n: nat, p: nat, cmd: Cmd, data: seq<byte>)
    requires p <= n
    ensures forall m :: multiset(Copies(n, p, cmd, data))[m] == if IsCopy(n - p, m, cmd, data) then 1 else 0
    decreases n - p
  {
    if p < n {
      CopiesOnce(n, p + 1, cmd, data);
      var first := Msg(n - 1 - p, 0, cmd, data);
      var rest := Copies(n, p + 1, cmd, data);
      assert multiset([first] + rest) == multiset{first} + multiset(rest);
      forall m ensures multiset([first] + rest)[m] == if IsCopy(n - p, m, cmd, data) then 1 else 0 {
        assert IsCopy(n - p, m, cmd, data) <==> m == first || IsCopy(n - p - 1, m, cmd, data);
      }
    }
  }
}
