/** One exchange of tables (unit/test_server.c): the hub puts the buffers of all servers
    one after the other, and every server lays the result over its own table. */
module Exchange {
  import opened Bytes
  import opened ProcTable

  predicate Below(order: seq<nat>, n: nat) {
    forall k | 0 <= k < |order| :: order[k] < n
  }

  /** The buffers of `order`, one after the other. */
  function Gather(order: seq<nat>, data: seq<seq<byte>>): seq<byte>
    requires Below(order, |data|)
  {
    if order == [] then [] else data[order[0]] + Gather(order[1..], data)
  }

  lemma {:induction false} GatherAppend(order: seq<nat>, j: nat, data: seq<seq<byte>>)
    requires j < |data| && Below(order, |data|)
    ensures Gather(order + [j], data) == Gather(order, data) + data[j]
  {
    if order == [] {
      assert order + [j] == [j];
      assert [j][1..] == [];
    } else {
      assert (order + [j])[1..] == order[1..] + [j];
      GatherAppend(order[1..], j, data);
    }
  }

  function Elements(order: seq<nat>): set<nat> {
    set j | j in order
  }

  // ---------------------------------------------------------------- claims

  /** Server `j`'s own namespace before the exchange: some ranks are its own, the others open. */
  predicate OwnClaims(j: nat, ns: Nspace) {
    && PackableNs(j, ns)
    && forall r | 0 <= r < |ns.taskMap| :: ns.taskMap[r] == j || ns.taskMap[r] == -1
  }

  predicate Claims(locals: seq<Nspace>, j: nat, r: nat) {
    j < |locals| && r < |locals[j].taskMap| && locals[j].taskMap[r] == j
  }

  ghost predicate ClaimedOnce(locals: seq<Nspace>) {
    forall r, a, b | Claims(locals, a, r) && Claims(locals, b, r) :: a == b
  }

  /** The first server of `order` to claim rank `r`, or -1. */
  function FirstClaim(order: seq<nat>, locals: seq<Nspace>, r: nat): (k: int)
    ensures k == -1 || (k >= 0 && k in order && Claims(locals, k, r))
    ensures k == -1 ==> forall j | j in order :: !Claims(locals, j, r)
  {
    if order == [] then -1
    else if Claims(locals, order[0], r) then order[0]
    else FirstClaim(order[1..], locals, r)
  }

  /** A server's map once the tables of `order` have been laid over it. */
  function MergedMap(own: seq<int>, order: seq<nat>, locals: seq<Nspace>): (m: seq<int>)
    ensures |m| == |own|
    ensures forall r | 0 <= r < |own| :: m[r] == if own[r] >= 0 then own[r] else FirstClaim(order, locals, r)
  {
    seq(|own|, r requires 0 <= r < |own| => if own[r] >= 0 then own[r] else FirstClaim(order, locals, r))
  }

  function Merged(ns: Nspace, order: seq<nat>, locals: seq<Nspace>): Nspace {
    ns.(taskMap := MergedMap(ns.taskMap, order, locals))
  }

  /** Laying over the first table and then the rest is laying over all of them. */
  lemma MergeFirst(ns: Nspace, order: seq<nat>, locals: seq<Nspace>)
    requires order != [] && order[0] < |locals| && |locals[order[0]].taskMap| == |ns.taskMap|
    requires forall r | 0 <= r < |ns.taskMap| :: ns.taskMap[r] >= -1
    ensures var m := ClaimFrom(ns.taskMap, order[0], locals[order[0]].taskMap, 0);
            && (forall r | 0 <= r < |m| :: m[r] >= -1)
            && Merged(ns.(taskMap := m), order[1..], locals) == Merged(ns, order, locals)
  {
    var m := ClaimFrom(ns.taskMap, order[0], locals[order[0]].taskMap, 0);
    assert MergedMap(m, order[1..], locals) == MergedMap(ns.taskMap, order, locals);
  }

  /** Where no rank is claimed twice, an owner is the one claimant. */
  lemma MergedOnce(order: seq<nat>, locals: seq<Nspace>, i: nat, r: nat)
    requires ClaimedOnce(locals) && i < |locals| && OwnClaims(i, locals[i]) && r < |locals[i].taskMap|
    requires forall j: nat | j < |locals| :: j in order
    ensures Merged(locals[i], order, locals).taskMap[r] == FirstClaim(order, locals, r)
    ensures forall k | Claims(locals, k, r) :: FirstClaim(order, locals, r) == k
  {
    assert locals[i].taskMap[r] >= 0 ==> Claims(locals, i, r);
  }

  // ------------------------------------------------------------- one buffer

  predicate SameJob(a: Nspace, b: Nspace) {
    a.name == b.name && a.ntasks == b.ntasks == |a.taskMap| == |b.taskMap|
  }

  /** The same namespaces with the same sizes. */
  predicate Parallel(a: seq<Nspace>, b: seq<Nspace>) {
    |a| == |b| && forall x | 0 <= x < |a| :: SameJob(a[x], b[x])
  }

  /** Whatever `id` claims in `sent` is taken already in `table`. */
  predicate Taken(table: seq<Nspace>, id: nat, sent: seq<Nspace>)
    requires Parallel(table, sent)
  {
    forall x, r | 0 <= x < |sent| && 0 <= r < |sent[x].taskMap| && sent[x].taskMap[r] == id :: table[x].taskMap[r] >= 0
  }

  lemma TakenStays(table: seq<Nspace>, id: nat, sent: seq<Nspace>, x: nat)
    requires Parallel(table, sent) && DistinctNames(table) && x < |table|
    requires forall r | 0 <= r < |sent[x].taskMap| && sent[x].taskMap[r] == id :: table[x].taskMap[r] >= 0
    ensures MergeNs(table, id, sent[x]) == Table(table)
  {
    assert Find(table, sent[x].name) == x;
    assert ClaimFrom(table[x].taskMap, id, sent[x].taskMap, 0) == table[x].taskMap;
    assert table[x := table[x]] == table;
  }

  /** Of a table whose older namespaces bring nothing new, only the last one counts. */
  lemma {:induction false} MergeLast(old_: seq<Nspace>, ns: Nspace, id: nat, sent: seq<Nspace>, last: Nspace, x: nat)
    requires Parallel(old_, sent) && Taken(old_, id, sent) && DistinctNames(old_ + [ns])
    requires SameJob(ns, last) && x <= |sent|
    ensures SizesMatch(old_ + [ns]) && SizesMatch((sent + [last])[x..])
    ensures Merge(old_ + [ns], id, (sent + [last])[x..])
         == Table(old_ + [ns.(taskMap := ClaimFrom(ns.taskMap, id, last.taskMap, 0))])
    decreases |sent| - x
  {
    var table, all := old_ + [ns], sent + [last];
    assert all[x..][1..] == all[x + 1..] && all[x..][0] == all[x];
    if x < |sent| {
      assert Parallel(table, all);
      TakenStays(table, id, all, x);
      MergeLast(old_, ns, id, sent, last, x + 1);
    } else {
      assert Find(table, last.name) == x;
      assert table[x := ns.(taskMap := ClaimFrom(ns.taskMap, id, last.taskMap, 0))]
          == old_ + [ns.(taskMap := ClaimFrom(ns.taskMap, id, last.taskMap, 0))];
    }
  }

  /** Server `j` sends its older tables and, last, what it launched now. */
  ghost predicate Sends(known: seq<Nspace>, ns: Nspace, j: nat, old_: seq<Nspace>, local: Nspace, data: seq<byte>) {
    && Parallel(known, old_) && Taken(known, j, old_) && SameJob(ns, local)
    && Packable(j, old_ + [local])
    && NamesFit(old_ + [local]) && data == PackProcs(j, old_ + [local])
  }

  /** Unpacking all buffers, in whatever order they came, settles the namespace launched now. */
  lemma {:induction false} UnpackRound(known: seq<Nspace>, ns: Nspace, order: seq<nat>, olds: seq<seq<Nspace>>,
                                       locals: seq<Nspace>, data: seq<seq<byte>>)
    requires |olds| == |locals| == |data| && Below(order, |data|) && DistinctNames(known + [ns])
    requires SizesMatch(known + [ns]) && forall r | 0 <= r < |ns.taskMap| :: ns.taskMap[r] >= -1
    requires forall j | 0 <= j < |data| :: Sends(known, ns, j, olds[j], locals[j], data[j])
    ensures UnpackProcs(known + [ns], Gather(order, data)) == Table(known + [Merged(ns, order, locals)])
    decreases |order|
  {
    if order == [] {
      assert Merged(ns, order, locals).taskMap == ns.taskMap;
    } else {
      var j := order[0];
      assert Sends(known, ns, j, olds[j], locals[j], data[j]);
      var next := ns.(taskMap := ClaimFrom(ns.taskMap, j, locals[j].taskMap, 0));
      MergeFirst(ns, order, locals);
      UnpackPackProcs(known + [ns], j, olds[j] + [locals[j]], Gather(order[1..], data));
      MergeLast(known, ns, j, olds[j], locals[j], 0);
      assert (olds[j] + [locals[j]])[0..] == olds[j] + [locals[j]];
      SendsOn(known, ns, next, olds, locals, data);
      UnpackRound(known, next, order[1..], olds, locals, data);
    }
  }

  lemma SendsOn(known: seq<Nspace>, ns: Nspace, next: Nspace, olds: seq<seq<Nspace>>, locals: seq<Nspace>, data: seq<seq<byte>>)
    requires |olds| == |locals| == |data| && DistinctNames(known + [ns]) && SizesMatch(known + [ns])
    requires forall j | 0 <= j < |data| :: Sends(known, ns, j, olds[j], locals[j], data[j])
    requires next == ns.(taskMap := next.taskMap) && |next.taskMap| == |ns.taskMap|
    ensures DistinctNames(known + [next]) && SizesMatch(known + [next])
    ensures forall j | 0 <= j < |data| :: Sends(known, next, j, olds[j], locals[j], data[j])
  {
    assert (known + [ns])[|known|] == ns;
    forall k | 0 <= k < |known| + 1
      ensures (known + [next])[k].name == (known + [ns])[k].name
      ensures |(known + [next])[k].taskMap| == (known + [next])[k].ntasks
    {
    }
    forall j | 0 <= j < |data| ensures Sends(known, next, j, olds[j], locals[j], data[j]) {
      assert [ns][0] == ns && [next][0] == next && [locals[j]][0] == locals[j];
    }
  }
}
