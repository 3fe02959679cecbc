/** How nprocs ranks are split over the servers (unit/test_server.c, unit/pmix_test.c),
    and why exchanging the local tables makes all servers agree on every owner. */
module Partition {
  import opened Bytes
  import opened ProcTable
  import opened Exchange

  /** params->lsize of server `i`. */
  function LocalSize(nprocs: nat, n: nat, i: nat): nat
    requires n > 0
  {
    if nprocs % n > i then nprocs / n + 1 else nprocs / n
  }

  /** The base rank that the loop in main accumulates for server `i`. */
  function BaseRank(nprocs: nat, n: nat, i: nat): nat
    requires n > 0
  {
    if i == 0 then 0 else BaseRank(nprocs, n, i - 1) + LocalSize(nprocs, n, i - 1)
  }

  method ComputeBaseRank(nprocs: nat, nservers: nat, myServerId: nat) returns (baseRank: nat)
    requires myServerId < nservers
    ensures baseRank == BaseRank(nprocs, nservers, myServerId)
    ensures baseRank + LocalSize(nprocs, nservers, myServerId) <= nprocs
  {
    baseRank := 0;
    for i := 0 to myServerId
      invariant baseRank == BaseRank(nprocs, nservers, i)
    {
      baseRank := baseRank + if nprocs % nservers > i then nprocs / nservers + 1 else nprocs / nservers;
    }
    BaseMonotone(nprocs, nservers, myServerId + 1, nservers);
    BasesCover(nprocs, nservers);
  }

  lemma {:induction false} BaseClosedForm(nprocs: nat, n: nat, i: nat)
    requires 0 < n && i <= n
    ensures BaseRank(nprocs, n, i) == i * (nprocs / n) + if i < nprocs % n then i else nprocs % n
  {
    if i > 0 {
      BaseClosedForm(nprocs, n, i - 1);
      assert i * (nprocs / n) == (i - 1) * (nprocs / n) + nprocs / n;
    }
  }

  lemma BasesCover(nprocs: nat, n: nat)
    requires n > 0
    ensures BaseRank(nprocs, n, n) == nprocs
  {
    BaseClosedForm(nprocs, n, n);
  }

  lemma {:induction false} BaseMonotone(nprocs: nat, n: nat, i: nat, j: nat)
    requires 0 < n && i <= j
    ensures BaseRank(nprocs, n, i) <= BaseRank(nprocs, n, j)
    decreases j
  {
    if i < j {
      BaseMonotone(nprocs, n, i, j - 1);
    }
  }

  predicate InShare(nprocs: nat, n: nat, i: nat, rank: nat)
    requires n > 0
  {
    BaseRank(nprocs, n, i) <= rank < BaseRank(nprocs, n, i) + LocalSize(nprocs, n, i)
  }

  function SearchOwner(nprocs: nat, n: nat, rank: nat, i: nat): (k: nat)
    requires i < n && BaseRank(nprocs, n, i) <= rank < BaseRank(nprocs, n, n)
    ensures i <= k < n && InShare(nprocs, n, k, rank)
    decreases n - i
  {
    if rank < BaseRank(nprocs, n, i + 1) then i else SearchOwner(nprocs, n, rank, i + 1)
  }

  function OwnerOf(nprocs: nat, n: nat, rank: nat): (k: nat)
    requires n > 0 && rank < nprocs
    ensures k < n && InShare(nprocs, n, k, rank)
  {
    BasesCover(nprocs, n);
    SearchOwner(nprocs, n, rank, 0)
  }

  /** The quotient/remainder intervals partition [0, nprocs). */
  lemma SharesPartition(nprocs: nat, n: nat, rank: nat, i: nat)
    requires n > 0 && i < n
    ensures InShare(nprocs, n, i, rank) <==> rank < nprocs && OwnerOf(nprocs, n, rank) == i
  {
    BasesCover(nprocs, n);
    BaseMonotone(nprocs, n, i + 1, n);
    if InShare(nprocs, n, i, rank) {
      var k := OwnerOf(nprocs, n, rank);
      if k < i {
        BaseMonotone(nprocs, n, k + 1, i);
      } else if i < k {
        BaseMonotone(nprocs, n, i + 1, k);
      }
    }
  }

  // -------------------------------------------------------- local tables

  /** task_map as server_launch_clients fills it on server `i`. */
  function LocalMap(nprocs: nat, n: nat, i: nat): (m: seq<int>)
    requires n > 0
    ensures |m| == nprocs
  {
    seq(nprocs, r requires 0 <= r < nprocs => if InShare(nprocs, n, i, r) then i else -1)
  }

  function LocalNs(name: seq<byte>, nprocs: nat, n: nat, i: nat): Nspace
    requires n > 0
  {
    Nspace(name, nprocs, LocalSize(nprocs, n, i), LocalMap(nprocs, n, i))
  }

  method FillTaskMap(nprocs: nat, nservers: nat, myServerId: nat) returns (taskMap: array<int>)
    requires myServerId < nservers
    ensures fresh(taskMap) && taskMap[..] == LocalMap(nprocs, nservers, myServerId)
  {
    var baseRank := ComputeBaseRank(nprocs, nservers, myServerId);
    var localSize := LocalSize(nprocs, nservers, myServerId);
    taskMap := new int[nprocs](_ => -1);
    for k := 0 to localSize
      invariant forall r | 0 <= r < nprocs :: taskMap[r] == if baseRank <= r < baseRank + k then myServerId else -1
    {
      taskMap[baseRank + k] := myServerId;
    }
  }

  function AgreedMap(nprocs: nat, n: nat): (m: seq<int>)
    requires n > 0
    ensures |m| == nprocs
  {
    seq(nprocs, r requires 0 <= r < nprocs => OwnerOf(nprocs, n, r))
  }

  lemma {:induction false} OwnedInterval(id: int, m: seq<int>, lo: nat, hi: nat, i: nat)
    requires lo <= hi <= |m| && i <= |m|
    requires forall r | 0 <= r < |m| :: m[r] == id <==> lo <= r < hi
    ensures Owned(id, m, i) == if i <= lo then hi - lo else if i <= hi then hi - i else 0
    decreases |m| - i
  {
    if i < |m| {
      OwnedInterval(id, m, lo, hi, i + 1);
    }
  }

  lemma LocalNsPackable(name: seq<byte>, nprocs: nat, n: nat, i: nat)
    requires IsName(name) && nprocs < INT_LIMIT && i < n <= INT_LIMIT
    ensures Packable(i, [LocalNs(name, nprocs, n, i)])
  {
    BasesCover(nprocs, n);
    BaseMonotone(nprocs, n, i + 1, n);
    var lo := BaseRank(nprocs, n, i);
    OwnedInterval(i, LocalMap(nprocs, n, i), lo, lo + LocalSize(nprocs, n, i), 0);
  }

  // ----------------------------------------------------------- agreement

  function Shares(name: seq<byte>, nprocs: nat, n: nat): (locals: seq<Nspace>)
    requires n > 0
    ensures |locals| == n
  {
    seq(n, j requires 0 <= j < n => LocalNs(name, nprocs, n, j))
  }

  /** Every rank is claimed by the server whose interval it is in, and by no other. */
  lemma SharesClaims(name: seq<byte>, nprocs: nat, n: nat, k: nat, r: nat)
    requires n > 0
    ensures Claims(Shares(name, nprocs, n), k, r) <==> r < nprocs && OwnerOf(nprocs, n, r) == k
  {
    if k < n {
      SharesPartition(nprocs, n, r, k);
    }
  }

  lemma SharesMerge(name: seq<byte>, nprocs: nat, n: nat, i: nat, order: seq<nat>)
    requires i < n && forall j: nat | j < n :: j in order
    ensures Merged(LocalNs(name, nprocs, n, i), order, Shares(name, nprocs, n))
         == Nspace(name, nprocs, LocalSize(nprocs, n, i), AgreedMap(nprocs, n))
  {
    var locals := Shares(name, nprocs, n);
    var merged := Merged(locals[i], order, locals).taskMap;
    forall r | 0 <= r < nprocs ensures merged[r] == OwnerOf(nprocs, n, r) {
      SharesClaims(name, nprocs, n, i, r);
      SharesClaims(name, nprocs, n, OwnerOf(nprocs, n, r), r);
      var k := FirstClaim(order, locals, r);
      if k >= 0 {
        SharesClaims(name, nprocs, n, k, r);
      }
    }
    assert merged == AgreedMap(nprocs, n);
  }

  /** Whatever the order in which the hub gathered the n packed tables, unpacking
      the result over server i's own table gives every server the same total map. */
  lemma GatherAgrees(name: seq<byte>, nprocs: nat, n: nat, i: nat, order: seq<nat>, data: seq<seq<byte>>)
    requires IsName(name) && nprocs < INT_LIMIT && i < n <= INT_LIMIT && |data| == n
    requires forall j | 0 <= j < n :: data[j] == PackProcs(j, [LocalNs(name, nprocs, n, j)])
    requires Below(order, n) && forall j: nat | j < n :: j in order
    ensures UnpackProcs([LocalNs(name, nprocs, n, i)], Gather(order, data))
         == Table([Nspace(name, nprocs, LocalSize(nprocs, n, i), AgreedMap(nprocs, n))])
  {
    var locals, ns := Shares(name, nprocs, n), LocalNs(name, nprocs, n, i);
    var olds := seq(n, _ => []);
    forall j | 0 <= j < n ensures Sends([], ns, j, olds[j], locals[j], data[j]) {
      LocalNsPackable(name, nprocs, n, j);
      assert [] + [locals[j]] == [locals[j]];
    }
    assert [] + [ns] == [ns] && [] + [Merged(ns, order, locals)] == [Merged(ns, order, locals)];
    UnpackRound([], ns, order, olds, locals, data);
    SharesMerge(name, nprocs, n, i, order);
  }
}
