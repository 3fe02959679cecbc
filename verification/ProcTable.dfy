/** The rank-to-server tables of unit/test_server.c: their byte format on the
    pipes, what a receiver makes of it, and the lookup that routes a modex. */
module ProcTable {
  import opened Bytes

  /** PMIX_MAX_NSLEN; names come from snprintf with this size, so they are shorter. */
  const MAX_NSLEN: nat := 255
  const NAME_BYTES: nat := MAX_NSLEN + 1
  /** server id, name, ntasks, ltasks */
  const HEADER_BYTES: nat := INT_BYTES + NAME_BYTES + SIZE_BYTES + SIZE_BYTES

  datatype Nspace = Nspace(name: seq<byte>, ntasks: nat, ltasks: nat, taskMap: seq<int>)

  predicate IsName(name: seq<byte>) {
    |name| < MAX_NSLEN && 0 !in name
  }

  predicate SizesMatch(table: seq<Nspace>) {
    forall k | 0 <= k < |table| :: |table[k].taskMap| == table[k].ntasks
  }

  /** What a sender's own table satisfies before it packs it for `id`. */
  predicate Packable(id: nat, table: seq<Nspace>) {
    && id < INT_LIMIT
    && |table| < SIZE_LIMIT
    && SizesMatch(table)
    && forall k | 0 <= k < |table| :: PackableNs(id, table[k])
  }

  predicate PackableNs(id: nat, ns: Nspace) {
    && id < INT_LIMIT
    && IsName(ns.name)
    && |ns.taskMap| == ns.ntasks < INT_LIMIT
    && ns.ltasks == Owned(id, ns.taskMap, 0)
  }

  // ---------------------------------------------------------------- names

  function Pad(name: seq<byte>): (b: seq<byte>)
    requires |name| <= NAME_BYTES
    ensures |b| == NAME_BYTES
  {
    name + seq(NAME_BYTES - |name|, _ => 0)
  }

  function CString(b: seq<byte>): seq<byte> {
    if b == [] || b[0] == 0 then [] else [b[0]] + CString(b[1..])
  }

  lemma {:induction false} CStringOfPrefix(name: seq<byte>, tail: seq<byte>)
    requires 0 !in name && tail != [] && tail[0] == 0
    ensures CString(name + tail) == name
  {
    if name == [] {
      assert name + tail == tail;
    } else {
      assert (name + tail)[1..] == name[1..] + tail;
      CStringOfPrefix(name[1..], tail);
    }
  }

  lemma CStringOfPad(name: seq<byte>)
    requires IsName(name)
    ensures CString(Pad(name)) == name
    ensures CString(Pad(name)[..MAX_NSLEN]) == name
  {
    var zeros: seq<byte> := seq(NAME_BYTES - |name|, _ => 0);
    CStringOfPrefix(name, zeros);
    assert Pad(name)[..MAX_NSLEN] == name + zeros[..MAX_NSLEN - |name|];
    CStringOfPrefix(name, zeros[..MAX_NSLEN - |name|]);
  }

  /** Index of the first namespace called `name`, or the length of the table. */
  function Find(table: seq<Nspace>, name: seq<byte>): (k: nat)
    ensures k <= |table|
    ensures k < |table| ==> table[k].name == name
    ensures forall j | 0 <= j < k :: table[j].name != name
  {
    if table == [] then 0
    else if table[0].name == name then 0
    else 1 + Find(table[1..], name)
  }

  /** server_find_id: the owner of a rank; None where task_map is indexed out of bounds. */
  datatype Lookup = NotFound | OutOfBounds | Owner(id: int)

  function FindId(table: seq<Nspace>, name: seq<byte>, rank: int): Lookup {
    var k := Find(table, name);
    if k == |table| then NotFound
    else if 0 <= rank < |table[k].taskMap| then Owner(table[k].taskMap[rank])
    else OutOfBounds
  }

  // -------------------------------------------------------------- packing

  /** How many entries of the map, from rank `i` on, belong to `id`. */
  function Owned(id: int, map_: seq<int>, i: nat): nat
    requires i <= |map_|
    decreases |map_| - i
  {
    if i == |map_| then 0 else (if map_[i] == id then 1 else 0) + Owned(id, map_, i + 1)
  }

  function RankBytes(id: int, map_: seq<int>, i: nat): (b: seq<byte>)
    requires i <= |map_|
    ensures |b| == INT_BYTES * Owned(id, map_, i)
    decreases |map_| - i
  {
    if i == |map_| then []
    else (if map_[i] == id then EncodeInt(i) else []) + RankBytes(id, map_, i + 1)
  }

  lemma RankBytesStep(id: int, map_: seq<int>, i: nat, before: seq<byte>)
    requires i < |map_|
    ensures before + RankBytes(id, map_, i)
         == (if map_[i] == id then before + EncodeInt(i) else before) + RankBytes(id, map_, i + 1)
  {
    var here, rest := EncodeInt(i), RankBytes(id, map_, i + 1);
    if map_[i] == id {
      assert before + (here + rest) == before + here + rest;
    } else {
      assert [] + rest == rest;
    }
  }

  function Header(id: nat, ns: Nspace): (b: seq<byte>)
    requires |ns.name| <= NAME_BYTES
    ensures |b| == HEADER_BYTES
  {
    EncodeInt(id) + Pad(ns.name) + EncodeSize(ns.ntasks) + EncodeSize(ns.ltasks)
  }

  function PackNs(id: nat, ns: Nspace): seq<byte>
    requires |ns.name| <= NAME_BYTES
  {
    Header(id, ns) + RankBytes(id, ns.taskMap, 0)
  }

  predicate NamesFit(table: seq<Nspace>) {
    forall k | 0 <= k < |table| :: |table[k].name| <= NAME_BYTES
  }

  function PackList(id: nat, table: seq<Nspace>): seq<byte>
    requires NamesFit(table)
  {
    if table == [] then [] else PackNs(id, table[0]) + PackList(id, table[1..])
  }

  function PackProcs(id: nat, table: seq<Nspace>): seq<byte>
    requires NamesFit(table)
  {
    if table == [] then [] else EncodeSize(|table|) + PackList(id, table)
  }

  /** The buffer size that server_pack_procs computes before it writes. */
  function PackedSize(table: seq<Nspace>): nat {
    if table == [] then 0 else SIZE_BYTES + NAME_BYTES * |table| + FixedBytes(table)
  }

  function FixedBytes(table: seq<Nspace>): nat {
    if table == [] then 0
    else INT_BYTES + SIZE_BYTES + SIZE_BYTES + INT_BYTES * table[0].ltasks + FixedBytes(table[1..])
  }

  function SumLocal(table: seq<Nspace>): nat {
    if table == [] then 0 else table[0].ltasks + SumLocal(table[1..])
  }

  function SumOwned(id: nat, table: seq<Nspace>): nat {
    if table == [] then 0 else Owned(id, table[0].taskMap, 0) + SumOwned(id, table[1..])
  }

  lemma {:induction false} PackListSize(id: nat, table: seq<Nspace>)
    requires NamesFit(table)
    ensures |PackList(id, table)| + INT_BYTES * SumLocal(table)
         == NAME_BYTES * |table| + FixedBytes(table) + INT_BYTES * SumOwned(id, table)
  {
    if table != [] {
      PackListSize(id, table[1..]);
    }
  }

  /** The closing assertion of server_pack_procs holds exactly when the cached
      local counts add up to the ranks the maps assign to the sender. */
  lemma PackedSizeExact(id: nat, table: seq<Nspace>)
    requires NamesFit(table)
    ensures |PackProcs(id, table)| == PackedSize(table) <==> SumLocal(table) == SumOwned(id, table)
  {
    PackListSize(id, table);
  }

  lemma {:induction false} PackableSums(id: nat, table: seq<Nspace>)
    requires forall k | 0 <= k < |table| :: table[k].ltasks == Owned(id, table[k].taskMap, 0)
    ensures SumLocal(table) == SumOwned(id, table)
  {
    if table != [] {
      PackableSums(id, table[1..]);
    }
  }

  // ------------------------------------------------------------ unpacking

  datatype RankCursor = BadRanks | RankCursor(taskMap: seq<int>, rest: seq<byte>)
  datatype Cursor = Corrupt | Cursor(table: seq<Nspace>, rest: seq<byte>)
  datatype Unpacked = Garbled | Table(table: seq<Nspace>)

  function Unclaimed(n: nat): seq<int> {
    seq(n, _ => -1)
  }

  /** The inner loop: `k` ranks, each claimed by `id` unless already owned. */
  function UnpackRanks(taskMap: seq<int>, id: int, k: nat, b: seq<byte>): (c: RankCursor)
    ensures c.RankCursor? ==> |c.taskMap| == |taskMap| && |c.rest| <= |b|
    decreases k
  {
    if k == 0 then RankCursor(taskMap, b)
    else if |b| < INT_BYTES then BadRanks
    else
      var rank := DecodeInt(b[..INT_BYTES]);
      if !(0 <= rank < |taskMap|) then BadRanks
      else UnpackRanks(if taskMap[rank] >= 0 then taskMap else taskMap[rank := id], id, k - 1, b[INT_BYTES..])
  }

  /** The table with `taskMap` stored for namespace `k`, or in a new last entry. */
  function Store(table: seq<Nspace>, k: nat, fresh_: Nspace, taskMap: seq<int>): seq<Nspace> {
    if k < |table| then table[k := table[k].(taskMap := taskMap)] else table + [fresh_.(taskMap := taskMap)]
  }

  /** One namespace record; a known namespace must have the announced size. */
  function UnpackNs(table: seq<Nspace>, b: seq<byte>): (c: Cursor)
    ensures c.Cursor? ==> |c.rest| < |b|
  {
    if |b| < HEADER_BYTES then Corrupt
    else
      var field := b[4..260];
      var ntasks := Decode(b[260..268]);
      var ltasks := Decode(b[268..276]);
      var k := Find(table, CString(field));
      if k < |table| && table[k].ntasks != ntasks then Corrupt
      else
        var base := if k < |table| then table[k].taskMap else Unclaimed(ntasks);
        match UnpackRanks(base, DecodeInt(b[..4]), ltasks, b[276..])
        case BadRanks => Corrupt
        case RankCursor(m, rest) =>
          Cursor(Store(table, k, Nspace(CString(field[..MAX_NSLEN]), ntasks, ltasks, []), m), rest)
  }

  function UnpackList(table: seq<Nspace>, count: nat, b: seq<byte>): (c: Cursor)
    ensures c.Cursor? ==> |c.rest| <= |b|
    decreases count
  {
    if count == 0 then Cursor(table, b)
    else
      match UnpackNs(table, b)
      case Corrupt => Corrupt
      case Cursor(t, rest) => UnpackList(t, count - 1, rest)
  }

  lemma UnpackListStep(table: seq<Nspace>, count: nat, b: seq<byte>, c: Cursor)
    requires UnpackNs(table, b) == c
    ensures UnpackList(table, count + 1, b)
         == match c case Corrupt => Corrupt case Cursor(t, rest) => UnpackList(t, count, rest)
  {
  }

  /** server_unpack_procs on a whole buffer. */
  function UnpackProcs(table: seq<Nspace>, b: seq<byte>): (u: Unpacked)
    decreases |b|
  {
    if b == [] then Table(table)
    else if |b| < SIZE_BYTES then Garbled
    else
      match UnpackList(table, Decode(b[..SIZE_BYTES]), b[SIZE_BYTES..])
      case Corrupt => Garbled
      case Cursor(t, rest) => UnpackProcs(t, rest)
  }

  // ---------------------------------------------------- what a buffer means

  /** Ranks from `i` on that `src` gives to `id`, taken where still unclaimed. */
  function ClaimFrom(taskMap: seq<int>, id: nat, src: seq<int>, i: nat): (m: seq<int>)
    requires |taskMap| == |src|
    ensures |m| == |src|
    ensures forall r | 0 <= r < |src| ::
              m[r] == if i <= r && src[r] == id && taskMap[r] < 0 then id else taskMap[r]
  {
    seq(|src|, r requires 0 <= r < |src| => if i <= r && src[r] == id && taskMap[r] < 0 then id else taskMap[r])
  }

  function MergeNs(table: seq<Nspace>, id: nat, ns: Nspace): (u: Unpacked)
    requires SizesMatch(table) && |ns.taskMap| == ns.ntasks
    ensures u.Table? ==> SizesMatch(u.table)
  {
    var k := Find(table, ns.name);
    if k == |table| then
      Table(table + [ns.(taskMap := ClaimFrom(Unclaimed(ns.ntasks), id, ns.taskMap, 0))])
    else if table[k].ntasks != ns.ntasks then Garbled
    else Table(table[k := table[k].(taskMap := ClaimFrom(table[k].taskMap, id, ns.taskMap, 0))])
  }

  /** A sender's table laid over the receiver's, namespace by namespace. */
  function Merge(table: seq<Nspace>, id: nat, sent: seq<Nspace>): (u: Unpacked)
    requires SizesMatch(table) && SizesMatch(sent)
    ensures u.Table? ==> SizesMatch(u.table)
    decreases |sent|
  {
    if sent == [] then Table(table)
    else
      match MergeNs(table, id, sent[0])
      case Garbled => Garbled
      case Table(t) => Merge(t, id, sent[1..])
  }

  lemma UnpackOneRank(taskMap: seq<int>, id: nat, k: nat, rank: nat, tail: seq<byte>)
    requires rank < |taskMap| && rank < INT_LIMIT
    ensures UnpackRanks(taskMap, id, k + 1, EncodeInt(rank) + tail)
         == UnpackRanks(if taskMap[rank] >= 0 then taskMap else taskMap[rank := id], id, k, tail)
  {
    var b := EncodeInt(rank) + tail;
    assert b[..INT_BYTES] == EncodeInt(rank) && b[INT_BYTES..] == tail;
    DecodeEncodeInt(rank);
  }

  function ClaimOne(taskMap: seq<int>, id: nat, src: seq<int>, i: nat): (m: seq<int>)
    requires i < |src| == |taskMap|
    ensures |m| == |taskMap|
  {
    if src[i] == id && taskMap[i] < 0 then taskMap[i := id] else taskMap
  }

  lemma ClaimNext(taskMap: seq<int>, id: nat, src: seq<int>, i: nat)
    requires i < |src| == |taskMap|
    ensures ClaimFrom(ClaimOne(taskMap, id, src, i), id, src, i + 1) == ClaimFrom(taskMap, id, src, i)
  {
  }

  lemma UnpackNextRank(taskMap: seq<int>, id: nat, src: seq<int>, i: nat, rest: seq<byte>)
    requires i < |src| == |taskMap| < INT_LIMIT
    ensures UnpackRanks(taskMap, id, Owned(id, src, i), RankBytes(id, src, i) + rest)
         == UnpackRanks(ClaimOne(taskMap, id, src, i), id, Owned(id, src, i + 1), RankBytes(id, src, i + 1) + rest)
  {
    var tail := RankBytes(id, src, i + 1);
    if src[i] == id {
      assert EncodeInt(i) + tail + rest == EncodeInt(i) + (tail + rest);
      UnpackOneRank(taskMap, id, Owned(id, src, i + 1), i, tail + rest);
    } else {
      assert [] + tail == tail;
    }
  }

  lemma {:induction false} UnpackRankBytes(taskMap: seq<int>, id: nat, src: seq<int>, i: nat, rest: seq<byte>)
    requires |taskMap| == |src| < INT_LIMIT && i <= |src|
    ensures UnpackRanks(taskMap, id, Owned(id, src, i), RankBytes(id, src, i) + rest)
         == RankCursor(ClaimFrom(taskMap, id, src, i), rest)
    decreases |src| - i
  {
    if i == |src| {
      assert RankBytes(id, src, i) + rest == rest;
      assert ClaimFrom(taskMap, id, src, i) == taskMap;
    } else {
      UnpackNextRank(taskMap, id, src, i, rest);
      ClaimNext(taskMap, id, src, i);
      UnpackRankBytes(ClaimOne(taskMap, id, src, i), id, src, i + 1, rest);
    }
  }

  lemma HeaderFields(id: nat, ns: Nspace, rest: seq<byte>)
    requires |ns.name| <= NAME_BYTES
    ensures var b := Header(id, ns) + rest;
            && b[..4] == EncodeInt(id) && b[4..260] == Pad(ns.name)
            && b[260..268] == EncodeSize(ns.ntasks) && b[268..276] == EncodeSize(ns.ltasks)
            && b[276..] == rest
  {
  }

  lemma UnpackPackNs(table: seq<Nspace>, id: nat, ns: Nspace, rest: seq<byte>)
    requires SizesMatch(table) && PackableNs(id, ns)
    ensures UnpackNs(table, PackNs(id, ns) + rest)
         == match MergeNs(table, id, ns) case Garbled => Corrupt case Table(t) => Cursor(t, rest)
  {
    var tail := RankBytes(id, ns.taskMap, 0) + rest;
    assert PackNs(id, ns) + rest == Header(id, ns) + tail;
    HeaderFields(id, ns, tail);
    DecodeEncodeInt(id);
    DecodeEncodeSize(ns.ntasks);
    OwnedAtMost(id, ns.taskMap, 0);
    DecodeEncodeSize(ns.ltasks);
    CStringOfPad(ns.name);
    var k := Find(table, ns.name);
    var base := if k < |table| then table[k].taskMap else Unclaimed(ns.ntasks);
    if |base| == ns.ntasks {
      UnpackRankBytes(base, id, ns.taskMap, 0, rest);
    }
  }

  lemma {:induction false} OwnedAtMost(id: int, map_: seq<int>, i: nat)
    requires i <= |map_|
    ensures Owned(id, map_, i) <= |map_| - i
    decreases |map_| - i
  {
    if i < |map_| {
      OwnedAtMost(id, map_, i + 1);
    }
  }

  lemma UnpackOneNs(table: seq<Nspace>, id: nat, count: nat, ns: Nspace, tail: seq<byte>)
    requires SizesMatch(table) && PackableNs(id, ns)
    ensures UnpackList(table, count + 1, PackNs(id, ns) + tail)
         == match MergeNs(table, id, ns) case Garbled => Corrupt case Table(t) => UnpackList(t, count, tail)
  {
    UnpackPackNs(table, id, ns, tail);
  }

  lemma {:induction false} UnpackPackList(table: seq<Nspace>, id: nat, sent: seq<Nspace>, rest: seq<byte>)
    requires SizesMatch(table) && Packable(id, sent)
    ensures UnpackList(table, |sent|, PackList(id, sent) + rest)
         == match Merge(table, id, sent) case Garbled => Corrupt case Table(t) => Cursor(t, rest)
    decreases |sent|
  {
    if sent == [] {
      assert PackList(id, sent) + rest == rest;
    } else {
      var tail := PackList(id, sent[1..]) + rest;
      assert PackList(id, sent) + rest == PackNs(id, sent[0]) + tail;
      UnpackOneNs(table, id, |sent| - 1, sent[0], tail);
      var m := MergeNs(table, id, sent[0]);
      if m.Table? {
        UnpackPackList(m.table, id, sent[1..], rest);
      }
    }
  }

  lemma UnpackFramed(table: seq<Nspace>, n: nat, body: seq<byte>)
    requires n < SIZE_LIMIT
    ensures UnpackProcs(table, EncodeSize(n) + body)
         == match UnpackList(table, n, body) case Corrupt => Garbled case Cursor(t, rest) => UnpackProcs(t, rest)
  {
    var b := EncodeSize(n) + body;
    assert b[..SIZE_BYTES] == EncodeSize(n) && b[SIZE_BYTES..] == body;
    DecodeEncodeSize(n);
  }

  /** Receiving one packed table, with anything behind it, is merging that table
      and going on with what is behind it: exactly the bytes written are consumed. */
  lemma UnpackPackProcs(table: seq<Nspace>, id: nat, sent: seq<Nspace>, rest: seq<byte>)
    requires SizesMatch(table) && Packable(id, sent)
    ensures UnpackProcs(table, PackProcs(id, sent) + rest)
         == match Merge(table, id, sent) case Garbled => Garbled case Table(t) => UnpackProcs(t, rest)
  {
    if sent == [] {
      assert PackProcs(id, sent) + rest == rest;
    } else {
      var body := PackList(id, sent) + rest;
      assert PackProcs(id, sent) + rest == EncodeSize(|sent|) + body;
      UnpackFramed(table, |sent|, body);
      UnpackPackList(table, id, sent, rest);
    }
  }

  predicate DistinctNames(table: seq<Nspace>) {
    forall j, k | 0 <= j < k < |table| :: table[j].name != table[k].name
  }

  /** The sender's view, with every rank of another server blanked. */
  function OwnedView(id: nat, sent: seq<Nspace>): (v: seq<Nspace>)
    requires SizesMatch(sent)
    ensures |v| == |sent|
  {
    seq(|sent|, k requires 0 <= k < |sent| =>
      sent[k].(taskMap := ClaimFrom(Unclaimed(sent[k].ntasks), id, sent[k].taskMap, 0)))
  }

  lemma {:induction false} MergeIntoPrefix(id: nat, sent: seq<Nspace>, k: nat)
    requires SizesMatch(sent) && DistinctNames(sent) && k <= |sent|
    ensures SizesMatch(OwnedView(id, sent)[..k])
    ensures Merge(OwnedView(id, sent)[..k], id, sent[k..]) == Table(OwnedView(id, sent))
    decreases |sent| - k
  {
    var view := OwnedView(id, sent);
    if k == |sent| {
      assert view[..k] == view;
    } else {
      assert view[..k] + [view[k]] == view[..k + 1];
      assert sent[k..][1..] == sent[k + 1..];
      MergeIntoPrefix(id, sent, k + 1);
    }
  }

  /** Round trip: an empty receiver rebuilds every namespace of the sender, in
      order, with its sizes and exactly the sender's own ranks. */
  lemma RoundTrip(id: nat, sent: seq<Nspace>)
    requires Packable(id, sent) && DistinctNames(sent)
    ensures UnpackProcs([], PackProcs(id, sent)) == Table(OwnedView(id, sent))
  {
    assert PackProcs(id, sent) + [] == PackProcs(id, sent);
    UnpackPackProcs([], id, sent, []);
    MergeIntoPrefix(id, sent, 0);
    assert OwnedView(id, sent)[..0] == [] && sent[0..] == sent;
  }

  // ------------------------------------------------------- direct modex body

  const DMDX_BYTES: nat := INT_BYTES + NAME_BYTES + INT_BYTES

  datatype Proc = Proc(name: seq<byte>, rank: int)

  function PackDmdx(sender: nat, p: Proc): (b: seq<byte>)
    requires |p.name| <= NAME_BYTES && p.rank >= 0
    ensures |b| == DMDX_BYTES
  {
    EncodeInt(sender) + Pad(p.name) + EncodeInt(p.rank)
  }

  function UnpackDmdx(b: seq<byte>): (int, Proc)
    requires |b| == DMDX_BYTES
  {
    (DecodeInt(b[..4]), Proc(CString(b[4..260]), DecodeInt(b[260..])))
  }

  lemma DmdxRoundTrip(sender: nat, p: Proc)
    requires IsName(p.name) && 0 <= p.rank < INT_LIMIT && sender < INT_LIMIT
    ensures UnpackDmdx(PackDmdx(sender, p)) == (sender, p)
  {
    var b := PackDmdx(sender, p);
    assert b[..4] == EncodeInt(sender) && b[4..260] == Pad(p.name) && b[260..] == EncodeInt(p.rank);
    DecodeEncodeInt(sender);
    DecodeEncodeInt(p.rank);
    CStringOfPad(p.name);
  }
}
