/** server_pack_procs, server_unpack_procs and server_find_id as loops over the
    server_nspace list. */
module NspaceTables {
  import opened Bytes
  import opened ProcTable

  class NspaceTable {
    var items: seq<Nspace>

    constructor ()
      ensures items == []
    {
      items := [];
    }

    /** The position of the namespace called `name`, or the length of the list. */
    method FindName(name: seq<byte>) returns (k: nat)
      ensures k == Find(items, name)
    {
      k := 0;
      while k < |items|
        invariant k <= |items|
        invariant Find(items, name) == k + Find(items[k..], name)
      {
        if items[k].name == name {
          return;
        }
        assert items[k..][1..] == items[k + 1..];
        k := k + 1;
      }
    }

    method FindServer(name: seq<byte>, rank: int) returns (id: Lookup)
      ensures id == FindId(items, name, rank)
    {
      var k := FindName(name);
      if k == |items| {
        return NotFound;
      }
      id := if 0 <= rank < |items[k].taskMap| then Owner(items[k].taskMap[rank]) else OutOfBounds;
    }

    static method PackRanks(serverId: nat, taskMap: seq<int>) returns (ranks: seq<byte>)
      ensures ranks == RankBytes(serverId, taskMap, 0)
    {
      ranks := [];
      ghost var all := RankBytes(serverId, taskMap, 0);
      var i := 0;
      while i < |taskMap|
        invariant i <= |taskMap|
        invariant ranks + RankBytes(serverId, taskMap, i) == all
      {
        RankBytesStep(serverId, taskMap, i, ranks);
        if taskMap[i] == serverId {
          ranks := ranks + EncodeInt(i);
        }
        i := i + 1;
      }
    }

    static method PackRecord(serverId: nat, ns: Nspace) returns (record: seq<byte>)
      requires |ns.name| <= NAME_BYTES && |ns.taskMap| == ns.ntasks
      ensures record == PackNs(serverId, ns)
    {
      record := EncodeInt(serverId) + Pad(ns.name) + EncodeSize(ns.ntasks) + EncodeSize(ns.ltasks);
      var ranks := PackRanks(serverId, ns.taskMap);
      record := record + ranks;
    }

    method Pack(serverId: nat) returns (buf: seq<byte>)
      requires NamesFit(items) && SizesMatch(items)
      ensures buf == PackProcs(serverId, items)
      ensures |buf| == PackedSize(items) <==> SumLocal(items) == SumOwned(serverId, items)
    {
      PackedSizeExact(serverId, items);
      if |items| == 0 {
        return [];
      }
      buf := EncodeSize(|items|);
      var records := PackRecords(serverId);
      buf := buf + records;
    }

    method PackRecords(serverId: nat) returns (records: seq<byte>)
      requires NamesFit(items) && SizesMatch(items)
      ensures records == PackList(serverId, items)
    {
      records := [];
      var k := 0;
      while k < |items|
        invariant k <= |items|
        invariant records + PackList(serverId, items[k..]) == PackList(serverId, items)
      {
        assert items[k..][1..] == items[k + 1..];
        var record := PackRecord(serverId, items[k]);
        ghost var rest := PackList(serverId, items[k + 1..]);
        assert records + (record + rest) == (records + record) + rest;
        records := records + record;
        k := k + 1;
      }
    }

    /** One namespace record at `ptr`; `ok` is false where the C code would read
        or index out of bounds or fail its assertion. */
    method UnpackOne(buf: seq<byte>, ptr: nat) returns (ok: bool, next: nat)
      requires ptr <= |buf|
      modifies this
      ensures ok ==> ptr < next <= |buf|
      ensures UnpackNs(old(items), buf[ptr..]) == if ok then Cursor(items, buf[next..]) else Corrupt
    {
      ghost var b := buf[ptr..];
      if |buf| - ptr < HEADER_BYTES {
        return false, ptr;
      }
      var serverId := DecodeInt(buf[ptr..ptr + 4]);
      var field := buf[ptr + 4..ptr + 260];
      var ntasks := Decode(buf[ptr + 260..ptr + 268]);
      var ltasks := Decode(buf[ptr + 268..ptr + 276]);
      assert b[..4] == buf[ptr..ptr + 4] && b[4..260] == field;
      assert b[260..268] == buf[ptr + 260..ptr + 268] && b[268..276] == buf[ptr + 268..ptr + 276];
      next := ptr + HEADER_BYTES;
      assert b[276..] == buf[next..];
      var k := FindName(CString(field));
      var known := k < |items|;
      var taskMap;
      if k < |items| {
        if items[k].ntasks != ntasks {
          return false, next;
        }
        taskMap := items[k].taskMap;
      } else {
        taskMap := seq(ntasks, _ => -1);
        assert taskMap == Unclaimed(ntasks);
      }
      ghost var base := taskMap;
      var j := 0;
      while j < ltasks
        invariant j <= ltasks && ptr + HEADER_BYTES <= next <= |buf|
        invariant |taskMap| == |base|
        invariant UnpackRanks(base, serverId, ltasks, buf[ptr + HEADER_BYTES..])
               == UnpackRanks(taskMap, serverId, ltasks - j, buf[next..])
      {
        if |buf| - next < INT_BYTES {
          return false, next;
        }
        var rank := DecodeInt(buf[next..next + INT_BYTES]);
        assert buf[next..][..INT_BYTES] == buf[next..next + INT_BYTES];
        assert buf[next..][INT_BYTES..] == buf[next + INT_BYTES..];
        if !(0 <= rank < |taskMap|) {
          return false, next;
        }
        if taskMap[rank] < 0 {
          taskMap := taskMap[rank := serverId];
        }
        next := next + INT_BYTES;
        j := j + 1;
      }
      if known {
        items := items[k := items[k].(taskMap := taskMap)];
      } else {
        items := items + [Nspace(CString(field[..MAX_NSLEN]), ntasks, ltasks, taskMap)];
      }
      ok := true;
    }

    /** The same step seen as one round of the list loop with `count` records to go. */
    method UnpackStep(buf: seq<byte>, ptr: nat, ghost count: nat, ghost whole: Cursor)
      returns (ok: bool, next: nat, ghost left: nat)
      requires ptr <= |buf| && count > 0 && whole == UnpackList(items, count, buf[ptr..])
      modifies this
      ensures ok ==> ptr < next <= |buf| && left == count - 1 && whole == UnpackList(items, left, buf[next..])
      ensures !ok ==> whole == Corrupt
    {
      left := count - 1;
      ghost var table := items;
      ok, next := UnpackOne(buf, ptr);
      UnpackListStep(table, left, buf[ptr..], if ok then Cursor(items, buf[next..]) else Corrupt);
    }

    method UnpackRecords(buf: seq<byte>, start: nat, nsCount: nat) returns (ok: bool, ptr: nat)
      requires start <= |buf|
      modifies this
      ensures ok ==> start <= ptr <= |buf|
      ensures UnpackList(old(items), nsCount, buf[start..]) == if ok then Cursor(items, buf[ptr..]) else Corrupt
    {
      ptr := start;
      var i := 0;
      ghost var left := nsCount;
      ghost var whole := UnpackList(items, left, buf[start..]);
      while i < nsCount
        invariant i <= nsCount && start <= ptr <= |buf| && left == nsCount - i
        invariant whole == UnpackList(items, left, buf[ptr..])
      {
        ok, ptr, left := UnpackStep(buf, ptr, left, whole);
        if !ok {
          return;
        }
        i := i + 1;
      }
      ok := true;
    }

    method Unpack(buf: seq<byte>) returns (ok: bool)
      modifies this
      ensures ok == UnpackProcs(old(items), buf).Table?
      ensures ok ==> UnpackProcs(old(items), buf) == Table(items)
    {
      var ptr := 0;
      assert buf[0..] == buf;
      while ptr < |buf|
        invariant ptr <= |buf|
        invariant UnpackProcs(old(items), buf) == UnpackProcs(items, buf[ptr..])
        decreases |buf| - ptr
      {
        if |buf| - ptr < SIZE_BYTES {
          return false;
        }
        var nsCount := Decode(buf[ptr..ptr + SIZE_BYTES]);
        assert buf[ptr..][..SIZE_BYTES] == buf[ptr..ptr + SIZE_BYTES];
        assert buf[ptr..][SIZE_BYTES..] == buf[ptr + SIZE_BYTES..];
        var good, next := UnpackRecords(buf, ptr + SIZE_BYTES, nsCount);
        if !good {
          return false;
        }
        ptr := next;
      }
      ok := true;
    }
  }
}
