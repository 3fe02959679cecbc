/** Owners once known: no message, whatever its bytes, makes a server forget or change
    the owner of a rank, so every modex stays tied to the owner its requester found. */
module StarOwners {
  import opened Bytes
  import opened ProcTable
  import opened StarServer
  import opened StarSystem

  /** server_find_id finds server `k` for this process. */
  predicate Knows(table: seq<Nspace>, p: Proc, k: nat) {
    FindId(table, p.name, p.rank) == Owner(k)
  }

  // ------------------------------------------------------------ unpacking

  lemma {:induction false} RanksKept(taskMap: seq<int>, id: int, k: nat, b: seq<byte>, r: nat)
    requires r < |taskMap| && taskMap[r] >= 0
    ensures var c := UnpackRanks(taskMap, id, k, b); c.RankCursor? ==> c.taskMap[r] == taskMap[r]
    decreases k
  {
    if k > 0 && |b| >= INT_BYTES {
      var rank := DecodeInt(b[..INT_BYTES]);
      if 0 <= rank < |taskMap| {
        RanksKept(if taskMap[rank] >= 0 then taskMap else taskMap[rank := id], id, k - 1, b[INT_BYTES..], r);
      }
    }
  }

  /** A longer table with the same names in front finds the same entry. */
  lemma FindKept(table: seq<Nspace>, longer: seq<Nspace>, name: seq<byte>)
    requires |table| <= |longer| && forall k | 0 <= k < |table| :: longer[k].name == table[k].name
    requires Find(table, name) < |table|
    ensures Find(longer, name) == Find(table, name)
  {
    assert longer[Find(table, name)].name == name;
  }

  lemma AppendKnows(table: seq<Nspace>, ns: Nspace, p: Proc, k: nat)
    requires Knows(table, p, k)
    ensures Knows(table + [ns], p, k)
  {
    FindKept(table, table + [ns], p.name);
  }

  lemma NsKnows(table: seq<Nspace>, b: seq<byte>, p: Proc, k: nat)
    requires Knows(table, p, k)
    ensures var c := UnpackNs(table, b); c.Cursor? ==> Knows(c.table, p, k)
  {
    var c := UnpackNs(table, b);
    if c.Cursor? {
      FindKept(table, c.table, p.name);
      var at := Find(table, CString(b[4..260]));
      if at == Find(table, p.name) {
        RanksKept(table[at].taskMap, DecodeInt(b[..4]), Decode(b[268..276]), b[276..], p.rank);
      }
    }
  }

  /** What every namespace record keeps, a list of them keeps. */
  lemma {:induction false} ListKeeps(kept: seq<Nspace> -> bool, table: seq<Nspace>, count: nat, b: seq<byte>)
    requires kept(table)
    requires forall t, x | kept(t) && UnpackNs(t, x).Cursor? :: kept(UnpackNs(t, x).table)
    ensures var c := UnpackList(table, count, b); c.Cursor? ==> kept(c.table)
    decreases count
  {
    if count > 0 {
      match UnpackNs(table, b) {
        case Corrupt =>
        case Cursor(t, rest) => ListKeeps(kept, t, count - 1, rest);
      }
    }
  }

  lemma ListKnows(table: seq<Nspace>, count: nat, b: seq<byte>, p: Proc, k: nat)
    requires Knows(table, p, k)
    ensures var c := UnpackList(table, count, b); c.Cursor? ==> Knows(c.table, p, k)
  {
    forall t, x | Knows(t, p, k) && UnpackNs(t, x).Cursor? ensures Knows(UnpackNs(t, x).table, p, k) {
      NsKnows(t, x, p, k);
    }
    ListKeeps(t => Knows(t, p, k), table, count, b);
  }

  /** Unpacking any bytes at all keeps every owner already known. */
  lemma {:induction false} UnpackKnows(table: seq<Nspace>, b: seq<byte>, p: Proc, k: nat)
    requires Knows(table, p, k)
    ensures var u := UnpackProcs(table, b); u.Table? ==> Knows(u.table, p, k)
    decreases |b|
  {
    if |b| >= SIZE_BYTES {
      ListKnows(table, Decode(b[..SIZE_BYTES]), b[SIZE_BYTES..], p, k);
      var c := UnpackList(table, Decode(b[..SIZE_BYTES]), b[SIZE_BYTES..]);
      if c.Cursor? {
        UnpackKnows(c.table, c.rest, p, k);
      }
    }
  }

  // ----------------------------------------------------------------- steps

  lemma ReadKnows(s: Server, pos: nat, m: Msg, p: Proc, k: nat)
    requires pos < |s.links| && Knows(s.table, p, k)
    ensures Knows(ReadCb(s, pos, m).server.table, p, k)
  {
    UnpackKnows(s.table, m.data, p, k);
  }

  /** No step makes a server forget an owner. */
  lemma StepKnows(w: World, a: Action, i: nat, p: Proc, k: nat)
    requires Sized(w) && Wired(w) && Enabled(w, a) && i < |w.servers| && Knows(w.servers[i].table, p, k)
    ensures i < |Next(w, a).servers| && Knows(Next(w, a).servers[i].table, p, k)
  {
    NextWired(w, a);
    match a {
      case HubReads(j) => if i == 0 { ReadKnows(w.servers[0], Pos(|w.servers|, 0, j), w.net.toHub[j][0], p, k); }
      case LeafReads(j) => if i == j { ReadKnows(w.servers[j], 0, w.net.toLeaf[j][0], p, k); }
      case Launch(_, ns) => AppendKnows(w.servers[i].table, ns, p, k);
      case _ =>
    }
  }

  // ------------------------------------------------- requests and answers

  ghost predicate WantsKnown(w: World)
    requires Sized(w)
  {
    forall i, k | (i, k) in w.h.x.wants ::
      i < |w.servers| && Knows(w.servers[i].table, w.h.x.wants[(i, k)].proc, k)
  }

  ghost predicate DonesKnown(w: World)
    requires Sized(w)
  {
    forall i, y | 0 <= i < |w.servers| && 0 <= y < |w.h.x.dones[i]| ::
      Knows(w.servers[i].table, w.h.x.dones[i][y].want.proc, w.h.x.dones[i][y].owner)
  }

  /** What a step can do to the requests: open one for an owner found, move one on, or close one. */
  ghost predicate FromFound(w: World, x: ModexLog)
    requires Sized(w) && |x.dones| == |w.servers|
  {
    && (forall i, k | (i, k) in x.wants ::
          || ((i, k) in w.h.x.wants && x.wants[(i, k)].proc == w.h.x.wants[(i, k)].proc)
          || (i < |w.servers| && Knows(w.servers[i].table, x.wants[(i, k)].proc, k)))
    && (forall i, y | 0 <= i < |w.servers| && 0 <= y < |x.dones[i]| ::
          || (y < |w.h.x.dones[i]| && x.dones[i][y] == w.h.x.dones[i][y])
          || ((i, x.dones[i][y].owner) in w.h.x.wants
              && x.dones[i][y].want.proc == w.h.x.wants[(i, x.dones[i][y].owner)].proc))
  }

  lemma ObserveFromFound(w: World, i: nat, m: Msg, fired: seq<Fired>)
    requires Sized(w) && i < |w.servers|
    ensures FromFound(w, Observe(|w.servers|, w.h, i, m, fired).x)
  {
  }

  lemma StepFromFound(w: World, a: Action)
    requires Sized(w) && Wired(w) && Enabled(w, a)
    ensures Sized(Next(w, a)) && |Next(w, a).servers| == |w.servers| && FromFound(w, Next(w, a).h.x)
  {
    NextWired(w, a);
    match a {
      case HubReads(j) =>
        var m := w.net.toHub[j][0];
        ObserveFromFound(w, 0, m, ReadCb(w.servers[0], Pos(|w.servers|, 0, j), m).fired);
      case LeafReads(j) =>
        var m := w.net.toLeaf[j][0];
        ObserveFromFound(w, j, m, ReadCb(w.servers[j], 0, m).fired);
      case _ =>
    }
  }

  lemma StepKnown(w: World, a: Action)
    requires Sized(w) && Wired(w) && Enabled(w, a) && WantsKnown(w) && DonesKnown(w)
    ensures Sized(Next(w, a)) && WantsKnown(Next(w, a)) && DonesKnown(Next(w, a))
  {
    StepFromFound(w, a);
    var w' := Next(w, a);
    forall i, k | (i, k) in w'.h.x.wants
      ensures i < |w'.servers| && Knows(w'.servers[i].table, w'.h.x.wants[(i, k)].proc, k)
    {
      StepKnows(w, a, i, w'.h.x.wants[(i, k)].proc, k);
    }
    forall i, y | 0 <= i < |w'.servers| && 0 <= y < |w'.h.x.dones[i]|
      ensures Knows(w'.servers[i].table, w'.h.x.dones[i][y].want.proc, w'.h.x.dones[i][y].owner)
    {
      StepKnows(w, a, i, w'.h.x.dones[i][y].want.proc, w'.h.x.dones[i][y].owner);
    }
  }

  /** In every run each open request went to, and each answer came from, the server that
      the requester's table names, and still names, as the owner of the rank. */
  lemma {:induction false} RunKnown(w: World, acts: seq<Action>)
    requires Sized(w) && Wired(w) && ValidRun(w, acts) && WantsKnown(w) && DonesKnown(w)
    ensures WantsKnown(Exec(w, acts)) && DonesKnown(Exec(w, acts))
    decreases |acts|
  {
    if acts != [] {
      NextWired(w, acts[0]);
      StepKnown(w, acts[0]);
      RunKnown(Next(w, acts[0]), acts[1..]);
    }
  }
}
