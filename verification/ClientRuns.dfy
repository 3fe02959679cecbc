/**
 * Runs of the client life cycle: every interleaving of launches, finalized and
 * abort callbacks, reaping by either path, and kill-all.
 */
module ClientRuns {
  import opened ClientStages

  datatype Event =
    | Fork(pid: int, rank: nat, ns: string)   // server_launch_clients starts one client
    | Callback(rank: nat, ns: string, stale: set<nat>)   // the library reports a finalized client
    | AbortCall                               // the library reports PMIx_Abort
    | WaitAll(pid: int)                       // waitpid in cli_wait_all names a pid
    | Child(gone: seq<(int, int)>)            // one call of the SIGCHLD handler
    | Kill                                    // cli_kill_all

  // What the callers and the operating system guarantee: no more launches than the
  // table has entries, and positive pids.
  predicate Enabled(s: State, e: Event)
  {
    match e
    case Fork(pid, _, _) => s.counter < |s.clients| && pid > 0
    case WaitAll(pid) => pid > 0
    case Child(gone) => forall k | 0 <= k < |gone| :: gone[k].0 > 0
    case _ => true
  }

  function Step(s: State, e: Event): (t: State)
    requires Enabled(s, e)
  {
    match e
    case Fork(pid, rank, ns) => Launch(s, pid, rank, ns)
    case Callback(rank, ns, stale) => Finalized(s, rank, ns, stale)
    case AbortCall => s.(abort := true, aborts := s.aborts + 1)
    case WaitAll(pid) => Reap(s, pid, 0)
    case Child(gone) => SigchldAll(s, gone)
    case Kill => KillAll(s, 0)
  }

  function Init(n: nat): (s: State)
  {
    State(seq(n, i => FRESH), false, 0, 0, 0, false, 0, false)
  }

  ghost predicate ValidRun(s: State, run: seq<Event>)
    decreases |run|
  {
    run == [] || (Enabled(s, run[0]) && ValidRun(Step(s, run[0]), run[1..]))
  }

  function Exec(s: State, run: seq<Event>): (t: State)
    requires ValidRun(s, run)
    decreases |run|
  {
    if run == [] then s else Exec(Step(s, run[0]), run[1..])
  }

  // ---------- the invariant ----------

  function Fins(k: nat): (log: seq<Stage>) { seq(k, i => Fin) }

  // Where one entry can be, and the stages it has been given by then.
  ghost predicate Good(c: Client)
  {
    match c.stage
    case Uninit => c == FRESH
    case Forked => c.pid > 0 && c.alive && c.ns.Live? && c.callbacks == 0 && c.log == [Forked]
    case Fin => c.pid > 0 && c.alive && c.ns.Live? && c.callbacks > 0 && c.log == [Forked] + Fins(c.callbacks)
    case Term =>
      c.pid == -1 && c.ns == Freed && c.log == [Forked] + Fins(if c.callbacks == 0 then 1 else c.callbacks) + [Term]
    case _ => false
  }

  // A client the harness has to complain about: finalized twice, or gone without.
  predicate Suspect(c: Client)
  {
    c.callbacks >= 2 || (c.stage == Term && c.callbacks == 0)
  }

  predicate Finished(c: Client) { c.stage == Fin || c.stage == Term }

  function Callbacks(clients: seq<Client>): (sum: nat)
  {
    if clients == [] then 0 else clients[0].callbacks + Callbacks(clients[1..])
  }

  function FinishedCount(clients: seq<Client>): (count: nat)
  {
    if clients == [] then 0 else (if Finished(clients[0]) then 1 else 0) + FinishedCount(clients[1..])
  }

  ghost predicate Inv(s: State)
  {
    && s.counter <= |s.clients|
    && (forall i | 0 <= i < |s.clients| :: Good(s.clients[i]))
    && (forall i | 0 <= i < |s.clients| :: s.clients[i].stage == Uninit <==> s.counter <= i)
    && s.finalized == Callbacks(s.clients)
    && s.releases == (if 0 < |s.clients| <= s.finalized then 1 else 0)
    && (s.abort <==> s.aborts > 0 || exists i | 0 <= i < |s.clients| :: Suspect(s.clients[i]))
  }

  lemma {:induction false} CallbacksPut(clients: seq<Client>, i: nat, c: Client)
    requires i < |clients|
    ensures Callbacks(clients[i := c]) == Callbacks(clients) - clients[i].callbacks + c.callbacks
  {
    if i > 0 {
      CallbacksPut(clients[1..], i - 1, c);
      assert clients[i := c][1..] == clients[1..][i - 1 := c];
    } else {
      assert clients[i := c][1..] == clients[1..];
    }
  }

  lemma {:induction false} CallbacksFresh(n: nat)
    ensures Callbacks(seq(n, i => FRESH)) == 0
  {
    if n > 0 {
      CallbacksFresh(n - 1);
      assert seq(n, i => FRESH)[1..] == seq(n - 1, i => FRESH);
    }
  }

  lemma InitInv(n: nat)
    ensures Inv(Init(n))
  {
    CallbacksFresh(n);
  }

  // ---------- one client ----------

  // A running client is moved to its end, noted as suspect if it never finalized.
  lemma CleanupEnds(c: Client)
    requires Good(c) && (c.stage == Forked || c.stage == Fin)
    ensures var (d, a) := Cleanup(c);
            && Good(d) && d.stage == Term && d.callbacks == c.callbacks
            && d.exitCode == c.exitCode && d.alive
            && (Suspect(d) <==> Suspect(c) || a)
  {
    if c.stage == Forked {
      var d := Finalize(c).0;
      assert Cleanup(d) == Terminate(d);
      assert d.log == [Forked] + Fins(1);
    }
  }

  // Giving the entry back with other bookkeeping does not matter.
  lemma PutKeepsInv(s: State, i: nat, c: Client, a: bool)
    requires Inv(s) && i < s.counter
    requires Good(c) && c.stage != Uninit && c.callbacks == s.clients[i].callbacks
    requires Suspect(c) <==> Suspect(s.clients[i]) || a
    ensures Inv(Put(s, i, (c, a)))
  {
    var t := Put(s, i, (c, a));
    CallbacksPut(s.clients, i, c);
    assert t.clients[i] == c;
    assert forall j | 0 <= j < |s.clients| && j != i :: t.clients[j] == s.clients[j];
  }

  lemma CleanupKeepsInv(s: State, i: nat)
    requires Inv(s) && i < |s.clients| && (s.clients[i].stage == Forked || s.clients[i].stage == Fin)
    ensures Inv(Put(s, i, Cleanup(s.clients[i])))
  {
    CleanupEnds(s.clients[i]);
    var (c, a) := Cleanup(s.clients[i]);
    PutKeepsInv(s, i, c, a);
  }

  // ---------- one event ----------

  lemma LaunchKeepsInv(s: State, pid: int, rank: nat, ns: string)
    requires Inv(s) && s.counter < |s.clients| && pid > 0
    ensures Inv(Launch(s, pid, rank, ns))
  {
    var t := Launch(s, pid, rank, ns);
    CallbacksPut(s.clients, s.counter, t.clients[s.counter]);
    assert forall j | 0 <= j < |s.clients| && j != s.counter :: t.clients[j] == s.clients[j];
  }

  lemma FinalizedKeepsInv(s: State, rank: nat, ns: string, stale: set<nat>)
    requires Inv(s)
    ensures Inv(Finalized(s, rank, ns, stale))
  {
    var i := Find(s.clients, rank, ns, stale, 0);
    var t := s.(touched := s.touched || ReadsFreed(s.clients, rank, ns, 0));
    assert Inv(t);
    if i < |s.clients| && Ord(s.clients[i].stage) < Ord(Term) {
      assert Good(s.clients[i]);
      CountKeepsInv(t, i);
    }
  }

  // A running client is finalized once more.
  lemma CountKeepsInv(s: State, i: nat)
    requires Inv(s) && i < |s.clients| && (s.clients[i].stage == Forked || s.clients[i].stage == Fin)
    ensures Inv(Counted(s, i))
  {
    var t := Counted(s, i);
    var c, d := s.clients[i], t.clients[i];
    assert Good(c);
    assert d.log == [Forked] + Fins(d.callbacks);
    CallbacksPut(s.clients, i, d);
    assert forall j | 0 <= j < |s.clients| && j != i :: t.clients[j] == s.clients[j];
    assert Suspect(d) <==> Suspect(c) || Next(c.stage) != Fin;
  }

  lemma {:induction false} ReapKeepsInv(s: State, pid: int, k: nat)
    requires Inv(s) && pid > 0 && k <= |s.clients|
    ensures Inv(Reap(s, pid, k))
    decreases |s.clients| - k
  {
    if k < |s.clients| {
      if s.clients[k].pid == pid {
        CleanupKeepsInv(s, k);
        ReapKeepsInv(Put(s, k, Cleanup(s.clients[k])), pid, k + 1);
      } else {
        ReapKeepsInv(s, pid, k + 1);
      }
    }
  }

  lemma {:induction false} KillAllKeepsInv(s: State, k: nat)
    requires Inv(s) && k <= |s.clients|
    ensures Inv(KillAll(s, k))
    decreases |s.clients| - k
  {
    if k < |s.clients| {
      if s.clients[k].stage == Uninit || Ord(s.clients[k].stage) >= Ord(Term) {
        KillAllKeepsInv(s, k + 1);
      } else {
        CleanupKeepsInv(s, k);
        KillAllKeepsInv(Put(s, k, Cleanup(s.clients[k])), k + 1);
      }
    }
  }

  lemma SigchldKeepsInv(s: State, pid: int, code: int)
    requires Inv(s) && pid > 0
    ensures Inv(Sigchld(s, pid, code))
  {
    var i := FindPid(s.clients, pid, 0);
    if i < |s.clients| {
      var c := s.clients[i].(exitCode := code);
      CleanupEnds(c);
      var (d, a) := Cleanup(c);
      PutKeepsInv(s, i, d.(alive := false), a);
    }
  }

  lemma {:induction false} SigchldAllKeepsInv(s: State, gone: seq<(int, int)>)
    requires Inv(s) && forall k | 0 <= k < |gone| :: gone[k].0 > 0
    ensures Inv(SigchldAll(s, gone))
    decreases |gone|
  {
    if gone != [] {
      SigchldKeepsInv(s, gone[0].0, gone[0].1);
      SigchldAllKeepsInv(Sigchld(s, gone[0].0, gone[0].1), gone[1..]);
    }
  }

  lemma StepKeepsInv(s: State, e: Event)
    requires Inv(s) && Enabled(s, e)
    ensures Inv(Step(s, e))
  {
    match e
    case Fork(pid, rank, ns) => LaunchKeepsInv(s, pid, rank, ns);
    case Callback(rank, ns, stale) => FinalizedKeepsInv(s, rank, ns, stale);
    case AbortCall =>
    case WaitAll(pid) => ReapKeepsInv(s, pid, 0);
    case Child(gone) => SigchldAllKeepsInv(s, gone);
    case Kill => KillAllKeepsInv(s, 0);
  }

  lemma {:induction false} RunKeepsInv(s: State, run: seq<Event>)
    requires Inv(s) && ValidRun(s, run)
    ensures Inv(Exec(s, run))
    decreases |run|
  {
    if run != [] {
      StepKeepsInv(s, run[0]);
      RunKeepsInv(Step(s, run[0]), run[1..]);
    }
  }

  // ---------- what every run keeps ----------

  ghost predicate Reached(n: nat, s: State)
  {
    exists run: seq<Event> :: ValidRun(Init(n), run) && Exec(Init(n), run) == s
  }

  lemma ReachedInv(n: nat, s: State)
    requires Reached(n, s)
    ensures Inv(s)
  {
    var run: seq<Event> :| ValidRun(Init(n), run) && Exec(Init(n), run) == s;
    InitInv(n);
    RunKeepsInv(Init(n), run);
  }

  lemma {:induction false} CallbacksAreFinished(clients: seq<Client>)
    requires forall i | 0 <= i < |clients| :: Good(clients[i]) && !Suspect(clients[i])
    ensures Callbacks(clients) == FinishedCount(clients)
  {
    if clients != [] {
      CallbacksAreFinished(clients[1..]);
    }
  }

  /** While nothing has gone wrong, finalized_count is the number of clients in FIN or TERM. */
  lemma FinalizedCountExact(n: nat, s: State)
    requires Reached(n, s) && !s.abort
    ensures s.finalized == FinishedCount(s.clients)
  {
    ReachedInv(n, s);
    CallbacksAreFinished(s.clients);
  }

  /**
   * test_abort is raised exactly by an abort callback, by a client that finalized
   * twice, and by a client that ended without having finalized.
   */
  lemma AbortExact(n: nat, s: State)
    requires Reached(n, s)
    ensures s.abort <==>
              s.aborts > 0 || exists i | 0 <= i < |s.clients| :: Suspect(s.clients[i])
  {
    ReachedInv(n, s);
  }

  /** A run that ends well took every client through FORKED, FIN and TERM, once each. */
  lemma CleanHistories(n: nat, s: State)
    requires Reached(n, s) && !s.abort && Terminated(s)
    ensures forall i | 0 <= i < |s.clients| :: s.clients[i].log == [Forked, Fin, Term]
    ensures s.finalized == |s.clients|
  {
    ReachedInv(n, s);
    forall i | 0 <= i < |s.clients|
      ensures Finished(s.clients[i]) && s.clients[i].log == [Forked, Fin, Term]
    {
      assert Good(s.clients[i]) && !Suspect(s.clients[i]);
      assert Fins(1) == [Fin];
    }
    CallbacksAreFinished(s.clients);
    AllFinished(s.clients);
  }

  lemma {:induction false} AllFinished(clients: seq<Client>)
    requires forall i | 0 <= i < |clients| :: Finished(clients[i])
    ensures FinishedCount(clients) == |clients|
  {
    if clients != [] {
      AllFinished(clients[1..]);
    }
  }

  /**
   * The pid of an entry names a process exactly while that client is running, and
   * the log of an ended client shows one FORKED first and one TERM last.
   */
  lemma PidsOfTheRunning(n: nat, s: State, i: nat)
    requires Reached(n, s) && i < |s.clients|
    ensures s.clients[i].pid == -1 <==> s.clients[i].stage == Uninit || s.clients[i].stage == Term
    ensures s.clients[i].pid > 0 <==> s.clients[i].stage == Forked || s.clients[i].stage == Fin
    ensures multiset(s.clients[i].log)[Term] == if s.clients[i].stage == Term then 1 else 0
  {
    ReachedInv(n, s);
    var c := s.clients[i];
    assert Good(c);
    var k := if c.stage == Uninit || c.stage == Forked then 0 else if c.callbacks == 0 then 1 else c.callbacks;
    NoTermInFins(k);
    match c.stage {
      case Uninit => assert multiset(c.log)[Term] == 0;
      case Forked => assert multiset(c.log)[Term] == 0;
      case Fin => assert multiset(c.log) == multiset([Forked]) + multiset(Fins(k));
      case Term => assert multiset(c.log) == multiset([Forked]) + multiset(Fins(k)) + multiset([Term]);
    }
  }

  lemma NoTermInFins(k: nat)
    ensures multiset(Fins(k))[Term] == 0
  {
    assert Term !in Fins(k);
  }

  // ---------- an ended client stays ended ----------

  lemma {:induction false} ReapLeaves(s: State, pid: int, k: nat, i: nat)
    requires i < |s.clients| && k <= |s.clients| && s.clients[i].pid != pid
    ensures Reap(s, pid, k).clients[i] == s.clients[i]
    decreases |s.clients| - k
  {
    if k < |s.clients| {
      if s.clients[k].pid == pid {
        ReapLeaves(Put(s, k, Cleanup(s.clients[k])), pid, k + 1, i);
      } else {
        ReapLeaves(s, pid, k + 1, i);
      }
    }
  }

  lemma {:induction false} KillAllLeaves(s: State, k: nat, i: nat)
    requires i < |s.clients| && k <= |s.clients| && (s.clients[i].stage == Term || i < k)
    ensures KillAll(s, k).clients[i] == s.clients[i]
    decreases |s.clients| - k
  {
    if k < |s.clients| {
      if s.clients[k].stage == Uninit || Ord(s.clients[k].stage) >= Ord(Term) {
        KillAllLeaves(s, k + 1, i);
      } else {
        KillAllLeaves(Put(s, k, Cleanup(s.clients[k])), k + 1, i);
      }
    }
  }

  lemma {:induction false} SigchldAllLeaves(s: State, gone: seq<(int, int)>, i: nat)
    requires i < |s.clients| && s.clients[i].pid == -1
    requires forall k | 0 <= k < |gone| :: gone[k].0 > 0
    ensures SigchldAll(s, gone).clients[i] == s.clients[i]
    decreases |gone|
  {
    if gone != [] {
      SigchldAllLeaves(Sigchld(s, gone[0].0, gone[0].1), gone[1..], i);
    }
  }

  /** No event touches a client that has ended; in particular it is not reaped again. */
  lemma EndedForGood(n: nat, s: State, e: Event, i: nat)
    requires Reached(n, s) && Enabled(s, e)
    requires i < |s.clients| && s.clients[i].stage == Term
    ensures i < |Step(s, e).clients| && Step(s, e).clients[i] == s.clients[i]
  {
    ReachedInv(n, s);
    assert Good(s.clients[i]);
    match e
    case Fork(pid, rank, ns) =>
    case Callback(_, _, _) =>
    case AbortCall =>
    case WaitAll(pid) => ReapLeaves(s, pid, 0, i);
    case Child(gone) => SigchldAllLeaves(s, gone, i);
    case Kill => KillAllLeaves(s, 0, i);
  }

  lemma {:induction false} KillAllEnds(s: State, k: nat, i: nat)
    requires Inv(s) && k <= i < s.counter
    ensures KillAll(s, k).clients[i].stage == Term
    decreases |s.clients| - k
  {
    if s.clients[k].stage == Uninit || Ord(s.clients[k].stage) >= Ord(Term) {
      if i == k {
        assert Good(s.clients[k]);
        KillAllLeaves(s, k, i);
      } else {
        KillAllEnds(s, k + 1, i);
      }
    } else {
      CleanupEnds(s.clients[k]);
      var t := Put(s, k, Cleanup(s.clients[k]));
      if i == k {
        KillAllLeaves(t, k + 1, i);
      } else {
        CleanupKeepsInv(s, k);
        KillAllEnds(t, k + 1, i);
      }
    }
  }

  /**
   * cli_kill_all leaves every launched client in TERM; once all are launched, the
   * test counts as terminated.
   */
  lemma KillAllTerminates(n: nat, s: State)
    requires Reached(n, s)
    ensures s.counter <= |s.clients|
    ensures forall i | 0 <= i < s.counter :: KillAll(s, 0).clients[i].stage == Term
    ensures s.counter == |s.clients| ==> Terminated(KillAll(s, 0))
  {
    ReachedInv(n, s);
    forall i | 0 <= i < s.counter ensures KillAll(s, 0).clients[i].stage == Term {
      KillAllEnds(s, 0, i);
    }
  }

  /**
   * The list of published data is released at most once, and not before every
   * client has finalized if nothing has gone wrong.
   */
  lemma ReleasedOnce(n: nat, s: State)
    requires Reached(n, s)
    ensures s.releases <= 1
    ensures s.releases == 1 && !s.abort ==>
              forall i | 0 <= i < |s.clients| :: Finished(s.clients[i])
  {
    ReachedInv(n, s);
    if s.releases == 1 && !s.abort {
      CallbacksAreFinished(s.clients);
      FullCount(s.clients);
    }
  }

  lemma {:induction false} FullCount(clients: seq<Client>)
    ensures FinishedCount(clients) <= |clients|
    ensures FinishedCount(clients) == |clients| ==> forall i | 0 <= i < |clients| :: Finished(clients[i])
  {
    if clients != [] {
      FullCount(clients[1..]);
      assert forall i | 1 <= i < |clients| :: clients[i] == clients[1..][i - 1];
    }
  }

  lemma {:induction false} SigchldAllAlive(s: State, gone: seq<(int, int)>)
    requires SigchldAll(s, gone).complete && !s.complete
    ensures forall i | 0 <= i < |s.clients| :: !SigchldAll(s, gone).clients[i].alive
    decreases |gone|
  {
    if gone != [] {
      SigchldAllAlive(Sigchld(s, gone[0].0, gone[0].1), gone[1..]);
    }
  }

  /** When the SIGCHLD handler declares the test complete, no client is running. */
  lemma CompleteWhenGone(n: nat, s: State, gone: seq<(int, int)>)
    requires Reached(n, s) && Enabled(s, Child(gone))
    requires SigchldAll(s, gone).complete && !s.complete
    ensures s.counter <= |s.clients|
    ensures forall i | 0 <= i < s.counter :: SigchldAll(s, gone).clients[i].stage == Term
  {
    ReachedInv(n, s);
    SigchldAllKeepsInv(s, gone);
    SigchldAllAlive(s, gone);
    SigchldAllCounter(s, gone);
    var t := SigchldAll(s, gone);
    forall i | 0 <= i < s.counter ensures t.clients[i].stage == Term {
      assert Good(t.clients[i]) && !t.clients[i].alive;
    }
  }

  lemma {:induction false} SigchldAllCounter(s: State, gone: seq<(int, int)>)
    ensures SigchldAll(s, gone).counter == s.counter
    decreases |gone|
  {
    if gone != [] {
      SigchldAllCounter(Sigchld(s, gone[0].0, gone[0].1), gone[1..]);
    }
  }

  // ---------- what reaping and killing do ----------

  // d is what is left of client c when it has ended.
  predicate EndedFrom(c: Client, d: Client)
  {
    && d.stage == Term && d.pid == -1 && d.ns == Freed
    && d.rank == c.rank && d.alive == c.alive && d.exitCode == c.exitCode && d.callbacks == c.callbacks
  }

  lemma CleanupExact(c: Client)
    requires Good(c) && (c.stage == Forked || c.stage == Fin)
    ensures EndedFrom(c, Cleanup(c).0) && (Cleanup(c).1 <==> c.stage == Forked)
  {
    if c.stage == Forked {
      var d := Finalize(c).0;
      assert Cleanup(d) == Terminate(d);
    }
  }

  // From s to t exactly the chosen clients have ended; the test is aborted if one of them had not finalized.
  ghost predicate ExactlyEnded(s: State, t: State, chosen: set<nat>)
  {
    && |t.clients| == |s.clients|
    && (forall i | 0 <= i < |s.clients| ::
          if i in chosen then EndedFrom(s.clients[i], t.clients[i]) else t.clients[i] == s.clients[i])
    && (t.abort <==> s.abort || exists i | i in chosen :: i < |s.clients| && s.clients[i].stage == Forked)
    && t == s.(clients := t.clients, abort := t.abort)
  }

  // One client more, the last one chosen so far.
  lemma EndOneMore(s: State, u: State, t: State, k: nat, chosen: set<nat>)
    requires k < |s.clients| && k !in chosen && (s.clients[k].stage == Forked || s.clients[k].stage == Fin)
    requires Good(s.clients[k]) && u == Put(s, k, Cleanup(s.clients[k])) && ExactlyEnded(u, t, chosen)
    ensures ExactlyEnded(s, t, chosen + {k})
  {
    CleanupExact(s.clients[k]);
    forall i | i in chosen && i < |s.clients| ensures u.clients[i] == s.clients[i] {
    }
    if exists i | i in chosen + {k} :: i < |s.clients| && s.clients[i].stage == Forked {
      var i :| i in chosen + {k} && i < |s.clients| && s.clients[i].stage == Forked;
      assert i == k || (i in chosen && u.clients[i].stage == Forked);
    }
    if exists i | i in chosen :: i < |u.clients| && u.clients[i].stage == Forked {
      var i :| i in chosen && i < |u.clients| && u.clients[i].stage == Forked;
      assert i in chosen + {k} && s.clients[i].stage == Forked;
    }
    assert k in chosen + {k};
  }

  ghost predicate AllGood(s: State)
  {
    forall i | 0 <= i < |s.clients| :: Good(s.clients[i])
  }

  // The entries from k on that name the process.
  ghost function WithPid(clients: seq<Client>, pid: int, k: nat): set<nat>
  {
    set i: nat | k <= i < |clients| && clients[i].pid == pid
  }

  lemma WithPidStep(clients: seq<Client>, pid: int, k: nat)
    ensures k >= |clients| ==> WithPid(clients, pid, k) == {}
    ensures k < |clients| && clients[k].pid != pid ==> WithPid(clients, pid, k) == WithPid(clients, pid, k + 1)
  {
  }

  lemma {:induction false} ReapExact(s: State, pid: int, k: nat)
    requires AllGood(s) && pid > 0 && k <= |s.clients|
    ensures ExactlyEnded(s, Reap(s, pid, k), WithPid(s.clients, pid, k))
    decreases |s.clients| - k
  {
    WithPidStep(s.clients, pid, k);
    if k < |s.clients| {
      if s.clients[k].pid == pid {
        assert Good(s.clients[k]);
        CleanupEnds(s.clients[k]);
        var u := Put(s, k, Cleanup(s.clients[k]));
        ReapExact(u, pid, k + 1);
        ReapHit(s, u, Reap(u, pid, k + 1), pid, k);
      } else {
        ReapExact(s, pid, k + 1);
      }
    }
  }

  lemma ReapHit(s: State, u: State, t: State, pid: int, k: nat)
    requires k < |s.clients| && Good(s.clients[k]) && s.clients[k].pid == pid > 0
    requires u == Put(s, k, Cleanup(s.clients[k])) && ExactlyEnded(u, t, WithPid(u.clients, pid, k + 1))
    ensures ExactlyEnded(s, t, WithPid(s.clients, pid, k))
  {
    assert WithPid(u.clients, pid, k + 1) == WithPid(s.clients, pid, k + 1);
    assert WithPid(s.clients, pid, k) == WithPid(u.clients, pid, k + 1) + {k};
    EndOneMore(s, u, t, k, WithPid(u.clients, pid, k + 1));
  }

  /**
   * When waitpid in cli_wait_all names a process, every entry with that pid has ended
   * afterwards and every other entry is as before. The test is aborted if one of
   * them had not finalized, and else if and only if it was aborted before.
   */
  lemma WaitAllExact(n: nat, s: State, pid: int)
    requires Reached(n, s) && pid > 0
    ensures var t := Step(s, WaitAll(pid));
            && |t.clients| == |s.clients|
            && (forall i | 0 <= i < |s.clients| ::
                  if s.clients[i].pid == pid then EndedFrom(s.clients[i], t.clients[i]) else t.clients[i] == s.clients[i])
            && (t.abort <==> s.abort || exists i | 0 <= i < |s.clients| :: s.clients[i].pid == pid && s.clients[i].stage == Forked)
            && t == s.(clients := t.clients, abort := t.abort)
  {
    ReachedInv(n, s);
    ReapExact(s, pid, 0);
    var chosen := WithPid(s.clients, pid, 0);
    forall i: nat | i < |s.clients| ensures i in chosen <==> s.clients[i].pid == pid {
    }
    if exists i | 0 <= i < |s.clients| :: s.clients[i].pid == pid && s.clients[i].stage == Forked {
      var i: nat :| i < |s.clients| && s.clients[i].pid == pid && s.clients[i].stage == Forked;
      assert i in chosen && s.clients[i].stage == Forked;
    }
  }

  // Entry i is the first with this pid.
  predicate FirstWith(clients: seq<Client>, pid: int, i: nat)
  {
    i < |clients| && clients[i].pid == pid && forall j | 0 <= j < i :: clients[j].pid != pid
  }

  lemma SigchldExact(s: State, pid: int, code: int)
    requires AllGood(s) && pid > 0
    ensures var t := Sigchld(s, pid, code);
            && |t.clients| == |s.clients|
            && (forall i: nat | FirstWith(s.clients, pid, i) ::
                  EndedFrom(s.clients[i].(alive := false, exitCode := code), t.clients[i])
                  && (t.abort <==> s.abort || s.clients[i].stage == Forked))
            && (forall i: nat | i < |s.clients| && !FirstWith(s.clients, pid, i) :: t.clients[i] == s.clients[i])
            && ((forall i: nat | i < |s.clients| :: s.clients[i].pid != pid) ==> t.abort == s.abort)
            && t == s.(clients := t.clients, abort := t.abort)
  {
    var i := FindPid(s.clients, pid, 0);
    if i < |s.clients| {
      var c := s.clients[i].(exitCode := code);
      assert Good(s.clients[i]) && Good(c);
      CleanupExact(c);
      assert FirstWith(s.clients, pid, i);
    }
  }

  /**
   * One child of the SIGCHLD handler: the first entry with its pid has ended, is no
   * longer alive and has the exit code; every other entry is as before. The test
   * is aborted if that client had not finalized, and complete once no entry is alive.
   */
  lemma ChildExact(n: nat, s: State, pid: int, code: int)
    requires Reached(n, s) && pid > 0
    ensures var t := Step(s, Child([(pid, code)]));
            && |t.clients| == |s.clients|
            && (forall i: nat | FirstWith(s.clients, pid, i) ::
                  EndedFrom(s.clients[i].(alive := false, exitCode := code), t.clients[i])
                  && (t.abort <==> s.abort || s.clients[i].stage == Forked))
            && (forall i: nat | i < |s.clients| && !FirstWith(s.clients, pid, i) :: t.clients[i] == s.clients[i])
            && ((forall i: nat | i < |s.clients| :: s.clients[i].pid != pid) ==> t.abort == s.abort)
            && (t.complete <==> s.complete || forall i | 0 <= i < |t.clients| :: !t.clients[i].alive)
            && t == s.(clients := t.clients, abort := t.abort, complete := t.complete)
  {
    ReachedInv(n, s);
    SigchldExact(s, pid, code);
    OneChild(s, pid, code);
  }

  lemma OneChild(s: State, pid: int, code: int)
    ensures var t := Sigchld(s, pid, code);
            SigchldAll(s, [(pid, code)])
              == t.(complete := t.complete || forall i | 0 <= i < |t.clients| :: !t.clients[i].alive)
  {
    var gone := [(pid, code)];
    assert gone[1..] == [];
    assert SigchldAll(s, gone) == SigchldAll(Sigchld(s, pid, code), []);
  }

  /** Several children are handled one after the other, and only then is asked whether anybody is alive. */
  lemma ChildrenInTurn(s: State, child: (int, int), rest: seq<(int, int)>)
    requires child.0 > 0 && forall k | 0 <= k < |rest| :: rest[k].0 > 0
    ensures Step(s, Child([child] + rest)) == Step(Step(s, Child([child])).(complete := s.complete), Child(rest))
  {
    OneChild(s, child.0, child.1);
    assert ([child] + rest)[1..] == rest;
    assert [child] == [(child.0, child.1)];
  }

  // The entries from k on that were launched and have not ended.
  ghost function Running(clients: seq<Client>, k: nat): set<nat>
  {
    set i: nat | k <= i < |clients| && (clients[i].stage == Forked || clients[i].stage == Fin)
  }

  lemma RunningStep(clients: seq<Client>, k: nat)
    ensures k >= |clients| ==> Running(clients, k) == {}
    ensures k < |clients| && clients[k].stage != Forked && clients[k].stage != Fin ==>
              Running(clients, k) == Running(clients, k + 1)
  {
  }

  lemma {:induction false} KillAllExactFrom(s: State, k: nat)
    requires AllGood(s) && k <= |s.clients|
    ensures ExactlyEnded(s, KillAll(s, k), Running(s.clients, k))
    decreases |s.clients| - k
  {
    RunningStep(s.clients, k);
    if k < |s.clients| {
      assert Good(s.clients[k]);
      if s.clients[k].stage == Uninit || Ord(s.clients[k].stage) >= Ord(Term) {
        KillAllExactFrom(s, k + 1);
      } else {
        CleanupEnds(s.clients[k]);
        var u := Put(s, k, Cleanup(s.clients[k]));
        KillAllExactFrom(u, k + 1);
        KillHit(s, u, KillAll(u, k + 1), k);
      }
    }
  }

  lemma KillHit(s: State, u: State, t: State, k: nat)
    requires k < |s.clients| && Good(s.clients[k]) && (s.clients[k].stage == Forked || s.clients[k].stage == Fin)
    requires u == Put(s, k, Cleanup(s.clients[k])) && ExactlyEnded(u, t, Running(u.clients, k + 1))
    ensures ExactlyEnded(s, t, Running(s.clients, k))
  {
    assert Running(u.clients, k + 1) == Running(s.clients, k + 1);
    assert Running(s.clients, k) == Running(u.clients, k + 1) + {k};
    EndOneMore(s, u, t, k, Running(u.clients, k + 1));
  }

  /** cli_kill_all ends exactly the clients that run, and aborts the test if one of them had not finalized. */
  lemma KillAllExact(n: nat, s: State)
    requires Reached(n, s)
    ensures ExactlyEnded(s, Step(s, Kill), Running(s.clients, 0))
  {
    ReachedInv(n, s);
    KillAllExactFrom(s, 0);
  }

  // ---------- names that cli_terminate has freed ----------

  // The client a callback is meant for: the first with that rank and a name not freed.
  function Meant(s: State, rank: nat, ns: string): (i: nat)
    ensures i <= |s.clients|
  {
    Find(s.clients, rank, ns, {}, 0)
  }

  // Entry j stands in the way of the callback: it has that rank, and its name is freed.
  predicate InTheWay(s: State, rank: nat, ns: string, j: nat)
  {
    j < Meant(s, rank, ns) && s.clients[j].stage == Term && s.clients[j].rank == rank
  }

  lemma {:induction false} FreedFrom(s: State, rank: nat, ns: string, k: nat)
    requires Inv(s) && k <= |s.clients|
    ensures ReadsFreed(s.clients, rank, ns, k) <==>
              exists j | k <= j < Find(s.clients, rank, ns, {}, k) :: s.clients[j].stage == Term && s.clients[j].rank == rank
    decreases |s.clients| - k
  {
    if k < |s.clients| {
      assert Good(s.clients[k]);
      FreedFrom(s, rank, ns, k + 1);
    }
  }

  /**
   * The finalized callback reads a name that cli_terminate has freed exactly if an
   * ended client of that rank stands before the one the callback is meant for.
   */
  lemma FreedNameRead(n: nat, s: State, rank: nat, ns: string, stale: set<nat>)
    requires Reached(n, s)
    ensures Finalized(s, rank, ns, stale).touched <==> s.touched || exists j :: InTheWay(s, rank, ns, j)
  {
    ReachedInv(n, s);
    FreedFrom(s, rank, ns, 0);
    forall j | 0 <= j < Meant(s, rank, ns) && s.clients[j].stage == Term && s.clients[j].rank == rank
      ensures InTheWay(s, rank, ns, j)
    {
    }
  }

  lemma {:induction false} FirstStale(s: State, rank: nat, ns: string, stale: set<nat>, k: nat)
    requires Inv(s) && k <= |s.clients|
    ensures var i, m := Find(s.clients, rank, ns, stale, k), Find(s.clients, rank, ns, {}, k);
            && i <= m
            && (i < m ==> i in stale && s.clients[i].stage == Term && s.clients[i].rank == rank)
            && (i == m ==> forall j | k <= j < m && s.clients[j].stage == Term && s.clients[j].rank == rank :: j !in stale)
    decreases |s.clients| - k
  {
    if k < |s.clients| {
      assert Good(s.clients[k]);
      FirstStale(s, rank, ns, stale, k + 1);
    }
  }

  /**
   * A callback for a running client is counted for it exactly if no freed name in the
   * way happens to read as the name asked for; else it is lost, and no client changes.
   */
  lemma CallbackCounted(n: nat, s: State, rank: nat, ns: string, stale: set<nat>)
    requires Reached(n, s) && Meant(s, rank, ns) < |s.clients|
    ensures var i := Meant(s, rank, ns);
            var t := Finalized(s, rank, ns, stale);
            if forall j | InTheWay(s, rank, ns, j) :: j !in stale
            then t == Counted(s.(touched := t.touched), i)
            else t == s.(touched := t.touched)
  {
    ReachedInv(n, s);
    FirstStale(s, rank, ns, stale, 0);
    assert Good(s.clients[Meant(s, rank, ns)]);
    var i := Find(s.clients, rank, ns, stale, 0);
    assert i < Meant(s, rank, ns) ==> InTheWay(s, rank, ns, i);
  }

  /** With one namespace, where no two clients share a rank, callbacks of running clients are safe. */
  lemma OneNamespaceSafe(n: nat, s: State, rank: nat, ns: string, stale: set<nat>)
    requires Reached(n, s) && Meant(s, rank, ns) < |s.clients|
    requires forall i, j | 0 <= i < j < s.counter <= |s.clients| :: s.clients[i].rank != s.clients[j].rank
    ensures Finalized(s, rank, ns, stale) == Counted(s, Meant(s, rank, ns))
  {
    ReachedInv(n, s);
    assert Good(s.clients[Meant(s, rank, ns)]);
    forall j | InTheWay(s, rank, ns, j) ensures false {
    }
    CallbackCounted(n, s, rank, ns, stale);
    FreedNameRead(n, s, rank, ns, stale);
  }

  lemma ExecCons(s: State, e: Event, run: seq<Event>)
    requires Enabled(s, e) && ValidRun(Step(s, e), run)
    ensures ValidRun(s, [e] + run) && Exec(s, [e] + run) == Exec(Step(s, e), run)
  {
    assert ([e] + run)[1..] == run;
  }

  // `-n 4 --ns-dist 3:1` launches ranks 0 to 2 of one namespace and rank 0 of another.
  function Launched(pid: int, rank: int, ns: string): Client
  {
    Client(Forked, pid, rank, Live(ns), true, 0, [Forked], 0)
  }

  function TwoNamespaces(ns: string, ns': string): (run: seq<Event>)
  {
    [Fork(1, 0, ns)] + ([Fork(2, 1, ns)] + ([Fork(3, 2, ns)] + [Fork(4, 0, ns')]))
  }

  lemma TwoNamespacesLaunch(ns: string, ns': string)
    ensures ValidRun(Init(4), TwoNamespaces(ns, ns'))
    ensures Exec(Init(4), TwoNamespaces(ns, ns'))
         == Init(4).(clients := [Launched(1, 0, ns), Launched(2, 1, ns), Launched(3, 2, ns), Launched(4, 0, ns')],
                     counter := 4)
  {
    var a, b, c := Launched(1, 0, ns), Launched(2, 1, ns), Launched(3, 2, ns);
    var s0 := Init(4);
    assert s0.clients == [FRESH, FRESH, FRESH, FRESH];
    assert [] + [Forked] == [Forked];
    assert s0.clients[0 := a] == [a, FRESH, FRESH, FRESH] && [a, FRESH, FRESH, FRESH][1 := b] == [a, b, FRESH, FRESH];
    assert [a, b, FRESH, FRESH][2 := c] == [a, b, c, FRESH];
    var s1 := s0.(clients := [a, FRESH, FRESH, FRESH], counter := 1);
    var s2 := s0.(clients := [a, b, FRESH, FRESH], counter := 2);
    var s3 := s0.(clients := [a, b, c, FRESH], counter := 3);
    assert Step(s0, Fork(1, 0, ns)) == s1 && Step(s1, Fork(2, 1, ns)) == s2 && Step(s2, Fork(3, 2, ns)) == s3;
    ExecCons(s3, Fork(4, 0, ns'), []);
    ExecCons(s2, Fork(3, 2, ns), [Fork(4, 0, ns')]);
    ExecCons(s1, Fork(2, 1, ns), [Fork(3, 2, ns)] + [Fork(4, 0, ns')]);
    ExecCons(s0, Fork(1, 0, ns), [Fork(2, 1, ns)] + ([Fork(3, 2, ns)] + [Fork(4, 0, ns')]));
  }

  /**
   * When the first client of that configuration has finalized and ended, nothing has gone
   * wrong; and yet the callback for the client of the second namespace reads the freed
   * name of the first, and is lost if that still reads as the name asked for.
   */
  lemma TwoNamespacesTouch(ns: string, ns': string)
    requires ns != ns'
    ensures ValidRun(Init(4), TwoNamespaces(ns, ns'))
    ensures var s := Step(Step(Exec(Init(4), TwoNamespaces(ns, ns')), Callback(0, ns, {})), WaitAll(1));
            && |s.clients| == 4 && !s.abort && !s.touched && Meant(s, 0, ns') == 3 && s.clients[3].stage == Forked
            && Finalized(s, 0, ns', {}).touched
            && Finalized(s, 0, ns', {0}).clients == s.clients
  {
    TwoNamespacesLaunch(ns, ns');
    var s4 := Exec(Init(4), TwoNamespaces(ns, ns'));
    var s5 := Step(s4, Callback(0, ns, {}));
    var ended := s5.clients[0].(stage := Term, pid := -1, ns := Freed, log := s5.clients[0].log + [Term]);
    assert Cleanup(s5.clients[0]) == (ended, false);
    var s6 := s5.(clients := s5.clients[0 := ended]);
    assert Reap(s6, 1, 1) == s6 by {
      assert Reap(s6, 1, 4) == s6 && Reap(s6, 1, 3) == s6 && Reap(s6, 1, 2) == s6;
    }
    assert Step(s5, WaitAll(1)) == s6;
    assert Find(s6.clients, 0, ns', {}, 2) == 3;
  }
}
