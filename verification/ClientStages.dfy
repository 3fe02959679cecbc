/**
 * The life cycle of the forked clients, unit/cli_stages.c, together with the two
 * callbacks that drive it: `finalized` of unit/server_callbacks.c and the SIGCHLD
 * handler of unit/test_server.c.
 *
 * The functions say what each operation does to the table of clients; the methods
 * of `ClientTable` are the operations themselves, written with the loops, the
 * early exits and the recursion of the source, and proved equal to the functions.
 */
module ClientStages {

  datatype Stage = Uninit | Forked | Connected | Fin | Disconn | Term | Undef

  // The place of a stage in the enumeration, which the source compares with <.
  function Ord(s: Stage): (o: nat)
  {
    match s
    case Uninit => 0
    case Forked => 1
    case Connected => 2
    case Fin => 3
    case Disconn => 4
    case Term => 5
    case Undef => 6
  }

  // The table cli_init copies into every client.
  function Next(s: Stage): (t: Stage)
  {
    match s
    case Uninit => Forked
    case Forked => Fin
    case Fin => Term
    case _ => Undef
  }

  // The ns pointer of an entry: NULL, a copied name, or what cli_terminate has freed
  // and left in place.
  datatype Name = Unset | Live(s: string) | Freed

  // One entry of cli_info. `log` and `callbacks` are history: the stages the entry
  // was given so far, and the finalized callbacks accepted for it.
  datatype Client = Client(stage: Stage, pid: int, rank: int, ns: Name, alive: bool, exitCode: int,
                           log: seq<Stage>, callbacks: nat)

  const FRESH := Client(Uninit, -1, -1, Unset, false, 0, [], 0)

  /**
   * The whole table. `aborts` and `touched` are history: how often the library's abort
   * callback ran, and whether a freed name was ever read.
   */
  datatype State = State(clients: seq<Client>, abort: bool, finalized: nat, releases: nat,
                         counter: nat, complete: bool, aborts: nat, touched: bool)

  // ---------- one client ----------

  // cli_finalize: the new entry, and whether test_abort is raised.
  function Finalize(c: Client): (r: (Client, bool))
  {
    (c.(stage := Fin, log := c.log + [Fin]), Next(c.stage) != Fin)
  }

  // cli_terminate.
  function Terminate(c: Client): (r: (Client, bool))
  {
    (c.(stage := Term, pid := -1, log := c.log + [Term], ns := if c.ns == Unset then Unset else Freed),
     Next(c.stage) != Term)
  }

  // cli_cleanup, which calls itself after it has moved the entry one stage on. The table
  // has no way to CONNECTED or DISCONN, so their branches are left out.
  function Cleanup(c: Client): (r: (Client, bool))
    decreases 6 - Ord(c.stage)
  {
    if Ord(c.stage) > Ord(Term) then (c, true)
    else match Next(c.stage)
      case Forked => (c, false)
      case Fin =>
        var (d, _) := Finalize(c);
        (Cleanup(d).0, true)
      case Term => Terminate(c)
      case _ => (c, true)
  }

  // ---------- the table ----------

  function Put(s: State, i: nat, r: (Client, bool)): (t: State)
    requires i < |s.clients|
  {
    s.(clients := s.clients[i := r.0], abort := s.abort || r.1)
  }

  // Entry i passes the test of the finalized callback. Its strcmp reads freed memory if the
  // name was freed; `stale` are the entries whose leftover bytes happen to be the name asked for.
  predicate Hits(clients: seq<Client>, rank: int, ns: string, stale: set<nat>, i: nat)
    requires i < |clients|
  {
    clients[i].rank == rank && match clients[i].ns
                               case Live(s) => s == ns
                               case Freed => i in stale
                               case Unset => false
  }

  // The first entry from k on that passes, or the table's length.
  function Find(clients: seq<Client>, rank: int, ns: string, stale: set<nat>, k: nat): (i: nat)
    requires k <= |clients|
    ensures k <= i <= |clients|
    ensures forall j | k <= j < i :: !Hits(clients, rank, ns, stale, j)
    ensures i < |clients| ==> Hits(clients, rank, ns, stale, i)
    decreases |clients| - k
  {
    if k == |clients| || Hits(clients, rank, ns, stale, k) then k else Find(clients, rank, ns, stale, k + 1)
  }

  // The search from k on comes to a freed name.
  predicate ReadsFreed(clients: seq<Client>, rank: int, ns: string, k: nat)
    requires k <= |clients|
    decreases |clients| - k
  {
    k < |clients| && (
      if clients[k].rank == rank && clients[k].ns == Freed then true
      else if clients[k].rank == rank && clients[k].ns == Live(ns) then false
      else ReadsFreed(clients, rank, ns, k + 1))
  }

  // The first entry from k on with this pid, or the table's length.
  function FindPid(clients: seq<Client>, pid: int, k: nat): (i: nat)
    requires k <= |clients|
    ensures k <= i <= |clients|
    ensures forall j | k <= j < i :: clients[j].pid != pid
    ensures i < |clients| ==> clients[i].pid == pid
    decreases |clients| - k
  {
    if k == |clients| || clients[k].pid == pid then k else FindPid(clients, pid, k + 1)
  }

  // The body of the fork loop of server_launch_clients, as one step.
  function Launch(s: State, pid: int, rank: int, ns: string): (t: State)
    requires s.counter < |s.clients|
  {
    var c := s.clients[s.counter];
    s.(clients := s.clients[s.counter := c.(pid := pid, rank := rank, ns := Live(ns), alive := true,
                                            stage := Forked, log := c.log + [Forked])],
       counter := s.counter + 1)
  }

  // A callback accepted for entry i; the last one due releases the published list.
  function Counted(s: State, i: nat): (t: State)
    requires i < |s.clients|
  {
    var (c, a) := Finalize(s.clients[i]);
    Put(s, i, (c.(callbacks := c.callbacks + 1), a)).(
      finalized := s.finalized + 1,
      releases := s.releases + if s.finalized + 1 == |s.clients| then 1 else 0)
  }

  // The finalized callback of the library.
  function Finalized(s: State, rank: int, ns: string, stale: set<nat>): (t: State)
  {
    var i := Find(s.clients, rank, ns, stale, 0);
    var t := s.(touched := s.touched || ReadsFreed(s.clients, rank, ns, 0));
    if i == |s.clients| || Ord(s.clients[i].stage) >= Ord(Term) then t else Counted(t, i)
  }

  // The inner loop of cli_wait_all: every entry with the pid is cleaned up.
  function Reap(s: State, pid: int, k: nat): (t: State)
    requires k <= |s.clients|
    ensures |t.clients| == |s.clients|
    decreases |s.clients| - k
  {
    if k == |s.clients| then s
    else if s.clients[k].pid == pid then Reap(Put(s, k, Cleanup(s.clients[k])), pid, k + 1)
    else Reap(s, pid, k + 1)
  }

  // One child reaped by the SIGCHLD handler: the first entry with its pid is
  // cleaned up and no longer alive. The code is that of the wait status.
  function Sigchld(s: State, pid: int, code: int): (t: State)
    ensures |t.clients| == |s.clients|
  {
    var i := FindPid(s.clients, pid, 0);
    if i == |s.clients| then s
    else
      var (c, a) := Cleanup(s.clients[i].(exitCode := code));
      Put(s, i, (c.(alive := false), a))
  }

  // The whole handler, for the children waitpid reports before it runs dry.
  function SigchldAll(s: State, gone: seq<(int, int)>): (t: State)
    ensures |t.clients| == |s.clients|
    decreases |gone|
  {
    if gone == [] then
      s.(complete := s.complete || forall i | 0 <= i < |s.clients| :: !s.clients[i].alive)
    else SigchldAll(Sigchld(s, gone[0].0, gone[0].1), gone[1..])
  }

  // cli_kill_all from entry k on.
  function KillAll(s: State, k: nat): (t: State)
    requires k <= |s.clients|
    ensures |t.clients| == |s.clients|
    decreases |s.clients| - k
  {
    if k == |s.clients| then s
    else if s.clients[k].stage == Uninit || Ord(s.clients[k].stage) >= Ord(Term) then KillAll(s, k + 1)
    else KillAll(Put(s, k, Cleanup(s.clients[k])), k + 1)
  }

  // test_terminated.
  ghost predicate Terminated(s: State)
  {
    s.abort || forall i | 0 <= i < |s.clients| :: Ord(s.clients[i].stage) >= Ord(Term)
  }

  // ---------- the operations ----------

  class ClientTable {
    var info: array<Client>
    var testAbort: bool
    var finalizedCount: nat
    var releases: nat
    var cliCounter: nat
    var testComplete: bool
    ghost var aborts: nat
    ghost var touched: bool

    ghost function View(): (s: State)
      reads this, info
    {
      State(info[..], testAbort, finalizedCount, releases, cliCounter, testComplete, aborts, touched)
    }

    // cli_init.
    constructor (nprocs: nat)
      ensures fresh(info)
      ensures View() == State(seq(nprocs, i => FRESH), false, 0, 0, 0, false, 0, false)
    {
      info := new Client[nprocs](i => FRESH);
      testAbort, finalizedCount, releases, cliCounter, testComplete := false, 0, 0, 0, false;
      aborts, touched := 0, false;
      new;
      assert info[..] == seq(nprocs, i => FRESH);
    }

    method LaunchOne(pid: int, rank: int, ns: string)
      requires cliCounter < info.Length
      modifies this`cliCounter, info
      ensures View() == Launch(old(View()), pid, rank, ns)
    {
      var c := info[cliCounter];
      c := c.(pid := pid, rank := rank, ns := Live(ns));
      c := c.(alive := true);
      c := c.(stage := Forked, log := c.log + [Forked]);
      info[cliCounter] := c;
      cliCounter := cliCounter + 1;
    }

    method CliFinalize(i: nat)
      requires i < info.Length
      modifies this`testAbort, info
      ensures View() == Put(old(View()), i, Finalize(old(info[i])))
    {
      if Next(info[i].stage) != Fin {
        testAbort := true;
      }
      info[i] := info[i].(stage := Fin, log := info[i].log + [Fin]);
    }

    method CliTerminate(i: nat)
      requires i < info.Length
      modifies this`testAbort, info
      ensures View() == Put(old(View()), i, Terminate(old(info[i])))
    {
      if Next(info[i].stage) != Term {
        testAbort := true;
      }
      info[i] := info[i].(pid := -1);
      info[i] := info[i].(stage := Term, log := info[i].log + [Term]);
      if info[i].ns != Unset {
        info[i] := info[i].(ns := Freed);
      }
    }

    method CliCleanup(i: nat)
      requires i < info.Length
      modifies this`testAbort, info
      ensures View() == Put(old(View()), i, Cleanup(old(info[i])))
      decreases 6 - Ord(info[i].stage)
    {
      if Ord(info[i].stage) > Ord(Term) {
        testAbort := true;
        return;
      }
      var next := Next(info[i].stage);
      if next == Fin {
        CliFinalize(i);
        CliCleanup(i);
        testAbort := true;
      } else if next == Term {
        CliTerminate(i);
      } else if next != Forked {
        testAbort := true;
      }
    }

    // The search of the finalized callback, which leaves its loop at the first hit.
    method Search(rank: int, ns: string, stale: set<nat>) returns (i: nat)
      modifies this`touched
      ensures i == Find(info[..], rank, ns, stale, 0)
      ensures touched == (old(touched) || ReadsFreed(info[..], rank, ns, 0))
    {
      i := 0;
      ghost var read := false;
      while i < info.Length
        invariant 0 <= i <= info.Length
        invariant Find(info[..], rank, ns, stale, 0) == Find(info[..], rank, ns, stale, i)
        invariant ReadsFreed(info[..], rank, ns, 0) == (read || ReadsFreed(info[..], rank, ns, i))
      {
        if rank == info[i].rank {
          read := read || info[i].ns == Freed;
          if Hits(info[..], rank, ns, stale, i) {
            break;
          }
        }
        i := i + 1;
      }
      touched := touched || read;
    }

    method FinalizedCallback(rank: int, ns: string, stale: set<nat>)
      modifies this`testAbort, this`finalizedCount, this`releases, this`touched, info
      ensures View() == Finalized(old(View()), rank, ns, stale)
    {
      var i := Search(rank, ns, stale);
      if i == info.Length {
        return;
      }
      if Ord(Term) <= Ord(info[i].stage) {
        return;
      }
      CountFinalized(i);
    }

    method CountFinalized(i: nat)
      requires i < info.Length
      modifies this`testAbort, this`finalizedCount, this`releases, info
      ensures View() == Counted(old(View()), i)
    {
      CliFinalize(i);
      info[i] := info[i].(callbacks := info[i].callbacks + 1);
      finalizedCount := finalizedCount + 1;
      if finalizedCount == info.Length {
        releases := releases + 1;
      }
    }

    method AbortCallback()
      modifies this`testAbort, this`aborts
      ensures View() == old(View()).(abort := true, aborts := old(aborts) + 1)
    {
      testAbort := true;
      aborts := aborts + 1;
    }

    method TestTerminated() returns (r: bool)
      ensures r == Terminated(View())
    {
      var ret := true;
      var i := 0;
      while i < info.Length
        invariant 0 <= i <= info.Length
        invariant ret == forall j | 0 <= j < i :: Ord(info[j].stage) >= Ord(Term)
      {
        ret := ret && Ord(Term) <= Ord(info[i].stage);
        i := i + 1;
      }
      r := ret || testAbort;
    }

    method ReapAll(pid: int)
      modifies this`testAbort, info
      ensures View() == Reap(old(View()), pid, 0)
    {
      var i := 0;
      while i < info.Length
        invariant 0 <= i <= info.Length
        invariant Reap(View(), pid, i) == Reap(old(View()), pid, 0)
      {
        if info[i].pid == pid {
          CliCleanup(i);
        }
        i := i + 1;
      }
    }

    method KillEveryone()
      modifies this`testAbort, info
      ensures View() == KillAll(old(View()), 0)
    {
      var i := 0;
      while i < info.Length
        invariant 0 <= i <= info.Length
        invariant KillAll(View(), i) == KillAll(old(View()), 0)
      {
        if info[i].stage != Uninit && Ord(info[i].stage) < Ord(Term) {
          CliCleanup(i);
        }
        i := i + 1;
      }
    }

    // One round of the handler's waitpid loop: the search stops at the first entry.
    method ReapOne(pid: int, code: int)
      modifies this`testAbort, info
      ensures View() == Sigchld(old(View()), pid, code)
    {
      var i := 0;
      while i < info.Length && info[i].pid != pid
        invariant 0 <= i <= info.Length
        invariant FindPid(info[..], pid, 0) == FindPid(info[..], pid, i)
      {
        i := i + 1;
      }
      if i < info.Length {
        info[i] := info[i].(exitCode := code);
        CliCleanup(i);
        info[i] := info[i].(alive := false);
      }
    }

    method SigchldHandler(gone: seq<(int, int)>)
      modifies this`testAbort, this`testComplete, info
      ensures View() == SigchldAll(old(View()), gone)
    {
      var k := 0;
      while k < |gone|
        invariant 0 <= k <= |gone|
        invariant SigchldAll(View(), gone[k..]) == SigchldAll(old(View()), gone)
      {
        ReapOne(gone[k].0, gone[k].1);
        k := k + 1;
      }
      var i := 0;
      while i < info.Length
        invariant 0 <= i <= info.Length
        invariant forall j | 0 <= j < i :: !info[j].alive
      {
        if info[i].alive {
          return;
        }
        i := i + 1;
      }
      testComplete := true;
    }
  }
}
