/**
 * What every run of init, stop, finalize, pause and resume keeps of the registry of
 * progress threads.
 */
module ProgressRuns {
  import opened ProgressThreads

  datatype Op = DoInit(name: Name) | DoStop(name: Name) | DoFinalize(name: Name) | DoPause(name: Name) | DoResume(name: Name)

  function Step(s: State, op: Op): (t: State)
  {
    match op
    case DoInit(name) => Init(s, name).0
    case DoStop(name) => Stop(s, name).0
    case DoFinalize(name) => Finalize(s, name).0
    case DoPause(name) => Pause(s, name).0
    case DoResume(name) => Resume(s, name).0
  }

  function Run(ops: seq<Op>): (s: State)
  {
    if ops == [] then State(false, [], 0, 0, [], [], []) else Step(Run(ops[..|ops| - 1]), ops[|ops| - 1])
  }

  // Inits less stops of one name.
  function Balance(log: seq<Call>, name: string): (b: int)
  {
    if log == [] then 0
    else
      Balance(log[..|log| - 1], name)
        + match log[|log| - 1] {
            case Inited(n) => if n == name then 1 else 0
            case Stopped(n) => if n == name then -1 else 0
          }
  }

  lemma BalanceStep(log: seq<Call>, c: Call, name: string)
    ensures Balance(log + [c], name) == Balance(log, name)
              + if c == Inited(name) then 1 else if c == Stopped(name) then -1 else 0
  {
    assert (log + [c])[..|log|] == log;
  }

  // How many trackers hold the event base, and for how many the thread runs.
  function Holders(ts: seq<Tracker>, base: nat): (n: nat)
  {
    if ts == [] then 0 else (if ts[0].base == base then 1 else 0) + Holders(ts[1..], base)
  }

  function Runners(ts: seq<Tracker>, thread: nat): (n: nat)
  {
    if ts == [] then 0 else (if ts[0].handle == thread then 1 else 0) + Runners(ts[1..], thread)
  }

  ghost predicate Sound(t: Tracker)
  {
    t.refcount >= 1 && (t.active <==> t.handle != NO_HANDLE)
  }

  ghost predicate Unique(ts: seq<Tracker>)
  {
    forall i, j | 0 <= i < j < |ts| :: ts[i].name != ts[j].name
  }

  // The reference count of a name; none is tracked without one.
  function Refs(ts: seq<Tracker>, name: string): (r: int)
  {
    var i := Find(ts, name, 0);
    if i < |ts| then ts[i].refcount else 0
  }

  ghost predicate NamesInv(s: State)
  {
    && (s.inited || s.tracking == [])
    && Unique(s.tracking)
    && (forall i | 0 <= i < |s.tracking| :: Sound(s.tracking[i]))
    && (forall name: string :: Refs(s.tracking, name) == Balance(s.log, name))
  }

  // An event base that was created is freed or held, and that once.
  ghost predicate BaseOnce(s: State, id: nat)
  {
    multiset(s.freed)[id] + Holders(s.tracking, id) == if id < s.bases then 1 else 0
  }

  // A thread that was created is joined or runs, and that once.
  ghost predicate ThreadOnce(s: State, id: nat)
  {
    multiset(s.joined)[id] + Runners(s.tracking, id) == if id < s.threads then 1 else 0
  }

  ghost predicate IdsInv(s: State)
  {
    (forall id: nat :: BaseOnce(s, id)) && (forall id: nat :: ThreadOnce(s, id))
  }

  // ---------- taking a tracker out, putting one in ----------

  lemma {:induction false} TakeOut(ts: seq<Tracker>, i: nat, id: nat)
    requires i < |ts|
    ensures Holders(ts, id) == Holders(Without(ts, i), id) + if ts[i].base == id then 1 else 0
    ensures Runners(ts, id) == Runners(Without(ts, i), id) + if ts[i].handle == id then 1 else 0
  {
    var us := Without(ts, i);
    if i > 0 {
      TakeOut(ts[1..], i - 1, id);
      assert us[0] == ts[0] && us[1..] == Without(ts[1..], i - 1);
    } else {
      assert us == ts[1..];
    }
  }

  lemma Swap(ts: seq<Tracker>, i: nat, t: Tracker, id: nat)
    requires i < |ts|
    ensures Holders(ts[i := t], id) - (if t.base == id then 1 else 0)
         == Holders(ts, id) - if ts[i].base == id then 1 else 0
    ensures Runners(ts[i := t], id) - (if t.handle == id then 1 else 0)
         == Runners(ts, id) - if ts[i].handle == id then 1 else 0
  {
    TakeOut(ts, i, id);
    TakeOut(ts[i := t], i, id);
    assert Without(ts[i := t], i) == Without(ts, i);
  }

  lemma Append(ts: seq<Tracker>, t: Tracker, id: nat)
    ensures Holders(ts + [t], id) == Holders(ts, id) + if t.base == id then 1 else 0
    ensures Runners(ts + [t], id) == Runners(ts, id) + if t.handle == id then 1 else 0
  {
    TakeOut(ts + [t], |ts|, id);
    assert Without(ts + [t], |ts|) == ts;
  }

  lemma SeqAppend(s: seq<int>, x: int, id: int)
    ensures multiset(s + [x])[id] == multiset(s)[id] + if x == id then 1 else 0
  {
    assert multiset(s + [x]) == multiset(s) + multiset{x};
  }

  // Where a name is, in a list whose names are unique.
  lemma FindAt(ts: seq<Tracker>, i: nat)
    requires Unique(ts) && i < |ts|
    ensures Find(ts, ts[i].name, 0) == i
    ensures Refs(ts, ts[i].name) == ts[i].refcount
  {
  }

  // A tracker changed in place changes the count of its own name only.
  lemma RefsSwap(ts: seq<Tracker>, i: nat, t: Tracker, name: string)
    requires Unique(ts) && i < |ts| && t.name == ts[i].name
    ensures Unique(ts[i := t])
    ensures Refs(ts[i := t], name) == if name == t.name then t.refcount else Refs(ts, name)
  {
    var us := ts[i := t];
    assert forall j | 0 <= j < |ts| :: us[j].name == ts[j].name;
    var k := Find(ts, name, 0);
    if k < |ts| {
      FindAt(ts, k);
      FindAt(us, k);
    } else {
      assert forall j | 0 <= j < |us| :: us[j].name != name;
    }
  }

  lemma RefsAppend(ts: seq<Tracker>, t: Tracker, name: string)
    requires Unique(ts) && Find(ts, t.name, 0) == |ts|
    ensures Unique(ts + [t])
    ensures Refs(ts + [t], name) == if name == t.name then t.refcount else Refs(ts, name)
  {
    var us := ts + [t];
    assert forall j | 0 <= j < |ts| :: us[j] == ts[j];
    if name == t.name {
      FindAt(us, |ts|);
    } else if Find(ts, name, 0) < |ts| {
      FindAt(us, Find(ts, name, 0));
    } else {
      assert forall j | 0 <= j < |us| :: us[j].name != name;
    }
  }

  lemma RefsWithout(ts: seq<Tracker>, i: nat, name: string)
    requires Unique(ts) && i < |ts|
    ensures Unique(Without(ts, i))
    ensures Refs(Without(ts, i), name) == if name == ts[i].name then 0 else Refs(ts, name)
  {
    var us := Without(ts, i);
    assert forall j | 0 <= j < |us| :: us[j] == ts[if j < i then j else j + 1];
    var m := Find(ts, name, 0);
    if name == ts[i].name || m == |ts| {
      assert forall j | 0 <= j < |us| :: us[j].name != name;
    } else {
      FindAt(us, if m < i then m else m - 1);
    }
  }

  // ---------- one operation ----------

  // A call of a tracked name that is counted.
  lemma CountedNames(s: State, i: nat, c: Call, t: Tracker)
    requires NamesInv(s) && s.inited && i < |s.tracking|
    requires var n := s.tracking[i].name; c == Inited(n) || (c == Stopped(n) && s.tracking[i].refcount > 1)
    requires t == s.tracking[i].(refcount := s.tracking[i].refcount + if c.Inited? then 1 else -1)
    ensures NamesInv(s.(tracking := s.tracking[i := t], log := s.log + [c]))
  {
    FindAt(s.tracking, i);
    forall name: string ensures Refs(s.tracking[i := t], name) == Balance(s.log + [c], name) {
      assert Refs(s.tracking, name) == Balance(s.log, name);
      RefsSwap(s.tracking, i, t, name);
      BalanceStep(s.log, c, name);
    }
    RefsSwap(s.tracking, i, t, t.name);
    assert Sound(s.tracking[i]);
  }

  // A tracker changed in place, and what was joined and started for it.
  lemma ChangedIds(s: State, i: nat, t: Tracker, u: State)
    requires IdsInv(s) && i < |s.tracking|
    requires t.base == s.tracking[i].base
    requires u.tracking == s.tracking[i := t] && u.freed == s.freed && u.bases == s.bases
    requires || (t.handle == s.tracking[i].handle && u.joined == s.joined && u.threads == s.threads)
             || (t.handle == NO_HANDLE && u.joined == s.joined + [s.tracking[i].handle] && u.threads == s.threads)
             || (s.tracking[i].handle == NO_HANDLE && t.handle == s.threads
                 && u.joined == s.joined && u.threads == s.threads + 1)
    ensures IdsInv(u)
  {
    forall id: nat ensures BaseOnce(u, id) {
      assert BaseOnce(s, id);
      Swap(s.tracking, i, t, id);
    }
    forall id: nat ensures ThreadOnce(u, id) {
      assert ThreadOnce(s, id);
      Swap(s.tracking, i, t, id);
      SeqAppend(s.joined, s.tracking[i].handle, id);
    }
  }

  lemma NewNames(s: State, t: Tracker)
    requires NamesInv(s) && Find(s.tracking, t.name, 0) == |s.tracking|
    requires t.refcount == 1 && t.active && t.handle != NO_HANDLE
    ensures NamesInv(s.(inited := true, tracking := s.tracking + [t], log := s.log + [Inited(t.name)]))
  {
    var us := s.tracking + [t];
    forall name: string ensures Refs(us, name) == Balance(s.log + [Inited(t.name)], name) {
      assert Refs(s.tracking, name) == Balance(s.log, name);
      RefsAppend(s.tracking, t, name);
      BalanceStep(s.log, Inited(t.name), name);
    }
    RefsAppend(s.tracking, t, t.name);
  }

  lemma NewIds(s: State, t: Tracker, u: State)
    requires IdsInv(s) && t.base == s.bases && t.handle == s.threads
    requires u.tracking == s.tracking + [t] && u.freed == s.freed && u.joined == s.joined
    requires u.bases == s.bases + 1 && u.threads == s.threads + 1
    ensures IdsInv(u)
  {
    forall id: nat ensures BaseOnce(u, id) {
      assert BaseOnce(s, id);
      Append(s.tracking, t, id);
    }
    forall id: nat ensures ThreadOnce(u, id) {
      assert ThreadOnce(s, id);
      Append(s.tracking, t, id);
    }
  }

  lemma LastStopNames(s: State, i: nat)
    requires NamesInv(s) && s.inited && i < |s.tracking| && s.tracking[i].refcount == 1
    ensures NamesInv(s.(tracking := Without(s.tracking, i), log := s.log + [Stopped(s.tracking[i].name)]))
  {
    var t, us := s.tracking[i], Without(s.tracking, i);
    FindAt(s.tracking, i);
    forall name: string ensures Refs(us, name) == Balance(s.log + [Stopped(t.name)], name) {
      assert Refs(s.tracking, name) == Balance(s.log, name);
      RefsWithout(s.tracking, i, name);
      BalanceStep(s.log, Stopped(t.name), name);
    }
    RefsWithout(s.tracking, i, t.name);
    assert forall j | 0 <= j < |us| :: us[j] == s.tracking[if j < i then j else j + 1];
  }

  lemma LastStopIds(s: State, i: nat, u: State)
    requires IdsInv(s) && i < |s.tracking| && Sound(s.tracking[i])
    requires u.tracking == Without(s.tracking, i) && u.bases == s.bases && u.threads == s.threads
    requires u.freed == s.freed + [s.tracking[i].base]
    requires u.joined == s.joined + if s.tracking[i].active then [s.tracking[i].handle] else []
    ensures IdsInv(u)
  {
    var t := s.tracking[i];
    forall id: nat ensures BaseOnce(u, id) {
      assert BaseOnce(s, id);
      TakeOut(s.tracking, i, id);
      SeqAppend(s.freed, t.base, id);
    }
    forall id: nat ensures ThreadOnce(u, id) {
      assert ThreadOnce(s, id);
      TakeOut(s.tracking, i, id);
      SeqAppend(s.joined, t.handle, id);
      assert s.joined + [] == s.joined;
    }
  }

  lemma InitKeepsNames(s: State, name: Name)
    requires NamesInv(s)
    ensures NamesInv(Init(s, name).0)
  {
    var n := Actual(name);
    var i := Find(s.tracking, n, 0);
    if i < |s.tracking| {
      CountedNames(s, i, Inited(n), s.tracking[i].(refcount := s.tracking[i].refcount + 1));
    } else {
      NewNames(s, Tracker(n, 1, s.bases, true, s.threads));
    }
  }

  lemma InitKeepsIds(s: State, name: Name)
    requires IdsInv(s)
    ensures IdsInv(Init(s, name).0)
  {
    var n := Actual(name);
    var i := Find(s.tracking, n, 0);
    var u := Init(s, name).0;
    if i < |s.tracking| {
      ChangedIds(s, i, u.tracking[i], u);
    } else {
      NewIds(s, Tracker(n, 1, s.bases, true, s.threads), u);
    }
  }

  lemma StopKeepsNames(s: State, name: Name)
    requires NamesInv(s)
    ensures NamesInv(Stop(s, name).0)
  {
    var i := Find(s.tracking, Actual(name), 0);
    if s.inited && i < |s.tracking| {
      var t := s.tracking[i].(refcount := s.tracking[i].refcount - 1);
      assert Sound(s.tracking[i]);
      if t.refcount > 0 {
        CountedNames(s, i, Stopped(t.name), t);
      } else {
        LastStopNames(s, i);
      }
    }
  }

  lemma StopKeepsIds(s: State, name: Name)
    requires NamesInv(s) && IdsInv(s)
    ensures IdsInv(Stop(s, name).0)
  {
    var i := Find(s.tracking, Actual(name), 0);
    var u := Stop(s, name).0;
    if s.inited && i < |s.tracking| {
      assert Sound(s.tracking[i]);
      if s.tracking[i].refcount > 1 {
        ChangedIds(s, i, s.tracking[i].(refcount := s.tracking[i].refcount - 1), u);
      } else {
        LastStopIds(s, i, u);
      }
    }
  }

  // A tracker whose engine was started or stopped.
  lemma EngineKeepsNames(s: State, i: nat, t: Tracker)
    requires NamesInv(s) && i < |s.tracking| && Sound(t)
    requires t.name == s.tracking[i].name && t.refcount == s.tracking[i].refcount
    ensures NamesInv(s.(tracking := s.tracking[i := t]))
  {
    FindAt(s.tracking, i);
    forall name: string ensures Refs(s.tracking[i := t], name) == Balance(s.log, name) {
      assert Refs(s.tracking, name) == Balance(s.log, name);
      RefsSwap(s.tracking, i, t, name);
    }
    RefsSwap(s.tracking, i, t, t.name);
  }

  lemma PauseKeepsInv(s: State, name: Name)
    requires NamesInv(s) && IdsInv(s)
    ensures NamesInv(Pause(s, name).0) && IdsInv(Pause(s, name).0)
  {
    var i := Find(s.tracking, Actual(name), 0);
    if s.inited && i < |s.tracking| {
      assert Sound(s.tracking[i]);
      var t := StopEngine(s.tracking[i]).0;
      EngineKeepsNames(s, i, t);
      assert s.joined + [] == s.joined;
      ChangedIds(s, i, t, Pause(s, name).0);
    }
  }

  lemma ResumeKeepsInv(s: State, name: Name)
    requires NamesInv(s) && IdsInv(s)
    ensures NamesInv(Resume(s, name).0) && IdsInv(Resume(s, name).0)
  {
    var i := Find(s.tracking, Actual(name), 0);
    if s.inited && i < |s.tracking| && !s.tracking[i].active {
      assert Sound(s.tracking[i]);
      var t := s.tracking[i].(active := true, handle := s.threads);
      EngineKeepsNames(s, i, t);
      ChangedIds(s, i, t, Resume(s, name).0);
    }
  }

  lemma FinalizeInert(s: State, name: Name)
    requires NamesInv(s)
    ensures Finalize(s, name).0 == s
  {
    var i := Find(s.tracking, Actual(name), 0);
    if i < |s.tracking| {
      assert Sound(s.tracking[i]);
    }
  }

  lemma StepKeepsInv(s: State, op: Op)
    requires NamesInv(s) && IdsInv(s)
    ensures NamesInv(Step(s, op)) && IdsInv(Step(s, op))
  {
    match op
    case DoInit(name) => InitKeepsNames(s, name); InitKeepsIds(s, name);
    case DoStop(name) => StopKeepsNames(s, name); StopKeepsIds(s, name);
    case DoFinalize(name) => FinalizeInert(s, name);
    case DoPause(name) => PauseKeepsInv(s, name);
    case DoResume(name) => ResumeKeepsInv(s, name);
  }

  lemma {:induction false} RunInv(ops: seq<Op>)
    ensures NamesInv(Run(ops)) && IdsInv(Run(ops))
  {
    if ops == [] {
      EmptyInv(Run(ops));
    } else {
      RunInv(ops[..|ops| - 1]);
      StepKeepsInv(Run(ops[..|ops| - 1]), ops[|ops| - 1]);
    }
  }

  lemma EmptyInv(s: State)
    requires s == State(false, [], 0, 0, [], [], [])
    ensures NamesInv(s) && IdsInv(s)
  {
  }

  // ---------- what follows for every run ----------

  /**
   * Tracked names are unique; the reference count of each is its inits less its
   * stops and at least one; an engine is marked active exactly while its handle
   * names a thread. A name that is not tracked has as many stops as inits.
   */
  lemma RegistryAccounts(ops: seq<Op>, name: string)
    ensures var s := Run(ops);
            var i := Find(s.tracking, name, 0);
            && (forall j, k | 0 <= j < k < |s.tracking| :: s.tracking[j].name != s.tracking[k].name)
            && (forall j | 0 <= j < |s.tracking| ::
                  s.tracking[j].active <==> s.tracking[j].handle != NO_HANDLE)
            && (if i < |s.tracking| then 1 <= s.tracking[i].refcount == Balance(s.log, name)
                else Balance(s.log, name) == 0)
  {
    RunInv(ops);
    var s := Run(ops);
    assert Refs(s.tracking, name) == Balance(s.log, name);
    assert forall j | 0 <= j < |s.tracking| :: Sound(s.tracking[j]);
  }

  /**
   * The handle guard never refuses: init always returns a base, and resume answers
   * anything but a bad parameter. Finalize never changes anything.
   */
  lemma GuardNeverRefuses(ops: seq<Op>, name: Name)
    ensures Init(Run(ops), name).1.Base?
    ensures Resume(Run(ops), name).1 != BadParam
    ensures Finalize(Run(ops), name).0 == Run(ops)
  {
    RunInv(ops);
    var s := Run(ops);
    assert forall j | 0 <= j < |s.tracking| :: Sound(s.tracking[j]);
  }

  /**
   * Every event base created is held by one tracker or was freed, once; every
   * thread created runs for one tracker or was joined, once.
   */
  lemma FreedOnce(ops: seq<Op>, id: nat)
    ensures var s := Run(ops);
            && multiset(s.freed)[id] + Holders(s.tracking, id) == (if id < s.bases then 1 else 0)
            && multiset(s.joined)[id] + Runners(s.tracking, id) == (if id < s.threads then 1 else 0)
  {
    RunInv(ops);
    assert BaseOnce(Run(ops), id) && ThreadOnce(Run(ops), id);
  }

  /**
   * An event base is freed by the stop that matches the last init outstanding for
   * its name, and by no other operation.
   */
  lemma FreedAtLastStop(ops: seq<Op>, op: Op)
    ensures var s := Run(ops);
            if op.DoStop? && Balance(s.log, Actual(op.name)) == 1
            then var i := Find(s.tracking, Actual(op.name), 0);
                 && i < |s.tracking|
                 && Step(s, op).freed == s.freed + [s.tracking[i].base]
                 && Find(Step(s, op).tracking, Actual(op.name), 0) == |Step(s, op).tracking|
            else Step(s, op).freed == s.freed
  {
    RunInv(ops);
    var s := Run(ops);
    var name := Actual(op.name);
    var i := Find(s.tracking, name, 0);
    assert Refs(s.tracking, name) == Balance(s.log, name);
    assert forall j | 0 <= j < |s.tracking| :: Sound(s.tracking[j]);
    if op.DoStop? && Balance(s.log, name) == 1 {
      RefsWithout(s.tracking, i, name);
      NotRefs(s, op, i);
    } else {
      GuardNeverRefuses(ops, op.name);
    }
  }

  lemma NotRefs(s: State, op: Op, i: nat)
    requires op.DoStop? && s.inited && Unique(s.tracking) && i == Find(s.tracking, Actual(op.name), 0) < |s.tracking|
    requires s.tracking[i].refcount == 1
    ensures Find(Step(s, op).tracking, Actual(op.name), 0) == |Step(s, op).tracking|
  {
    var us := Without(s.tracking, i);
    assert Step(s, op).tracking == us;
    assert forall j | 0 <= j < |us| :: us[j] == s.tracking[if j < i then j else j + 1];
  }

  /** A pause followed by a resume leaves a paused or running engine running, on a new
      thread; of the rest only the thread it had is gone, if it was running. */
  lemma PauseResume(ops: seq<Op>, name: Name)
    ensures var s := Run(ops);
            var i := Find(s.tracking, Actual(name), 0);
            i < |s.tracking| ==>
              var t := Resume(Pause(s, name).0, name);
              && t.1 == Success
              && |t.0.tracking| == |s.tracking| && t.0.tracking[i].active
              && t.0.tracking[i] == s.tracking[i].(active := true, handle := s.threads)
              && t.0.tracking[i := s.tracking[i]] == s.tracking
              && t.0.inited == s.inited && t.0.bases == s.bases && t.0.freed == s.freed && t.0.log == s.log
              && t.0.threads == s.threads + 1
              && t.0.joined == s.joined + if s.tracking[i].active then [s.tracking[i].handle] else []
  {
    RunInv(ops);
    var s := Run(ops);
    var i := Find(s.tracking, Actual(name), 0);
    if i < |s.tracking| {
      assert Sound(s.tracking[i]);
      var p := Pause(s, name).0;
      RefsSwap(s.tracking, i, p.tracking[i], Actual(name));
      FindAt(p.tracking, i);
    }
  }

  // ---------- what each operation does ----------

  // The tracker of a name, if there is one.
  function Tracked(s: State, name: string): (t: seq<Tracker>)
    ensures |t| <= 1
  {
    var i := Find(s.tracking, name, 0);
    if i < |s.tracking| then [s.tracking[i]] else []
  }

  // What the operations need to know of a state that was reached.
  lemma RunFacts(ops: seq<Op>, name: string)
    ensures var s := Run(ops);
            && Unique(s.tracking) && (s.inited || s.tracking == [])
            && Refs(s.tracking, name) == Balance(s.log, name)
            && var i := Find(s.tracking, name, 0); i < |s.tracking| ==> Sound(s.tracking[i])
  {
    RunInv(ops);
  }

  lemma TrackedIs(ts: seq<Tracker>, i: nat, name: string)
    requires Unique(ts) && i < |ts| && ts[i].name == name
    ensures Find(ts, name, 0) == i
  {
    FindAt(ts, i);
  }

  // A tracker that takes the place of one with the same name.
  lemma SwapTracked(s: State, t: State, i: nat, new_: Tracker, name: string)
    requires Unique(s.tracking) && i < |s.tracking| && new_.name == s.tracking[i].name
    requires t.tracking == s.tracking[i := new_]
    ensures Unique(t.tracking)
    ensures Tracked(t, name) == if name == new_.name then [new_] else Tracked(s, name)
  {
    var j := Find(s.tracking, name, 0);
    if j < |s.tracking| {
      TrackedIs(t.tracking, j, name);
      TrackedIs(s.tracking, i, new_.name);
    }
  }

  lemma AppendTracked(s: State, t: State, new_: Tracker, name: string)
    requires Unique(s.tracking) && Find(s.tracking, new_.name, 0) == |s.tracking|
    requires t.tracking == s.tracking + [new_]
    ensures Tracked(t, name) == if name == new_.name then [new_] else Tracked(s, name)
  {
    var us := t.tracking;
    assert forall j | 0 <= j < |s.tracking| :: us[j] == s.tracking[j];
    assert Unique(us);
    var j := Find(s.tracking, name, 0);
    if j < |s.tracking| {
      TrackedIs(us, j, name);
    } else if name == new_.name {
      TrackedIs(us, |s.tracking|, name);
    }
  }

  lemma RemoveTracked(s: State, t: State, i: nat, name: string)
    requires Unique(s.tracking) && i < |s.tracking| && t.tracking == Without(s.tracking, i)
    ensures Tracked(t, name) == if name == s.tracking[i].name then [] else Tracked(s, name)
  {
    var us := t.tracking;
    assert forall j | 0 <= j < |us| :: us[j] == s.tracking[if j < i then j else j + 1];
    assert Unique(us);
    var j := Find(s.tracking, name, 0);
    if j < |s.tracking| && j != i {
      TrackedIs(us, if j < i then j else j - 1, name);
    }
  }

  /** No operation touches the tracker of another name. */
  lemma {:induction false} OthersUntouched(ops: seq<Op>, op: Op, other: string)
    requires other != Actual(op.name)
    ensures Tracked(Step(Run(ops), op), other) == Tracked(Run(ops), other)
  {
    RunFacts(ops, Actual(op.name));
    var s := Run(ops);
    var t := Step(s, op);
    var i := Find(s.tracking, Actual(op.name), 0);
    if |t.tracking| > |s.tracking| {
      AppendTracked(s, t, t.tracking[|s.tracking|], other);
    } else if |t.tracking| < |s.tracking| {
      RemoveTracked(s, t, i, other);
    } else if i < |s.tracking| && t.tracking == s.tracking[i := t.tracking[i]] {
      SwapTracked(s, t, i, t.tracking[i], other);
    }
  }

  /** Without a name an operation means the shared thread. */
  lemma SharedName(name: string)
    ensures Actual(Null) == "PMIX-wide async progress thread" && Actual(Named(name)) == name
  {
  }

  /** Init gives a tracked name the base it has and counts it up; for a new name it creates
      a base and a thread, which no one had before. */
  lemma {:induction false} InitExact(ops: seq<Op>, name: Name)
    ensures var s := Run(ops);
            var (t, base) := Init(s, name);
            var was := Tracked(s, Actual(name));
            && t.freed == s.freed && t.joined == s.joined && t.log == s.log + [Inited(Actual(name))]
            && if was == [] then
                 && base == Base(s.bases) && t.bases == s.bases + 1 && t.threads == s.threads + 1
                 && Tracked(t, Actual(name)) == [Tracker(Actual(name), 1, s.bases, true, s.threads)]
               else
                 && base == Base(was[0].base) && t.bases == s.bases && t.threads == s.threads
                 && Tracked(t, Actual(name)) == [was[0].(refcount := was[0].refcount + 1)]
  {
    RunFacts(ops, Actual(name));
    var s := Run(ops);
    var (t, _) := Init(s, name);
    var i := Find(s.tracking, Actual(name), 0);
    if i < |s.tracking| {
      SwapTracked(s, t, i, t.tracking[i], Actual(name));
    } else {
      AppendTracked(s, t, t.tracking[i], Actual(name));
    }
  }

  /** Stop succeeds exactly for a name with an init outstanding. The last one frees the
      base and joins the thread, if it runs; any other only counts down. */
  lemma {:induction false} StopExact(ops: seq<Op>, name: Name)
    ensures var s := Run(ops);
            var (t, status) := Stop(s, name);
            var was := Tracked(s, Actual(name));
            var open := Balance(s.log, Actual(name));
            && (status == Success <==> open > 0) && (status == NotFound <==> open <= 0)
            && (open > 0 <==> was != []) && t.bases == s.bases && t.threads == s.threads
            && (open <= 0 ==> t == s)
            && (open == 1 ==> && Tracked(t, Actual(name)) == [] && t.freed == s.freed + [was[0].base]
                              && t.joined == s.joined + if was[0].active then [was[0].handle] else [])
            && (open > 1 ==> && Tracked(t, Actual(name)) == [was[0].(refcount := was[0].refcount - 1)]
                             && t.freed == s.freed && t.joined == s.joined)
  {
    RunFacts(ops, Actual(name));
    var s := Run(ops);
    var n := Actual(name);
    var (t, _) := Stop(s, name);
    var i := Find(s.tracking, n, 0);
    if i < |s.tracking| {
      if s.tracking[i].refcount == 1 {
        RemoveTracked(s, t, i, n);
      } else {
        SwapTracked(s, t, i, t.tracking[i], n);
      }
    }
  }

  /** Pause succeeds exactly for a tracked name, and joins its thread if it runs. */
  lemma {:induction false} PauseExact(ops: seq<Op>, name: Name)
    ensures var s := Run(ops);
            var (t, status) := Pause(s, name);
            var was := Tracked(s, Actual(name));
            if was == [] then status == NotFound && t == s
            else
              && status == Success && t == s.(tracking := t.tracking, joined := t.joined)
              && Tracked(t, Actual(name)) == [was[0].(active := false, handle := NO_HANDLE)]
              && t.joined == s.joined + if was[0].active then [was[0].handle] else []
  {
    RunFacts(ops, Actual(name));
    var s := Run(ops);
    var (t, _) := Pause(s, name);
    var i := Find(s.tracking, Actual(name), 0);
    if i < |s.tracking| {
      SwapTracked(s, t, i, t.tracking[i], Actual(name));
    }
  }

  /** Resume is busy exactly if the engine is active; a paused one gets a new thread. */
  lemma {:induction false} ResumeExact(ops: seq<Op>, name: Name)
    ensures var s := Run(ops);
            var (t, status) := Resume(s, name);
            var was := Tracked(s, Actual(name));
            if was == [] then status == NotFound && t == s
            else if was[0].active then status == Busy && t == s
            else
              && status == Success && t == s.(tracking := t.tracking, threads := s.threads + 1)
              && Tracked(t, Actual(name)) == [was[0].(active := true, handle := s.threads)]
  {
    RunFacts(ops, Actual(name));
    var s := Run(ops);
    var (t, _) := Resume(s, name);
    var i := Find(s.tracking, Actual(name), 0);
    if i < |s.tracking| {
      SwapTracked(s, t, i, t.tracking[i], Actual(name));
    }
  }

  /** Finalize only tells whether the name is tracked. */
  lemma {:induction false} FinalizeExact(ops: seq<Op>, name: Name)
    ensures Finalize(Run(ops), name)
         == (Run(ops), if Tracked(Run(ops), Actual(name)) == [] then NotFound else Success)
  {
    RunFacts(ops, Actual(name));
  }
}
