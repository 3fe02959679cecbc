/**
 * The registry of progress threads, unit/unit_progress_threads.c, with the handle
 * guard of pmix_thread_start and pmix_thread_join, unit/test_common.c. Allocations
 * and thread creation succeed; event bases and threads are named by the order in
 * which they were created.
 */
module ProgressThreads {

  datatype Name = Null | Named(s: string)

  const SHARED := "PMIX-wide async progress thread"

  function Actual(name: Name): (s: string) { if name == Null then SHARED else name.s }

  // The value of t_handle while no thread runs.
  const NO_HANDLE := -1

  datatype Tracker = Tracker(name: string, refcount: int, base: int, active: bool, handle: int)

  datatype Status = Success | NotFound | Busy | BadParam

  datatype Base = NoBase | Base(id: int)

  // A call that was counted: an init that returned a base, a stop that found its tracker.
  datatype Call = Inited(name: string) | Stopped(name: string)

  /**
   * `bases` and `threads` count what was created; `freed` and `joined` list what is
   * gone again, in order; `log` lists the counted calls. The last three are history.
   */
  datatype State = State(inited: bool, tracking: seq<Tracker>, bases: nat, threads: nat,
                         freed: seq<int>, joined: seq<int>, log: seq<Call>)

  // The position of the first tracker from k on with this name, or the list's length.
  function Find(ts: seq<Tracker>, name: string, k: nat): (i: nat)
    requires k <= |ts|
    ensures k <= i <= |ts|
    ensures i < |ts| ==> ts[i].name == name
    ensures forall j | k <= j < i :: ts[j].name != name
    decreases |ts| - k
  {
    if k == |ts| || ts[k].name == name then k else Find(ts, name, k + 1)
  }

  function Without<T>(s: seq<T>, i: nat): (t: seq<T>)
    requires i < |s|
  {
    s[..i] + s[i + 1..]
  }

  // start_progress_engine and pmix_thread_start: whether the guard lets it start.
  function Start(t: Tracker, thread: int): (r: (Tracker, bool))
  {
    if t.handle != NO_HANDLE then (t.(active := true), false)
    else (t.(active := true, handle := thread), true)
  }

  // ---------- the operations ----------

  function Init(s: State, name: Name): (r: (State, Base))
  {
    var n := Actual(name);
    var i := Find(s.tracking, n, 0);
    if i < |s.tracking| then
      var t := s.tracking[i];
      (s.(inited := true, tracking := s.tracking[i := t.(refcount := t.refcount + 1)], log := s.log + [Inited(n)]),
       Base(t.base))
    else
      var (t, ok) := Start(Tracker(n, 1, s.bases, false, NO_HANDLE), s.threads);
      if ok then
        (s.(inited := true, tracking := s.tracking + [t], bases := s.bases + 1, threads := s.threads + 1,
            log := s.log + [Inited(n)]),
         Base(t.base))
      else
        (s.(inited := true, bases := s.bases + 1, freed := s.freed + [t.base]), NoBase)
  }

  // stop_progress_engine: the entry, and what pthread_join was given.
  function StopEngine(t: Tracker): (r: (Tracker, seq<int>))
  {
    if t.active then (t.(active := false, handle := NO_HANDLE), [t.handle]) else (t, [])
  }

  function Stop(s: State, name: Name): (r: (State, Status))
  {
    var n := Actual(name);
    var i := Find(s.tracking, n, 0);
    if !s.inited || i == |s.tracking| then (s, NotFound)
    else
      var t := s.tracking[i].(refcount := s.tracking[i].refcount - 1);
      var u := s.(log := s.log + [Stopped(n)]);
      if t.refcount > 0 then (u.(tracking := s.tracking[i := t]), Success)
      else (u.(tracking := Without(s.tracking, i), joined := s.joined + StopEngine(t).1, freed := s.freed + [t.base]),
            Success)
  }

  function Finalize(s: State, name: Name): (r: (State, Status))
  {
    var i := Find(s.tracking, Actual(name), 0);
    if !s.inited || i == |s.tracking| then (s, NotFound)
    else if s.tracking[i].refcount > 0 then (s, Success)
    else (s.(tracking := Without(s.tracking, i), freed := s.freed + [s.tracking[i].base]), Success)
  }

  function Pause(s: State, name: Name): (r: (State, Status))
  {
    var i := Find(s.tracking, Actual(name), 0);
    if !s.inited || i == |s.tracking| then (s, NotFound)
    else
      var (t, gone) := StopEngine(s.tracking[i]);
      (s.(tracking := s.tracking[i := t], joined := s.joined + gone), Success)
  }

  function Resume(s: State, name: Name): (r: (State, Status))
  {
    var i := Find(s.tracking, Actual(name), 0);
    if !s.inited || i == |s.tracking| then (s, NotFound)
    else if s.tracking[i].active then (s, Busy)
    else
      var (t, ok) := Start(s.tracking[i], s.threads);
      (s.(tracking := s.tracking[i := t], threads := s.threads + if ok then 1 else 0),
       if ok then Success else BadParam)
  }

  // ---------- the same on the registry's own fields ----------

  class Registry {
    var inited: bool
    var tracking: seq<Tracker>
    var bases: nat
    var threads: nat
    ghost var freed: seq<int>
    ghost var joined: seq<int>
    ghost var log: seq<Call>

    ghost function View(): (s: State)
      reads this
    {
      State(inited, tracking, bases, threads, freed, joined, log)
    }

    constructor ()
      ensures View() == State(false, [], 0, 0, [], [], [])
    {
      inited, tracking, bases, threads, freed, joined, log := false, [], 0, 0, [], [], [];
    }

    // UNIT_LIST_FOREACH with a strcmp on each tracker.
    method Search(name: string) returns (i: nat)
      ensures i == Find(tracking, name, 0)
    {
      i := 0;
      while i < |tracking|
        invariant i <= |tracking|
        invariant Find(tracking, name, 0) == Find(tracking, name, i)
      {
        if tracking[i].name == name {
          return;
        }
        i := i + 1;
      }
    }

    // pmix_thread_start on the tracker's thread object.
    method ThreadStart(t: Tracker) returns (t': Tracker, rc: Status)
      modifies this`threads
      ensures t' == if t.handle != NO_HANDLE then t else t.(handle := old(threads))
      ensures rc == if t.handle != NO_HANDLE then BadParam else Success
      ensures threads == old(threads) + if t.handle != NO_HANDLE then 0 else 1
    {
      if t.handle != NO_HANDLE {
        return t, BadParam;
      }
      t' := t.(handle := threads);
      threads := threads + 1;
      rc := Success;
    }

    method StopTheEngine(t: Tracker) returns (t': Tracker)
      requires t.active
      modifies this`joined
      ensures t' == StopEngine(t).0 && joined == old(joined) + StopEngine(t).1
    {
      t' := t.(active := false);
      joined := joined + [t.handle];
      t' := t'.(handle := NO_HANDLE);
    }

    method ThreadInit(name: Name) returns (base: Base)
      modifies this
      ensures (View(), base) == Init(old(View()), name)
    {
      inited := true;
      var n := if name == Null then SHARED else name.s;
      var i := Search(n);
      if i < |tracking| {
        tracking := tracking[i := tracking[i].(refcount := tracking[i].refcount + 1)];
        log := log + [Inited(n)];
        return Base(tracking[i].base);
      }
      var t := Tracker(n, 1, bases, false, NO_HANDLE);
      bases := bases + 1;
      t := t.(active := true);
      var u, rc := ThreadStart(t);
      assert rc == Success;
      tracking := tracking + [u];
      log := log + [Inited(n)];
      base := Base(u.base);
    }

    method ThreadStop(name: Name) returns (rc: Status)
      modifies this
      ensures (View(), rc) == Stop(old(View()), name)
    {
      if !inited {
        return NotFound;
      }
      var n := if name == Null then SHARED else name.s;
      var i := Search(n);
      if i == |tracking| {
        return NotFound;
      }
      tracking := tracking[i := tracking[i].(refcount := tracking[i].refcount - 1)];
      log := log + [Stopped(n)];
      if tracking[i].refcount > 0 {
        return Success;
      }
      if tracking[i].active {
        var t := StopTheEngine(tracking[i]);
        tracking := tracking[i := t];
      }
      freed := freed + [tracking[i].base];
      assert Without(tracking, i) == Without(old(tracking), i);
      assert old(joined) + [] == old(joined);
      tracking := Without(tracking, i);
      rc := Success;
    }

    method ThreadFinalize(name: Name) returns (rc: Status)
      modifies this
      ensures (View(), rc) == Finalize(old(View()), name)
    {
      if !inited {
        return NotFound;
      }
      var n := if name == Null then SHARED else name.s;
      var i := Search(n);
      if i == |tracking| {
        return NotFound;
      }
      if tracking[i].refcount > 0 {
        return Success;
      }
      freed := freed + [tracking[i].base];
      tracking := Without(tracking, i);
      rc := Success;
    }

    method ThreadPause(name: Name) returns (rc: Status)
      modifies this
      ensures (View(), rc) == Pause(old(View()), name)
    {
      if !inited {
        return NotFound;
      }
      var n := if name == Null then SHARED else name.s;
      var i := Search(n);
      if i == |tracking| {
        return NotFound;
      }
      if tracking[i].active {
        var t := StopTheEngine(tracking[i]);
        tracking := tracking[i := t];
      }
      assert tracking == old(tracking)[i := StopEngine(old(tracking)[i]).0];
      assert old(joined) + [] == old(joined);
      rc := Success;
    }

    method ThreadResume(name: Name) returns (rc: Status)
      modifies this
      ensures (View(), rc) == Resume(old(View()), name)
    {
      if !inited {
        return NotFound;
      }
      var n := if name == Null then SHARED else name.s;
      var i := Search(n);
      if i == |tracking| {
        return NotFound;
      }
      if tracking[i].active {
        return Busy;
      }
      var t, rs := ThreadStart(tracking[i].(active := true));
      tracking := tracking[i := t];
      rc := rs;
    }
  }
}
