/** test_fence: after a fence, every wildcard participant is replaced by the ranks
    of its namespace, in a loop that rewrites the list it is walking. */
module FenceExpansion {
  import opened CStrings
  import opened Participants
  import opened Sequences
  import opened UnitList

  /** strlen(TEST_NAMESPACE) + 1 */
  const PREFIX_LEN: nat := 13

  datatype Ranks = NoRanks | Ranks(procs: seq<Participant>)

  /** The test parameters that decide the size of a namespace. */
  datatype Params = Params(hasDist: bool, nsDist: string, nsSize: nat)

  /** The sizes --ns-dist gives are ranks: not negative, and below the wildcard. */
  predicate SaneDist(p: Params) {
    && p.nsSize <= WILDCARD
    && forall k | 0 <= k < |Tokens(p.nsDist, ':')| :: 0 <= Strtol(Tokens(p.nsDist, ':')[k]) <= WILDCARD
  }

  function AllRanks(nspace: string, n: nat): (procs: seq<Participant>)
    ensures |procs| == n
  {
    seq(n, j requires 0 <= j < n => Participant(nspace, j))
  }

  function NsId(nspace: string): int {
    ToInt(Strtol(if |nspace| >= PREFIX_LEN then nspace[PREFIX_LEN..] else []))
  }

  /** get_all_ranks_from_namespace */
  function RanksOf(p: Params, nspace: string): Ranks
    requires SaneDist(p)
  {
    if !p.hasDist then Ranks(AllRanks(nspace, p.nsSize))
    else
      var tokens := Tokens(p.nsDist, ':');
      var id := NsId(nspace);
      if 0 <= id < |tokens| && Strtol(tokens[id]) != 0 then Ranks(AllRanks(nspace, Strtol(tokens[id])))
      else NoRanks
  }

  /** `nspace` is the namespace with number `id`, as the harness names them. */
  predicate Named(nspace: string, id: nat) {
    id <= INT_MAX && nspace == "smoky_nspace-" + Decimal(id)
  }

  /** The namespace with number `id` has a size: --ns-dist is not given, or gives it one. */
  predicate Sized(p: Params, id: nat) {
    !p.hasDist || (id < |Tokens(p.nsDist, ':')| && Strtol(Tokens(p.nsDist, ':')[id]) != 0)
  }

  function SizeOf(p: Params, id: nat): int
    requires Sized(p, id)
  {
    if p.hasDist then Strtol(Tokens(p.nsDist, ':')[id]) else p.nsSize
  }

  lemma NumberOfName(nspace: string, id: nat)
    requires Named(nspace, id)
    ensures NsId(nspace) == id
  {
    assert |"smoky_nspace-"| == PREFIX_LEN;
    assert nspace[PREFIX_LEN..] == Decimal(id) + [];
    StrtolDecimal(id, []);
  }

  /** The ranks of a namespace are 0, 1, ... up to its size, in this order. */
  lemma RanksExact(p: Params, nspace: string, id: nat)
    requires SaneDist(p) && Named(nspace, id)
    ensures RanksOf(p, nspace).Ranks? <==> Sized(p, id)
    ensures Sized(p, id) ==>
              var procs := RanksOf(p, nspace).procs;
              |procs| == SizeOf(p, id) && forall k | 0 <= k < |procs| :: procs[k] == Participant(nspace, k)
  {
    NumberOfName(nspace, id);
  }

  lemma RanksAreConcrete(p: Params, nspace: string)
    requires SaneDist(p)
    ensures RanksOf(p, nspace).Ranks? ==>
              forall k | 0 <= k < |RanksOf(p, nspace).procs| :: !IsWild(RanksOf(p, nspace).procs[k])
  {
  }

  /** The walk over the ns_dist tokens. */
  method GetAllRanks(p: Params, nspace: string) returns (r: Ranks)
    requires SaneDist(p)
    ensures r == RanksOf(p, nspace)
    ensures r.Ranks? ==> forall k | 0 <= k < |r.procs| :: r.procs[k] == Participant(nspace, k)
    ensures forall id | Named(nspace, id) :: r.Ranks? <==> Sized(p, id)
    ensures forall id | Named(nspace, id) && Sized(p, id) :: |r.procs| == SizeOf(p, id)
  {
    forall id | Named(nspace, id)
      ensures RanksOf(p, nspace).Ranks? <==> Sized(p, id)
      ensures Sized(p, id) ==> |RanksOf(p, nspace).procs| == SizeOf(p, id)
    {
      RanksExact(p, nspace, id);
    }
    var numRanks := 0;
    if !p.hasDist {
      return Ranks(AllRanks(nspace, p.nsSize));
    }
    var id := NsId(nspace);
    var num := -1;
    ghost var tokens := Tokens(p.nsDist, ':');
    var rest := Tokens(p.nsDist, ':');
    while num != id && rest != []
      invariant -1 <= num < |tokens| && rest == tokens[num + 1..]
      invariant num == -1 ==> numRanks == 0
      invariant num >= 0 ==> numRanks == Strtol(tokens[num]) && (id < 0 || num <= id)
      decreases |rest|
    {
      num := num + 1;
      numRanks := Strtol(rest[0]);
      rest := rest[1..];
    }
    if num == id && numRanks != 0 {
      r := Ranks(AllRanks(nspace, numRanks));
    } else {
      r := NoRanks;
    }
  }

  // ------------------------------------------------------------ expansion

  function Concretes(vs: seq<Participant>): seq<Participant> {
    if vs == [] then [] else (if IsWild(vs[0]) then [] else [vs[0]]) + Concretes(vs[1..])
  }

  /** The ranks of every wildcard, in order of the wildcards. */
  function WildRanks(p: Params, vs: seq<Participant>): seq<Participant>
    requires SaneDist(p)
  {
    if vs == [] then []
    else
      (if IsWild(vs[0]) && RanksOf(p, vs[0].nspace).Ranks? then RanksOf(p, vs[0].nspace).procs else [])
      + WildRanks(p, vs[1..])
  }

  predicate Resolvable(p: Params, vs: seq<Participant>)
    requires SaneDist(p)
  {
    vs == [] || ((IsWild(vs[0]) ==> RanksOf(p, vs[0].nspace).Ranks?) && Resolvable(p, vs[1..]))
  }

  lemma {:induction false} ResolvableAll(p: Params, vs: seq<Participant>)
    requires SaneDist(p)
    ensures Resolvable(p, vs) <==> forall v | v in vs && IsWild(v) :: RanksOf(p, v.nspace).Ranks?
  {
    if vs != [] {
      ResolvableAll(p, vs[1..]);
      assert forall v :: v in vs <==> v == vs[0] || v in vs[1..];
    }
  }

  /** `now` is the concrete participants of `was` and then what its wildcards stand for. */
  ghost predicate ExpandedTo(p: Params, was: seq<Participant>, now: seq<Participant>) {
    Concretes(was) <= now && RanksInOrder(p, was, now[|Concretes(was)|..])
      && forall v, id | v in was :: !Hopeless(p, v, id)
  }

  lemma ExpandedMeans(p: Params, was: seq<Participant>)
    requires SaneDist(p) && Resolvable(p, was)
    ensures ExpandedTo(p, was, Expanded(p, was))
  {
    WildRanksInOrder(p, was);
    ResolvableExact(p, was);
    assert Expanded(p, was)[|Concretes(was)|..] == WildRanks(p, was);
  }

  function Expanded(p: Params, vs: seq<Participant>): seq<Participant>
    requires SaneDist(p)
  {
    Concretes(vs) + WildRanks(p, vs)
  }

  lemma {:induction false} ConcretesNotWild(vs: seq<Participant>)
    ensures forall k | 0 <= k < |Concretes(vs)| :: !IsWild(Concretes(vs)[k])
  {
    if vs != [] {
      ConcretesNotWild(vs[1..]);
    }
  }

  lemma {:induction false} WildRanksNotWild(p: Params, vs: seq<Participant>)
    requires SaneDist(p)
    ensures forall k | 0 <= k < |WildRanks(p, vs)| :: !IsWild(WildRanks(p, vs)[k])
  {
    if vs != [] {
      RanksAreConcrete(p, vs[0].nspace);
      WildRanksNotWild(p, vs[1..]);
    }
  }

  /** `ranks` are those of the wildcards among `vs`, one wildcard after the other: each has
      left ranks 0, 1, ... of its namespace, as many as the namespace has. */
  ghost predicate RanksInOrder(p: Params, vs: seq<Participant>, ranks: seq<Participant>) {
    if vs == [] then ranks == []
    else if !IsWild(vs[0]) then RanksInOrder(p, vs[1..], ranks)
    else exists n: nat | n <= |ranks| :: FirstRanks(p, vs[0].nspace, ranks[..n]) && RanksInOrder(p, vs[1..], ranks[n..])
  }

  ghost predicate FirstRanks(p: Params, nspace: string, ranks: seq<Participant>) {
    && (forall k | 0 <= k < |ranks| :: ranks[k] == Participant(nspace, k))
    && forall id | Named(nspace, id) :: Sized(p, id) && |ranks| == SizeOf(p, id)
  }

  lemma {:induction false} WildRanksInOrder(p: Params, vs: seq<Participant>)
    requires SaneDist(p) && Resolvable(p, vs)
    ensures RanksInOrder(p, vs, WildRanks(p, vs))
  {
    if vs != [] {
      WildRanksInOrder(p, vs[1..]);
      var all, rest := WildRanks(p, vs), WildRanks(p, vs[1..]);
      if IsWild(vs[0]) {
        var procs := RanksOf(p, vs[0].nspace).procs;
        assert all[..|procs|] == procs && all[|procs|..] == rest;
        forall id | Named(vs[0].nspace, id) ensures Sized(p, id) && |procs| == SizeOf(p, id) {
          RanksExact(p, vs[0].nspace, id);
        }
        assert FirstRanks(p, vs[0].nspace, all[..|procs|]);
      } else {
        assert all == [] + rest == rest;
      }
    }
  }

  /** A wildcard of a namespace without ranks. */
  predicate Hopeless(p: Params, v: Participant, id: nat) {
    IsWild(v) && Named(v.nspace, id) && !Sized(p, id)
  }

  /** For namespaces as the harness names them: all wildcards can be resolved if and only
      if each of their namespaces has a size. */
  lemma ResolvableExact(p: Params, vs: seq<Participant>)
    requires SaneDist(p)
    ensures Resolvable(p, vs) ==> forall v, id | v in vs :: !Hopeless(p, v, id)
    ensures !Resolvable(p, vs) && (forall v | v in vs && IsWild(v) :: exists id :: Named(v.nspace, id)) ==>
              exists v, id :: v in vs && Hopeless(p, v, id)
  {
    ResolvableAll(p, vs);
    forall v, id | v in vs && Named(v.nspace, id) ensures RanksOf(p, v.nspace).Ranks? <==> Sized(p, id) {
      RanksExact(p, v.nspace, id);
    }
    if !Resolvable(p, vs) && forall v | v in vs && IsWild(v) :: exists id :: Named(v.nspace, id) {
      var v :| v in vs && IsWild(v) && !RanksOf(p, v.nspace).Ranks?;
      var id :| Named(v.nspace, id);
      assert Hopeless(p, v, id);
    }
  }

  /** No wildcard is left in the expanded list. */
  lemma ExpandedNotWild(p: Params, vs: seq<Participant>)
    requires SaneDist(p)
    ensures forall k | 0 <= k < |Expanded(p, vs)| :: !IsWild(Expanded(p, vs)[k])
  {
    ConcretesNotWild(vs);
    WildRanksNotWild(p, vs);
  }

  ghost function Values(items: seq<Item<Participant>>): (v: seq<Participant>)
    reads items
    ensures |v| == |items|
  {
    seq(|items|, k requires 0 <= k < |items| reads items => items[k].value)
  }

  method AppendRanks(list: List<Participant>, procs: seq<Participant>) returns (ghost added: seq<Item<Participant>>)
    requires list.Valid()
    modifies list, list.ring
    ensures list.Valid() && list.Items() == old(list.Items()) + added
    ensures Values(added) == procs && fresh(added)
    ensures forall k | 0 <= k < |list.ring| :: list.ring[k] in old(list.ring) || fresh(list.ring[k])
    ensures forall x | x in old(list.ring) :: x.value == old(x.value)
  {
    added := [];
    var i := 0;
    while i < |procs|
      invariant i <= |procs| && list.Valid() && fresh(added)
      invariant list.Items() == old(list.Items()) + added
      invariant forall k | 0 <= k < |list.ring| :: list.ring[k] in old(list.ring) || fresh(list.ring[k])
      invariant Values(added) == procs[..i]
      invariant forall x | x in old(list.ring) :: x.value == old(x.value)
    {
      var prt := AppendRank(list, procs[i]);
      added := added + [prt];
      i := i + 1;
    }
  }

  method AppendRank(list: List<Participant>, proc: Participant) returns (prt: Item<Participant>)
    requires list.Valid()
    modifies list, list.ring
    ensures list.Valid() && list.Items() == old(list.Items()) + [prt] && fresh(prt) && prt.value == proc
    ensures forall k | 0 <= k < |list.ring| :: list.ring[k] in old(list.ring) || list.ring[k] == prt
    ensures forall x | x in old(list.ring) :: x.value == old(x.value)
  {
    prt := new Item(proc);
    ghost var before := list.ring;
    ghost var items := list.Items();
    list.Append(prt);
    assert forall k | 0 <= k < |items| :: items[k] == before[k + 1];
    assert forall k | 0 < k < |list.ring| - 1 :: list.ring[k] == list.Items()[k - 1];
  }

  // ------------------------------------------------------------- the loop

  /** Where the walk stands: `todo` is what is left of the list, of which `rest` are
      original participants and `added` the ranks appended so far. */
  predicate Progress(p: Params, was: seq<Participant>, done: seq<Participant>, rest: seq<Participant>, added: seq<Participant>)
    requires SaneDist(p)
  {
    && done + Concretes(rest) + added + WildRanks(p, rest) == Expanded(p, was)
    && (Resolvable(p, was) <==> Resolvable(p, rest))
    && forall k | 0 <= k < |added| :: !IsWild(added[k])
  }

  /** A concrete participant, original or appended, is passed over. */
  lemma PassConcrete(p: Params, was: seq<Participant>, done: seq<Participant>, rest: seq<Participant>, added: seq<Participant>)
    returns (rest': seq<Participant>, added': seq<Participant>)
    requires SaneDist(p) && Progress(p, was, done, rest, added)
    requires rest + added != [] && !IsWild((rest + added)[0])
    ensures Progress(p, was, done + [(rest + added)[0]], rest', added')
    ensures rest' + added' == (rest + added)[1..]
    ensures |rest'| < |rest| || (rest' == rest == [] && |added'| < |added|)
  {
    if rest != [] {
      rest', added' := rest[1..], added;
      assert done + ([rest[0]] + Concretes(rest')) == done + [rest[0]] + Concretes(rest');
      assert [] + WildRanks(p, rest') == WildRanks(p, rest');
    } else {
      rest', added' := [], added[1..];
      assert done + added == done + [added[0]] + added[1..];
    }
  }

  lemma PassWild(p: Params, was: seq<Participant>, done: seq<Participant>, rest: seq<Participant>, added: seq<Participant>,
                 procs: seq<Participant>)
    requires SaneDist(p) && Progress(p, was, done, rest, added) && rest != [] && IsWild(rest[0])
    requires RanksOf(p, rest[0].nspace) == Ranks(procs) && forall k | 0 <= k < |procs| :: !IsWild(procs[k])
    ensures Progress(p, was, done, rest[1..], added + procs)
  {
    var tail := rest[1..];
    assert [] + Concretes(tail) == Concretes(tail);
    assert done + Concretes(tail) + added + (procs + WildRanks(p, tail))
        == done + Concretes(tail) + (added + procs) + WildRanks(p, tail);
  }

  /** The start of UNIT_LIST_FOREACH_SAFE. */
  method First(list: List<Participant>) returns (item: Item<Participant>, next: Item<Participant>)
    requires list.Valid()
    ensures item == list.sentinel <==> list.Items() == []
    ensures list.Items() != [] ==> item == list.Items()[0]
    ensures list.Items() != [] ==> next == if |list.Items()| > 1 then list.Items()[1] else list.sentinel
    ensures list.Items() != [] ==> (next == list.sentinel <==> |list.Items()| == 1)
  {
    assert Joined(Node(list.ring, 0), list.ring[1]);
    item := list.sentinel.next;
    assert |list.ring| > 2 ==> Joined(Node(list.ring, 1), list.ring[2]);
    if |list.ring| > 3 {
      ApartAll(list.ring, 2, 0);
    }
    next := item.next;
  }

  /** Its step: `next` becomes the item, and its successor is looked up at once. */
  method Advance(list: List<Participant>, at: Item<Participant>,
                 ghost done: seq<Item<Participant>>, ghost todo: seq<Item<Participant>>)
    returns (item: Item<Participant>, next: Item<Participant>)
    requires list.Valid() && list.Items() == done + todo
    requires at == list.sentinel || (todo != [] && at == todo[0])
    ensures item == at
    ensures item != list.sentinel ==> next == if |todo| > 1 then todo[1] else list.sentinel
    ensures item != list.sentinel ==> (next == list.sentinel <==> |todo| == 1)
  {
    item := at;
    assert Joined(Node(list.ring, 0), list.ring[1]);
    if todo != [] {
      ghost var k := |done| + 1;
      assert list.ring[k] == list.Items()[|done|] == todo[0];
      assert Joined(Node(list.ring, k), list.ring[k + 1]);
      assert |todo| > 1 ==> list.ring[k + 1] == list.Items()[|done| + 1] == todo[1];
      if |todo| > 1 {
        ApartAll(list.ring, k + 1, 0);
      }
    }
    next := item.next;
  }

  /** Taking the first of `todo` out of the list. */
  method TakeOut(list: List<Participant>, item: Item<Participant>,
                 ghost done: seq<Item<Participant>>, ghost todo: seq<Item<Participant>>)
    requires list.Valid() && list.Items() == done + todo && todo != [] && item == todo[0]
    modifies list, list.ring
    ensures list.Valid() && list.Items() == done + todo[1..]
    ensures forall x | x in list.ring :: x in old(list.ring)
    ensures forall x | x in old(list.ring) :: x.value == old(x.value)
  {
    ghost var ring := list.ring;
    assert ring[|done| + 1] == list.Items()[|done|] == item;
    ghost var prev, q := list.RemoveItem(item);
    SamePlace(ring, q, |done| + 1);
    RemovedItems(ring, done, todo);
  }

  lemma RemovedItems<X>(ring: seq<X>, done: seq<X>, todo: seq<X>)
    requires |ring| >= 2 && todo != [] && ring[1..|ring| - 1] == done + todo
    ensures var q := |done| + 1; var after := ring[..q] + ring[q + 1..]; after[1..|after| - 1] == done + todo[1..]
  {
    var q := |done| + 1;
    var after := ring[..q] + ring[q + 1..];
    forall k | 0 <= k < |after| - 2 ensures after[1..|after| - 1][k] == (done + todo[1..])[k] {
      assert after[k + 1] == if k < |done| then ring[1..|ring| - 1][k] else ring[1..|ring| - 1][k + 1];
    }
  }

  /** A wildcard gives way to its ranks at the end of the list. */
  method ReplaceWild(list: List<Participant>, item: Item<Participant>, procs: seq<Participant>,
                     ghost done: seq<Item<Participant>>, ghost todo: seq<Item<Participant>>)
    returns (ghost left: seq<Item<Participant>>)
    requires list.Valid() && list.Items() == done + todo && todo != [] && item == todo[0]
    modifies list, list.ring
    ensures list.Valid() && list.Items() == done + left
    ensures |left| >= |todo| - 1 && left[..|todo| - 1] == todo[1..]
    ensures Values(done) == old(Values(done)) && Values(left) == old(Values(todo))[1..] + procs
    ensures forall k | 0 <= k < |list.ring| :: list.ring[k] in old(list.ring) || fresh(list.ring[k])
  {
    ghost var ring := list.ring;
    assert forall k | 0 <= k < |done| :: done[k] == list.Items()[k] == ring[k + 1];
    assert forall k | 0 <= k < |todo| :: todo[k] == list.Items()[|done| + k] == ring[|done| + k + 1];
    TakeOut(list, item, done, todo);
    assert forall k | 0 <= k < |list.ring| :: list.ring[k] in ring;
    ghost var added := AppendRanks(list, procs);
    left := todo[1..] + added;
    Regroup(done, todo[1..], added);
  }

  lemma Shift(done: seq<Item<Participant>>, todo: seq<Item<Participant>>)
    requires todo != []
    ensures done + [todo[0]] + todo[1..] == done + todo
    ensures Values(done + [todo[0]]) == Values(done) + [Values(todo)[0]]
    ensures Values(todo[1..]) == Values(todo)[1..]
  {
  }

  /** The state of the walk: nodes passed and to come, original participants and
      appended ranks still to come, the current item and the saved next one. */
  datatype Walk = Walk(done: seq<Item<Participant>>, todo: seq<Item<Participant>>,
                       rest: seq<Participant>, added: seq<Participant>)

  ghost predicate WalkInv(list: List<Participant>, p: Params, was: seq<Participant>,
                          item: Item<Participant>, next: Item<Participant>, w: Walk)
    requires SaneDist(p)
    reads list, list.ring, w.todo, w.done
  {
    && list.Valid() && list.Items() == w.done + w.todo
    && (item == list.sentinel ==> w.rest == [])
    && (item != list.sentinel ==>
          && w.todo != [] && item == w.todo[0]
          && next == (if |w.todo| > 1 then w.todo[1] else list.sentinel)
          && (next == list.sentinel <==> |w.todo| == 1))
    && Values(w.todo) == w.rest + w.added
    && Progress(p, was, Values(w.done), w.rest, w.added)
  }

  /** The loop body on a wildcard whose ranks are `procs`. */
  method VisitWild(list: List<Participant>, p: Params, procs: seq<Participant>, ghost was: seq<Participant>,
                   item: Item<Participant>, next: Item<Participant>, ghost w: Walk)
    returns (item': Item<Participant>, next': Item<Participant>, ghost w': Walk)
    requires SaneDist(p) && WalkInv(list, p, was, item, next, w) && item != list.sentinel
    requires IsWild(item.value) && RanksOf(p, item.value.nspace) == Ranks(procs)
    modifies list, list.ring
    ensures WalkInv(list, p, was, item', next', w') && |w'.rest| < |w.rest|
    ensures forall k | 0 <= k < |list.ring| :: list.ring[k] in old(list.ring) || fresh(list.ring[k])
  {
    FirstWild(p, was, item.value, w);
    RanksAreConcrete(p, item.value.nspace);
    PassWild(p, was, Values(w.done), w.rest, w.added, procs);
    ghost var left := ReplaceWild(list, item, procs, w.done, w.todo);
    assert next != list.sentinel ==> next == left[0];
    w' := Walk(w.done, left, w.rest[1..], w.added + procs);
    item', next' := Advance(list, next, w'.done, w'.todo);
  }

  /** A wildcard met on the walk is an original participant. */
  lemma FirstWild(p: Params, was: seq<Participant>, v: Participant, w: Walk)
    requires SaneDist(p) && Progress(p, was, Values(w.done), w.rest, w.added)
    requires w.todo != [] && Values(w.todo) == w.rest + w.added && v == w.todo[0].value && IsWild(v)
    ensures w.rest != [] && w.rest[0] == v
    ensures RanksOf(p, v.nspace).NoRanks? ==> !Resolvable(p, was)
  {
    assert v == Values(w.todo)[0];
  }

  /** The loop body on a concrete participant. */
  method VisitConcrete(list: List<Participant>, p: Params, ghost was: seq<Participant>,
                       item: Item<Participant>, next: Item<Participant>, ghost w: Walk)
    returns (item': Item<Participant>, next': Item<Participant>, ghost w': Walk)
    requires SaneDist(p) && WalkInv(list, p, was, item, next, w) && item != list.sentinel
    requires !IsWild(item.value)
    ensures WalkInv(list, p, was, item', next', w')
    ensures |w'.rest| < |w.rest| || (w'.rest == w.rest == [] && |w'.added| < |w.added|)
  {
    assert item.value == Values(w.todo)[0];
    ghost var rest, added := PassConcrete(p, was, Values(w.done), w.rest, w.added);
    Shift(w.done, w.todo);
    w' := Walk(w.done + [w.todo[0]], w.todo[1..], rest, added);
    item', next' := Advance(list, next, w'.done, w'.todo);
  }

  /** The loop body; `ok` is false for a wildcard without ranks, which ends the loop. */
  method Visit(list: List<Participant>, p: Params, ghost was: seq<Participant>,
               item: Item<Participant>, next: Item<Participant>, ghost w: Walk)
    returns (ok: bool, item': Item<Participant>, next': Item<Participant>, ghost w': Walk)
    requires SaneDist(p) && WalkInv(list, p, was, item, next, w) && item != list.sentinel
    modifies list, list.ring
    ensures !ok ==> !Resolvable(p, was)
    ensures ok ==> WalkInv(list, p, was, item', next', w')
    ensures ok ==> |w'.rest| < |w.rest| || (w'.rest == w.rest == [] && |w'.added| < |w.added|)
    ensures forall k | 0 <= k < |list.ring| :: list.ring[k] in old(list.ring) || fresh(list.ring[k])
  {
    ok, item', next', w' := true, item, next, w;
    if item.value.rank == WILDCARD {
      var ranks := GetAllRanks(p, item.value.nspace);
      FirstWild(p, was, item.value, w);
      if ranks.NoRanks? {
        ok := false;
        return;
      }
      item', next', w' := VisitWild(list, p, ranks.procs, was, item, next, w);
    } else {
      item', next', w' := VisitConcrete(list, p, was, item, next, w);
    }
  }

  /** The expansion loop of test_fence. It fails exactly when some wildcard's namespace
      has no ranks; otherwise the list ends up as its concrete participants followed
      by the ranks of every wildcard. */
  method ExpandWildcards(list: List<Participant>, p: Params) returns (ok: bool)
    requires list.Valid() && SaneDist(p)
    modifies list, list.ring
    ensures ok <==> Resolvable(p, old(Values(list.Items())))
    ensures ok ==> list.Valid() && Values(list.Items()) == Expanded(p, old(Values(list.Items())))
    ensures ok ==> ExpandedTo(p, old(Values(list.Items())), Values(list.Items()))
    ensures !ok && (forall v | v in old(Values(list.Items())) && IsWild(v) :: exists id :: Named(v.nspace, id)) ==>
              exists v, id :: v in old(Values(list.Items())) && Hopeless(p, v, id)
  {
    ghost var was := Values(list.Items());
    ghost var w := Walk([], list.Items(), was, []);
    assert [] + Concretes(was) + [] == Concretes(was);
    var item, next := First(list);
    while item != list.sentinel
      invariant WalkInv(list, p, was, item, next, w)
      invariant forall k | 0 <= k < |list.ring| :: list.ring[k] in old(list.ring) || fresh(list.ring[k])
      decreases |w.rest|, |w.added|
    {
      ok, item, next, w := Visit(list, p, was, item, next, w);
      if !ok {
        ResolvableExact(p, was);
        return;
      }
    }
    ValuesConcat(w.done, w.todo);
    ExpansionDone(p, was, Values(w.done), w.rest, w.added);
    ExpandedMeans(p, was);
    ok := true;
  }

  lemma ValuesConcat(a: seq<Item<Participant>>, b: seq<Item<Participant>>)
    ensures Values(a + b) == Values(a) + Values(b)
  {
  }

  lemma ExpansionDone(p: Params, was: seq<Participant>, done: seq<Participant>, rest: seq<Participant>, added: seq<Participant>)
    requires SaneDist(p) && Progress(p, was, done, rest, added) && rest == []
    ensures Resolvable(p, was) && done + (rest + added) == Expanded(p, was)
  {
    assert rest + added == added;
    assert done + [] + added + [] == done + added;
  }
}
