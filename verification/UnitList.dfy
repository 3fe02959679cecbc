/** unit_list_t: an intrusive doubly linked ring through a sentinel, with a cached
    length, an owner field and a debugging reference count in every item. */
module UnitList {

  class Item<T(0)> {
    var next: Item?<T>
    var prev: Item?<T>
    var refcount: int
    var owner: List?<T>
    var value: T

    constructor (value: T)
      ensures this.value == value && Loose()
    {
      next, prev, refcount, owner := null, null, 0, null;
      this.value := value;
    }

    /** On no list. */
    predicate Loose()
      reads this
    {
      refcount == 0 && owner == null
    }
  }

  /** No node twice, except that the last is the first again. */
  ghost predicate Closed<T(0)>(ring: seq<Item<T>>) {
    && |ring| >= 2
    && ring[|ring| - 1] == ring[0]
    && forall j, k | 0 <= j < k < |ring| - 1 :: ring[j] != ring[k]
  }

  /** Two places of a closed ring hold the same node only if they are both its ends. */
  lemma Apart<T(0)>(ring: seq<Item<T>>, j: nat, k: nat)
    requires Closed(ring) && j < k < |ring| && !(j == 0 && k == |ring| - 1)
    ensures ring[j] != ring[k]
  {
    if k == |ring| - 1 {
      assert ring[0] != ring[j];
    }
  }

  lemma SamePlace<T(0)>(ring: seq<Item<T>>, j: nat, k: nat)
    requires Closed(ring) && j < |ring| - 1 && k < |ring| - 1 && ring[j] == ring[k]
    ensures j == k
  {
  }

  lemma ApartAll<T(0)>(ring: seq<Item<T>>, j: nat, k: nat)
    requires Closed(ring) && j < |ring| && k < |ring| && j != k
    requires (j < |ring| - 1 && k < |ring| - 1) || (j > 0 && k > 0)
    ensures ring[j] != ring[k]
  {
    if j < k {
      Apart(ring, j, k);
    } else {
      Apart(ring, k, j);
    }
  }

  lemma ApartFour<T(0)>(ring: seq<Item<T>>, k: nat, f: nat, l: nat)
    requires Closed(ring) && k < |ring| - 1 && 0 < f < |ring| && 0 < l < |ring| && k != f - 1 && k != l - 1
    ensures ring[k] != ring[f - 1] && ring[k] != ring[l - 1] && ring[k + 1] != ring[f] && ring[k + 1] != ring[l]
  {
    ApartAll(ring, k, f - 1);
    ApartAll(ring, k, l - 1);
    ApartAll(ring, k + 1, f);
    ApartAll(ring, k + 1, l);
  }

  /** Neighbours point at each other. */
  ghost predicate Linked<T(0)>(ring: seq<Item<T>>)
    reads ring
  {
    forall k | 0 <= k < |ring| - 1 :: Joined(Node(ring, k), ring[k + 1])
  }

  /** Node k of the ring; quantifiers over links are triggered by it. */
  function Node<X>(ring: seq<X>, k: nat): X
    requires k < |ring|
  {
    ring[k]
  }

  predicate Joined<T(0)>(a: Item<T>, b: Item<T>)
    reads a, b
  {
    a.next == b && b.prev == a
  }

  ghost predicate Owned<T(0)>(ring: seq<Item<T>>, l: List<T>)
    reads ring
  {
    forall k | 0 <= k < |ring| :: ring[k].owner == l && ring[k].refcount == 1
  }

  /** Splicing `item` in between nodes p and p + 1 of `was`, whose other links still hold. */
  lemma InsertLinked<T(0)>(was: seq<Item<T>>, item: Item<T>, p: nat)
    requires Closed(was) && p + 1 < |was| && item !in was
    requires forall k | 0 <= k < |was| - 1 && k != p :: Joined(Node(was, k), was[k + 1])
    requires Joined(was[p], item) && Joined(item, was[p + 1])
    ensures Closed(was[..p + 1] + [item] + was[p + 1..]) && Linked(was[..p + 1] + [item] + was[p + 1..])
  {
    var ring := was[..p + 1] + [item] + was[p + 1..];
    forall k | 0 <= k < |ring| - 1 ensures Joined(Node(ring, k), ring[k + 1]) {
      if k < p {
        assert Joined(Node(was, k), was[k + 1]);
      } else if k > p + 1 {
        assert Joined(Node(was, k - 1), was[k]);
      }
    }
  }

  lemma InsertedItems<X>(was: seq<X>, item: X, p: nat)
    requires |was| >= 2 && p <= |was| - 2
    ensures var ring := was[..p + 1] + [item] + was[p + 1..];
            ring[1..|ring| - 1] == was[1..|was| - 1][..p] + [item] + was[1..|was| - 1][p..]
  {
  }

  lemma EndItems<X>(was: seq<X>, item: X)
    requires |was| >= 2
    ensures var front := was[..1] + [item] + was[1..]; front[1..|front| - 1] == [item] + was[1..|was| - 1]
    ensures var back := was[..|was| - 1] + [item] + was[|was| - 1..]; back[1..|back| - 1] == was[1..|was| - 1] + [item]
    ensures |was| > 2 ==>
              var less := was[..1] + was[2..]; less[1..|less| - 1] == was[1..|was| - 1][1..]
    ensures |was| > 2 ==>
              var less := was[..|was| - 2] + was[|was| - 1..];
              less[1..|less| - 1] == was[1..|was| - 1][..|was| - 3]
  {
  }

  function Swapped<X>(ring: seq<X>, a: nat, b: nat, c: nat): (r: seq<X>)
    requires a <= b <= c <= |ring|
    ensures |r| == |ring|
  {
    ring[..a] + ring[b..c] + ring[a..b] + ring[c..]
  }

  lemma SwapOwned<T(0)>(was: seq<Item<T>>, a: nat, b: nat, c: nat, l: List<T>)
    requires a <= b <= c <= |was| && Owned(was, l)
    ensures Owned(Swapped(was, a, b, c), l)
  {
  }

  /** Exchanging the adjacent blocks [a, b) and [b, c) of a ring. */
  lemma SwapLinked<T(0)>(was: seq<Item<T>>, a: nat, b: nat, c: nat)
    requires Closed(was) && 0 < a < b < c < |was|
    requires forall k | 0 <= k < |was| - 1 && k != a - 1 && k != b - 1 && k != c - 1 :: Joined(Node(was, k), was[k + 1])
    requires Joined(was[a - 1], was[b]) && Joined(was[c - 1], was[a]) && Joined(was[b - 1], was[c])
    ensures Closed(Swapped(was, a, b, c)) && Linked(Swapped(was, a, b, c))
  {
    var ring := Swapped(was, a, b, c);
    forall k | 0 <= k < |ring| - 1 ensures Joined(Node(ring, k), ring[k + 1]) {
      SwapJoined(was, a, b, c, k);
    }
  }

  lemma SwapJoined<T(0)>(was: seq<Item<T>>, a: nat, b: nat, c: nat, k: nat)
    requires 0 < a < b < c < |was| && k < |was| - 1
    requires forall k | 0 <= k < |was| - 1 && k != a - 1 && k != b - 1 && k != c - 1 :: Joined(Node(was, k), was[k + 1])
    requires Joined(was[a - 1], was[b]) && Joined(was[c - 1], was[a]) && Joined(was[b - 1], was[c])
    ensures var ring := Swapped(was, a, b, c); Joined(Node(ring, k), ring[k + 1])
  {
    if k < a - 1 || k >= c {
      assert Joined(Node(was, k), was[k + 1]);
    } else if a <= k < a + (c - b) - 1 {
      assert Joined(Node(was, k + (b - a)), was[k + (b - a) + 1]);
    } else if a + (c - b) <= k < c - 1 {
      assert Joined(Node(was, k - (c - b)), was[k - (c - b) + 1]);
    }
  }

  /** Moving block [f, l) of one ring in front of node p of another. */
  lemma SpliceLinked<T(0)>(mine: seq<Item<T>>, theirs: seq<Item<T>>, p: nat, f: nat, l: nat)
    requires Closed(mine) && Closed(theirs) && 0 < p < |mine| && 0 < f < l < |theirs|
    requires forall j, k | 0 <= j < |mine| && 0 <= k < |theirs| :: mine[j] != theirs[k]
    requires forall k | 0 <= k < |mine| - 1 && k != p - 1 :: Joined(Node(mine, k), mine[k + 1])
    requires forall k | 0 <= k < |theirs| - 1 && k != f - 1 && k != l - 1 :: Joined(Node(theirs, k), theirs[k + 1])
    requires Joined(mine[p - 1], theirs[f]) && Joined(theirs[l - 1], mine[p])
    requires Joined(theirs[f - 1], theirs[l])
    ensures var ring := mine[..p] + theirs[f..l] + mine[p..]; Closed(ring) && Linked(ring)
    ensures var rest := theirs[..f] + theirs[l..]; Closed(rest) && Linked(rest)
  {
    var ring := mine[..p] + theirs[f..l] + mine[p..];
    forall k | 0 <= k < |ring| - 1 ensures Joined(Node(ring, k), ring[k + 1]) {
      if k < p - 1 {
        assert Joined(Node(mine, k), mine[k + 1]);
      } else if p <= k < p + (l - f) - 1 {
        assert Joined(Node(theirs, k - p + f), theirs[k - p + f + 1]);
      } else if k >= p + (l - f) {
        assert Joined(Node(mine, k - (l - f)), mine[k - (l - f) + 1]);
      }
    }
    var rest := theirs[..f] + theirs[l..];
    forall k | 0 <= k < |rest| - 1 ensures Joined(Node(rest, k), rest[k + 1]) {
      if k < f - 1 {
        assert Joined(Node(theirs, k), theirs[k + 1]);
      } else if k > f - 1 {
        assert Joined(Node(theirs, k + (l - f)), theirs[k + (l - f) + 1]);
      }
    }
  }

  /** Bridging node p of `was`, whose other links still hold. */
  lemma RemoveLinked<T(0)>(was: seq<Item<T>>, p: nat)
    requires Closed(was) && 0 < p && p + 1 < |was|
    requires forall k | 0 <= k < |was| - 1 && k != p - 1 && k != p :: Joined(Node(was, k), was[k + 1])
    requires Joined(was[p - 1], was[p + 1])
    ensures Closed(was[..p] + was[p + 1..]) && Linked(was[..p] + was[p + 1..])
    ensures was[p] !in was[..p] + was[p + 1..]
  {
    var ring := was[..p] + was[p + 1..];
    forall k | 0 <= k < |ring| - 1 ensures Joined(Node(ring, k), ring[k + 1]) {
      if k < p - 1 {
        assert Joined(Node(was, k), was[k + 1]);
      } else if k > p - 1 {
        assert Joined(Node(was, k + 1), was[k + 2]);
      }
    }
  }

  class List<T(0)> {
    const sentinel: Item<T>
    var length: int
    /** Once round, from the sentinel back to the sentinel. */
    ghost var ring: seq<Item<T>>

    /** Everything but the cached length. */
    ghost predicate Shape()
      reads this, ring
    {
      && Closed(ring)
      && ring[0] == sentinel
      && Linked(ring)
      && Owned(ring, this)
    }

    ghost predicate Valid()
      reads this, ring
    {
      Shape() && length == |ring| - 2
    }

    ghost function Items(): (s: seq<Item<T>>)
      requires |ring| >= 2
      reads this
      ensures |s| == |ring| - 2
    {
      ring[1..|ring| - 1]
    }

    constructor (blank: T)
      ensures Valid() && Items() == [] && fresh(sentinel)
    {
      sentinel := new Item(blank);
      length := 0;
      new;
      ring := [sentinel, sentinel];
      sentinel.next, sentinel.prev := sentinel, sentinel;
      sentinel.refcount, sentinel.owner := 1, this;
    }

    method IsEmpty() returns (b: bool)
      requires Shape()
      ensures b <==> Items() == []
    {
      b := sentinel.next == sentinel;
      assert Joined(Node(ring, 0), ring[1]);
    }

    /** unit_list_get_size: walks the list, and aborts if the cached length is another. */
    method GetSize() returns (aborts: bool, size: int)
      requires Shape()
      ensures aborts <==> length != |Items()|
      ensures !aborts ==> size == |Items()|
    {
      var checkLen := 0;
      var item := sentinel.next;
      assert Joined(Node(ring, 0), ring[1]);
      while item != sentinel
        invariant checkLen <= |ring| - 2 && item == ring[checkLen + 1]
        decreases |ring| - checkLen
      {
        assert Joined(Node(ring, checkLen + 1), ring[checkLen + 2]);
        item := item.next;
        checkLen := checkLen + 1;
      }
      aborts, size := checkLen != length, length;
    }

    // ------------------------------------------------------------ insertion

    /** The bookkeeping every insertion ends with: `item`, already linked in after
        node p, is counted and owned. */
    method Adopt(item: Item<T>, ghost p: nat)
      requires Closed(ring) && ring[0] == sentinel && Owned(ring, this) && p + 1 < |ring|
      requires item !in ring && item.Loose()
      requires forall k | 0 <= k < |ring| - 1 && k != p :: Joined(Node(ring, k), ring[k + 1])
      requires Joined(ring[p], item) && Joined(item, ring[p + 1])
      modifies this`ring, item`refcount, item`owner
      ensures Shape() && ring == old(ring[..p + 1]) + [item] + old(ring[p + 1..])
    {
      item.refcount := item.refcount + 1;
      item.owner := this;
      InsertLinked(ring, item, p);
      ring := ring[..p + 1] + [item] + ring[p + 1..];
    }

    /** unit_list_insert_pos: `item` goes in front of `pos`, node p + 1 of the ring. */
    method InsertPos(pos: Item<T>, item: Item<T>, ghost p: nat)
      requires Shape() && item.Loose()
      requires p + 1 < |ring| && pos == ring[p + 1]
      modifies this, ring, item
      ensures Shape() && ring == old(ring[..p + 1]) + [item] + old(ring[p + 1..])
      ensures length == old(length) + 1
      ensures item.value == old(item.value) && forall x | x in old(ring) :: x.value == old(x.value)
    {
      assert Joined(Node(ring, p), ring[p + 1]);
      item.next := pos;
      item.prev := pos.prev;
      pos.prev.next := item;
      pos.prev := item;
      length := length + 1;
      forall k | 0 <= k < |ring| - 1 && k != p ensures Joined(Node(ring, k), ring[k + 1]) {
        assert old(Joined(Node(ring, k), ring[k + 1]));
      }
      Adopt(item, p);
    }

    method Append(item: Item<T>)
      requires Shape() && item.Loose()
      modifies this, ring, item
      ensures Shape() && Items() == old(Items()) + [item]
      ensures length == old(length) + 1
      ensures item.value == old(item.value) && forall x | x in old(ring) :: x.value == old(x.value)
    {
      ghost var p := |ring| - 2;
      EndItems(ring, item);
      assert Joined(Node(ring, p), ring[p + 1]);
      item.prev := sentinel.prev;
      sentinel.prev.next := item;
      item.next := sentinel;
      sentinel.prev := item;
      length := length + 1;
      forall k | 0 <= k < |ring| - 1 && k != p ensures Joined(Node(ring, k), ring[k + 1]) {
        assert old(Joined(Node(ring, k), ring[k + 1]));
      }
      Adopt(item, p);
    }

    method Prepend(item: Item<T>)
      requires Shape() && item.Loose()
      modifies this, ring, item
      ensures Shape() && Items() == [item] + old(Items())
      ensures length == old(length) + 1
      ensures item.value == old(item.value) && forall x | x in old(ring) :: x.value == old(x.value)
    {
      assert Joined(Node(ring, 0), ring[1]);
      item.next := sentinel.next;
      item.prev := sentinel;
      sentinel.next.prev := item;
      sentinel.next := item;
      length := length + 1;
      forall k | 0 <= k < |ring| - 1 && k != 0 ensures Joined(Node(ring, k), ring[k + 1]) {
        assert old(Joined(Node(ring, k), ring[k + 1]));
      }
      Adopt(item, 0);
      EndItems(old(ring), item);
    }

    /** Where unit_list_insert puts the item: a negative index counts as 1, or 0 in an empty list. */
    static function InsertIndex(idx: int, count: nat): (p: nat)
      requires idx < count
      ensures p <= count
    {
      if idx >= 0 then idx else if count == 0 then 0 else 1
    }

    /** The item stands at the index asked for; a negative one puts it behind the first item. */
    static lemma InsertPlaces<X>(was: seq<X>, idx: int, item: X, now: seq<X>)
      requires idx < |was| && now == was[..InsertIndex(idx, |was|)] + [item] + was[InsertIndex(idx, |was|)..]
      ensures idx >= 0 ==> now == was[..idx] + [item] + was[idx..]
      ensures idx < 0 && was != [] ==> now == [was[0], item] + was[1..]
      ensures idx < 0 && was == [] ==> now == [item]
    {
    }

    /** The node that unit_list_insert walks to for a non-zero index. */
    method WalkTo(idx: int) returns (ptr: Item<T>)
      requires Valid() && idx < length && idx != 0
      ensures ptr == ring[InsertIndex(idx, |ring| - 2)]
    {
      assert Joined(Node(ring, 0), ring[1]);
      ptr := sentinel.next;
      var i := 0;
      while i < idx - 1
        invariant 0 <= i && (i == 0 || i <= idx - 1)
        invariant i + 1 < |ring| && ptr == ring[i + 1]
      {
        assert Joined(Node(ring, i + 1), ring[i + 2]);
        ptr := ptr.next;
        i := i + 1;
      }
    }

    method LinkAfter(ptr: Item<T>, item: Item<T>, ghost p: nat)
      requires Shape() && item.Loose() && p + 1 < |ring| && ptr == ring[p]
      modifies this, ring, item
      ensures Shape() && ring == old(ring[..p + 1]) + [item] + old(ring[p + 1..])
      ensures length == old(length)
      ensures item.value == old(item.value) && forall x | x in old(ring) :: x.value == old(x.value)
    {
      assert Joined(Node(ring, p), ring[p + 1]);
      var next := ptr.next;
      item.next := next;
      item.prev := ptr;
      next.prev := item;
      ptr.next := item;
      forall k | 0 <= k < |ring| - 1 && k != p ensures Joined(Node(ring, k), ring[k + 1]) {
        assert old(Joined(Node(ring, k), ring[k + 1]));
      }
      Adopt(item, p);
    }

    method InsertBehind(item: Item<T>, idx: int)
      requires Valid() && item.Loose() && idx < length && idx != 0
      modifies this, ring, item
      ensures Shape() && length == old(length) && |ring| == |old(ring)| + 1
      ensures var p := InsertIndex(idx, old(|Items()|)); Items() == old(Items())[..p] + [item] + old(Items())[p..]
      ensures item.value == old(item.value) && forall x | x in old(ring) :: x.value == old(x.value)
    {
      ghost var was := ring;
      ghost var p := InsertIndex(idx, |ring| - 2);
      var ptr := WalkTo(idx);
      LinkAfter(ptr, item, p);
      InsertedItems(was, item, p);
    }

    /** unit_list_insert. At index 0 the length is bumped twice, by the prepend and
        again at the end, so the list is left with a length that is one too large. */
    method Insert(item: Item<T>, idx: int) returns (ok: bool)
      requires Valid() && item.Loose()
      modifies this, ring, item
      ensures ok <==> idx < old(|Items()|)
      ensures !ok ==> unchanged(this) && unchanged(item) && forall x | x in old(ring) :: unchanged(x)
      ensures ok ==> Shape()
      ensures ok ==> var p := InsertIndex(idx, old(|Items()|));
                     Items() == old(Items())[..p] + [item] + old(Items())[p..]
      ensures ok && idx >= 0 ==> Items() == old(Items())[..idx] + [item] + old(Items())[idx..]
      ensures ok && idx < 0 && old(Items()) != [] ==> Items() == [old(Items())[0], item] + old(Items())[1..]
      ensures ok && idx < 0 && old(Items()) == [] ==> Items() == [item]
      ensures ok ==> (Valid() <==> idx != 0)
      ensures item.value == old(item.value) && forall x | x in old(ring) :: x.value == old(x.value)
    {
      if idx >= length {
        return false;
      }
      ghost var was := ring;
      if idx == 0 {
        Prepend(item);
        assert [item] + was[1..|was| - 1] == was[1..|was| - 1][..0] + [item] + was[1..|was| - 1][0..];
      } else {
        InsertBehind(item, idx);
      }
      InsertPlaces(was[1..|was| - 1], idx, item, Items());
      length := length + 1;
      ok := true;
    }

    // -------------------------------------------------------------- removal

    /** unit_list_remove_item: searches, unlinks, returns the previous node; the
        removed item keeps its own next and prev. */
    method RemoveItem(item: Item<T>) returns (prev: Item?<T>, ghost p: nat)
      requires Valid() && item != sentinel
      modifies this, ring
      ensures item !in old(ring) ==> prev == null && unchanged(this) && forall x | x in old(ring) :: unchanged(x)
      ensures item in old(ring) ==> Valid() && item.Loose()
      ensures item in old(ring) ==>
                && 0 < p < old(|ring|) - 1 && old(ring[p]) == item && prev == old(ring[p - 1])
                && ring == old(ring[..p]) + old(ring[p + 1..])
      ensures item.next == old(item.next) && forall x | x in old(ring) :: x.value == old(x.value)
    {
      var itemPtr := sentinel.next;
      assert Joined(Node(ring, 0), ring[1]);
      p := 1;
      while itemPtr != sentinel && itemPtr != item
        invariant 0 < p < |ring| && itemPtr == ring[p]
        invariant forall k | 0 <= k < p :: ring[k] != item
        decreases |ring| - p
      {
        assert Joined(Node(ring, p), ring[p + 1]);
        itemPtr := itemPtr.next;
        p := p + 1;
      }
      if itemPtr == sentinel {
        return null, 0;
      }
      assert Joined(Node(ring, p - 1), ring[p]) && Joined(Node(ring, p), ring[p + 1]);
      item.prev.next := item.next;
      item.next.prev := item.prev;
      length := length - 1;
      item.refcount := item.refcount - 1;
      item.owner := null;
      ghost var was := ring;
      ring := ring[..p] + ring[p + 1..];
      forall k | 0 <= k < |was| - 1 && k != p - 1 && k != p ensures Joined(Node(was, k), was[k + 1]) {
        assert old(Joined(Node(ring, k), ring[k + 1]));
      }
      RemoveLinked(was, p);
      prev := item.prev;
    }

    method RemoveFirst() returns (item: Item?<T>)
      requires Valid()
      modifies this, ring
      ensures Valid()
      ensures old(Items()) == [] ==> item == null && Items() == []
      ensures old(Items()) != [] ==> item == old(Items())[0] && Items() == old(Items())[1..]
      ensures item != null ==> item.Loose() && item.next == null && item.prev == null
      ensures forall x | x in old(ring) :: x.value == old(x.value)
    {
      if length == 0 {
        return null;
      }
      assert Joined(Node(ring, 0), ring[1]) && Joined(Node(ring, 1), ring[2]);
      length := length - 1;
      item := sentinel.next;
      item.next.prev := item.prev;
      sentinel.next := item.next;
      item.owner := null;
      item.prev := null;
      item.next := null;
      item.refcount := item.refcount - 1;
      ghost var was := ring;
      ring := ring[..1] + ring[2..];
      forall k | 0 <= k < |was| - 1 && k != 0 && k != 1 ensures Joined(Node(was, k), was[k + 1]) {
        assert old(Joined(Node(ring, k), ring[k + 1]));
      }
      RemoveLinked(was, 1);
      EndItems(was, sentinel);
    }

    method RemoveLast() returns (item: Item?<T>)
      requires Valid()
      modifies this, ring
      ensures Valid()
      ensures old(Items()) == [] ==> item == null && Items() == []
      ensures old(Items()) != [] ==>
                item == old(Items())[old(|Items()|) - 1] && Items() == old(Items())[..old(|Items()|) - 1]
      ensures item != null ==> item.Loose() && item.next == null && item.prev == null
      ensures forall x | x in old(ring) :: x.value == old(x.value)
    {
      if length == 0 {
        return null;
      }
      ghost var p := |ring| - 2;
      assert Joined(Node(ring, p), ring[p + 1]) && Joined(Node(ring, p - 1), ring[p]);
      length := length - 1;
      item := sentinel.prev;
      item.prev.next := item.next;
      sentinel.prev := item.prev;
      item.next := null;
      item.prev := null;
      item.refcount := item.refcount - 1;
      item.owner := null;
      ghost var was := ring;
      ring := ring[..p] + ring[p + 1..];
      forall k | 0 <= k < |was| - 1 && k != p - 1 && k != p ensures Joined(Node(was, k), was[k + 1]) {
        assert old(Joined(Node(ring, k), ring[k + 1]));
      }
      RemoveLinked(was, p);
      EndItems(was, sentinel);
    }
  
    // --------------------------------------------------------------- moving

    /** The pointer work of moving nodes f .. l of another ring in front of node p of this one. */
    method RelinkFrom(x: List<T>, pos: Item<T>, first: Item<T>, last: Item<T>, ghost p: nat, ghost f: nat, ghost l: nat)
      requires Shape() && x.Shape() && x != this
      requires 0 < p < |ring| && pos == ring[p]
      requires 0 < f < l < |x.ring| && first == x.ring[f] && last == x.ring[l]
      modifies ring, x.ring
      ensures forall k | 0 <= k < |ring| - 1 && k != p - 1 :: Joined(Node(ring, k), ring[k + 1])
      ensures forall k | 0 <= k < |x.ring| - 1 && k != f - 1 && k != l - 1 :: Joined(Node(x.ring, k), x.ring[k + 1])
      ensures Joined(ring[p - 1], x.ring[f]) && Joined(x.ring[l - 1], ring[p])
      ensures Joined(x.ring[f - 1], x.ring[l])
      ensures Owned(ring, this) && Owned(x.ring[..f], x) && Owned(x.ring[f..l], this) && Owned(x.ring[l..], x)
      ensures forall y | y in ring || y in x.ring :: y.value == old(y.value)
    {
      ghost var seg := x.ring[f..l];
      Segment(x.ring, f, l);
      assert Joined(Node(ring, p - 1), ring[p]) && Joined(Node(x.ring, f - 1), x.ring[f]) && Joined(Node(x.ring, l - 1), x.ring[l]);
      assert forall j, k | 0 <= j < |ring| && 0 <= k < |x.ring| :: ring[j] != x.ring[k] by {
        assert forall j, k | 0 <= j < |ring| && 0 <= k < |x.ring| :: ring[j].owner != x.ring[k].owner;
      }
      Transfer(pos, first, last, seg);
      forall k | 0 <= k < |ring| - 1 && k != p - 1 ensures Joined(Node(ring, k), ring[k + 1]) {
        assert old(Joined(Node(ring, k), ring[k + 1]));
        ApartFour(ring, k, p, p);
      }
      forall k | 0 <= k < |x.ring| - 1 && k != f - 1 && k != l - 1 ensures Joined(Node(x.ring, k), x.ring[k + 1]) {
        assert old(Joined(Node(x.ring, k), x.ring[k + 1]));
        ApartFour(x.ring, k, f, l);
      }
    }

    method MoveFrom(x: List<T>, pos: Item<T>, first: Item<T>, last: Item<T>, ghost p: nat, ghost f: nat, ghost l: nat)
      requires Shape() && x.Shape() && x != this
      requires 0 < p < |ring| && pos == ring[p]
      requires 0 < f < l < |x.ring| && first == x.ring[f] && last == x.ring[l]
      modifies this`ring, x`ring, ring, x.ring
      ensures Shape() && x.Shape()
      ensures ring == old(ring[..p]) + old(x.ring[f..l]) + old(ring[p..])
      ensures x.ring == old(x.ring[..f]) + old(x.ring[l..])
      ensures forall y | y in old(ring) || y in old(x.ring) :: y.value == old(y.value)
    {
      ghost var mine, theirs := ring, x.ring;
      assert forall j, k | 0 <= j < |mine| && 0 <= k < |theirs| :: mine[j].owner != theirs[k].owner;
      assert forall j, k | 0 <= j < |mine| && 0 <= k < |theirs| :: mine[j] != theirs[k];
      RelinkFrom(x, pos, first, last, p, f, l);
      ring := mine[..p] + theirs[f..l] + mine[p..];
      x.ring := theirs[..f] + theirs[l..];
      SpliceLinked(mine, theirs, p, f, l);
    }

    /** The pointer work of moving nodes f .. l of this ring in front of node p outside them. */
    method RelinkWithin(pos: Item<T>, first: Item<T>, last: Item<T>, ghost p: nat, ghost f: nat, ghost l: nat)
      requires Shape()
      requires 0 < p < |ring| && pos == ring[p]
      requires 0 < f < l < |ring| && first == ring[f] && last == ring[l] && !(f <= p < l)
      modifies ring
      ensures Owned(ring, this)
      ensures p == l ==> Linked(ring)
      ensures p != l ==>
                && (forall k | 0 <= k < |ring| - 1 && k != p - 1 && k != f - 1 && k != l - 1 :: Joined(Node(ring, k), ring[k + 1]))
                && Joined(ring[p - 1], ring[f]) && Joined(ring[l - 1], ring[p])
                && Joined(ring[f - 1], ring[l])
      ensures forall y | y in ring :: y.value == old(y.value)
    {
      ghost var seg := ring[f..l];
      Segment(ring, f, l);
      assert Joined(Node(ring, p - 1), ring[p]) && Joined(Node(ring, f - 1), ring[f]) && Joined(Node(ring, l - 1), ring[l]);
      Transfer(pos, first, last, seg);
      forall k | 0 <= k < |ring| - 1 && (p == l || (k != p - 1 && k != f - 1 && k != l - 1)) ensures Joined(Node(ring, k), ring[k + 1]) {
        assert old(Joined(Node(ring, k), ring[k + 1]));
        if p != l {
          ApartAll(ring, k, p - 1);
          ApartAll(ring, k, f - 1);
          ApartAll(ring, k, l - 1);
          ApartAll(ring, k + 1, p);
          ApartAll(ring, k + 1, f);
          ApartAll(ring, k + 1, l);
        }
      }
    }

    method MoveWithin(pos: Item<T>, first: Item<T>, last: Item<T>, ghost p: nat, ghost f: nat, ghost l: nat)
      requires Shape()
      requires 0 < p < |ring| && pos == ring[p]
      requires 0 < f < l < |ring| && first == ring[f] && last == ring[l] && !(f <= p < l)
      modifies this`ring, ring
      ensures Shape() && ring == Moved(old(ring), p, f, l)
      ensures forall y | y in old(ring) :: y.value == old(y.value)
    {
      ghost var was := ring;
      RelinkWithin(pos, first, last, p, f, l);
      ring := Moved(was, p, f, l);
      if p != l {
        ghost var a, b, c := if p < f then p else f, if p < f then f else l, if p < f then l else p;
        SwapLinked(was, a, b, c);
        SwapOwned(was, a, b, c, this);
      }
    }

    /** The counting loop of unit_list_splice. */
    method Distance(first: Item<T>, last: Item<T>, ghost f: nat, ghost l: nat) returns (change: nat)
      requires Shape() && 0 < f <= l < |ring| && first == ring[f] && last == ring[l]
      ensures change == l - f
    {
      change := 0;
      var tmp := first;
      while tmp != last
        invariant f + change <= l && tmp == ring[f + change]
        decreases l - change
      {
        assert Joined(Node(ring, f + change), ring[f + change + 1]);
        tmp := tmp.next;
        change := change + 1;
      }
    }

    method SpliceWithin(pos: Item<T>, first: Item<T>, last: Item<T>, ghost p: nat, ghost f: nat, ghost l: nat)
      requires Valid()
      requires 0 < p < |ring| && pos == ring[p]
      requires 0 < f < l < |ring| && first == ring[f] && last == ring[l] && !(f <= p < l)
      modifies this, ring
      ensures Valid() && ring == Moved(old(ring), p, f, l)
      ensures forall y | y in old(ring) :: y.value == old(y.value)
    {
      var change := Distance(first, last, f, l);
      MoveWithin(pos, first, last, p, f, l);
      length := length + change;
      length := length - change;
    }

    method SpliceFrom(x: List<T>, pos: Item<T>, first: Item<T>, last: Item<T>, ghost p: nat, ghost f: nat, ghost l: nat)
      requires Valid() && x.Valid() && x != this
      requires 0 < p < |ring| && pos == ring[p]
      requires 0 < f < l < |x.ring| && first == x.ring[f] && last == x.ring[l]
      modifies this, x, ring, x.ring
      ensures Valid() && x.Valid()
      ensures ring == old(ring[..p]) + old(x.ring[f..l]) + old(ring[p..])
      ensures x.ring == old(x.ring[..f]) + old(x.ring[l..])
      ensures forall y | y in old(ring) || y in old(x.ring) :: y.value == old(y.value)
    {
      var change := x.Distance(first, last, f, l);
      MoveFrom(x, pos, first, last, p, f, l);
      length := length + change;
      x.length := x.length - change;
    }

    /** unit_list_splice: [first, last), nodes f .. l of x's ring, goes in front of
        `pos`, node p of this one. The same list is allowed, with `pos` outside the range. */
    method Splice(pos: Item<T>, x: List<T>, first: Item<T>, last: Item<T>, ghost p: nat, ghost f: nat, ghost l: nat)
      requires Valid() && x.Valid()
      requires 0 < p < |ring| && pos == ring[p]
      requires 0 < f <= l < |x.ring| && first == x.ring[f] && last == x.ring[l]
      requires x == this ==> !(f <= p < l)
      modifies this, x, ring, x.ring
      ensures Valid() && x.Valid()
      ensures x != this ==> ring == old(ring[..p]) + old(x.ring[f..l]) + old(ring[p..])
      ensures x != this ==> x.ring == old(x.ring[..f]) + old(x.ring[l..])
      ensures x == this ==> ring == Moved(old(ring), p, f, l)
      ensures x == this ==> CutAndPasted(old(ring), ring, p, f, l)
      ensures forall y | y in old(ring) || y in old(x.ring) :: y.value == old(y.value)
    {
      MovedIsCutAndPasted(ring, p, if x == this then f else 1, if x == this then l else 1);
      if first != last {
        if x == this {
          SpliceWithin(pos, first, last, p, f, l);
        } else {
          SpliceFrom(x, pos, first, last, p, f, l);
        }
      } else {
        if f < l {
          ApartAll(x.ring, f, l);
        }
        MovedNothing(ring, x.ring, p, f);
      }
    }

    method JoinSome(pos: Item<T>, x: List<T>, ghost p: nat)
      requires Valid() && x.Valid() && x != this && x.Items() != []
      requires 0 < p < |ring| && pos == ring[p]
      modifies this, x, ring, x.ring
      ensures Valid() && x.Valid()
      ensures ring == old(ring[..p]) + old(x.Items()) + old(ring[p..])
      ensures x.Items() == []
      ensures forall y | y in old(ring) || y in old(x.ring) :: y.value == old(y.value)
    {
      assert Joined(Node(x.ring, 0), x.ring[1]);
      MoveFrom(x, pos, x.sentinel.next, x.sentinel, p, 1, |x.ring| - 1);
      length := length + x.length;
      x.length := 0;
    }

    /** unit_list_join: all items of another list go in front of `pos`. */
    method Join(pos: Item<T>, x: List<T>, ghost p: nat)
      requires Valid() && x.Valid() && x != this
      requires 0 < p < |ring| && pos == ring[p]
      modifies this, x, ring, x.ring
      ensures Valid() && x.Valid()
      ensures ring == old(ring[..p]) + old(x.Items()) + old(ring[p..])
      ensures x.Items() == []
      ensures forall y | y in old(ring) || y in old(x.ring) :: y.value == old(y.value)
    {
      var aborts, size := x.GetSize();
      assert !aborts;
      if size != 0 {
        JoinSome(pos, x, p);
      } else {
        assert ring == ring[..p] + x.Items() + ring[p..];
      }
    }
  }

  /** The ring with block [f, l) moved in front of node p. */
  function Moved<X>(ring: seq<X>, p: nat, f: nat, l: nat): (r: seq<X>)
    requires p < |ring| && f <= l <= |ring| && !(f <= p < l)
    ensures |r| == |ring|
  {
    if p < f then Swapped(ring, p, f, l)
    else if f == l || p == l then ring
    else Swapped(ring, f, l, p)
  }

  lemma MovedNothing<X>(mine: seq<X>, theirs: seq<X>, p: nat, f: nat)
    requires p < |mine| && f < |theirs|
    ensures theirs == theirs[..f] + theirs[f..]
    ensures mine == mine[..p] + theirs[f..f] + mine[p..]
    ensures f <= |mine| ==> Moved(mine, p, f, f) == mine
  {
    if p < f <= |mine| {
      assert mine == mine[..p] + mine[f..f] + mine[p..f] + mine[f..];
    }
  }

  /** `now` is `was` with block [f, l) cut out and put back in front of what was node p. */
  predicate CutAndPasted<X(==)>(was: seq<X>, now: seq<X>, p: nat, f: nat, l: nat)
    requires p < |was| && f <= l <= |was| && !(f <= p < l)
  {
    var rest := was[..f] + was[l..];
    var at := if p < f then p else p - (l - f);
    now == rest[..at] + was[f..l] + rest[at..]
  }

  /** Splicing within one list cuts the block out and pastes it in front of the node. */
  lemma MovedIsCutAndPasted<X>(ring: seq<X>, p: nat, f: nat, l: nat)
    requires p < |ring| && f <= l <= |ring| && !(f <= p < l)
    ensures CutAndPasted(ring, Moved(ring, p, f, l), p, f, l)
  {
    var rest := ring[..f] + ring[l..];
    if p < f {
      assert rest[..p] == ring[..p] && rest[p..] == ring[p..f] + ring[l..];
    } else {
      var at := p - (l - f);
      assert rest[..at] == ring[..f] + ring[l..p] && rest[at..] == ring[p..];
    }
  }

  /** Splicing within one list only permutes it. */
  lemma MovedPermutes<X>(ring: seq<X>, p: nat, f: nat, l: nat)
    requires p < |ring| && f <= l <= |ring| && !(f <= p < l)
    ensures multiset(Moved(ring, p, f, l)) == multiset(ring)
  {
    if p < f {
      SwappedPermutes(ring, p, f, l);
    } else if f < l < p {
      SwappedPermutes(ring, f, l, p);
    }
  }

  lemma SwappedPermutes<X>(ring: seq<X>, a: nat, b: nat, c: nat)
    requires a <= b <= c <= |ring|
    ensures multiset(Swapped(ring, a, b, c)) == multiset(ring)
  {
    var head, x, y, tail := ring[..a], ring[a..b], ring[b..c], ring[c..];
    assert ring == head + x + y + tail;
    assert multiset(head + x + y + tail) == multiset(head) + multiset(x) + multiset(y) + multiset(tail);
    assert multiset(head + y + x + tail) == multiset(head) + multiset(y) + multiset(x) + multiset(tail);
  }

  lemma Segment<T(0)>(ring: seq<Item<T>>, f: nat, l: nat)
    requires Closed(ring) && Linked(ring) && 0 < f < l < |ring|
    ensures Chain(ring[f..l])
  {
    forall k | 0 <= k < l - f - 1 ensures Joined(Node(ring[f..l], k), ring[f..l][k + 1]) {
      assert Joined(Node(ring, f + k), ring[f + k + 1]);
    }
  }

  /** A run of distinct, linked nodes. */
  ghost predicate Chain<T(0)>(seg: seq<Item<T>>)
    reads seg
  {
    && seg != []
    && (forall j, k | 0 <= j < k < |seg| :: seg[j] != seg[k])
    && Linked(seg)
  }

  /** unit_list_transfer: moves the chain [begin, end) in front of `pos`, whatever
      lists they are on, and hands the chain to the owner of `pos`. */
  method Transfer<T(0)>(pos: Item<T>, begin: Item<T>, end: Item<T>, ghost seg: seq<Item<T>>)
    requires Chain(seg) && begin == seg[0] && seg[|seg| - 1].next == end && end.prev == seg[|seg| - 1]
    requires begin.prev != null && begin.prev.next == begin && pos.prev != null && pos.prev.next == pos
    requires pos !in seg && end !in seg && begin.prev !in seg && (pos != end ==> pos.prev !in seg)
    modifies seg, pos, end, begin.prev, pos.prev
    ensures pos != end ==>
              var before, hole := old(pos.prev), old(begin.prev);
              && before.next == begin && begin.prev == before
              && seg[|seg| - 1].next == pos && pos.prev == seg[|seg| - 1]
              && hole.next == end && end.prev == hole
    ensures forall y: Item<T> | old(allocated(y)) ::
              y.next == old(y.next) || (pos != end && (y == seg[|seg| - 1] || y == old(pos.prev) || y == old(begin.prev)))
    ensures forall y: Item<T> | old(allocated(y)) ::
              y.prev == old(y.prev) || (pos != end && (y == pos || y == end || y == begin))
    ensures forall y: Item<T> | old(allocated(y)) ::
              y.owner == if y in seg && pos != end then old(pos.owner) else old(y.owner)
    ensures forall y: Item<T> | old(allocated(y)) :: y.refcount == old(y.refcount) && y.value == old(y.value)
  {
    if pos != end {
      end.prev.next := pos;
      begin.prev.next := end;
      pos.prev.next := begin;
      var tmp := pos.prev;
      pos.prev := end.prev;
      end.prev := begin.prev;
      begin.prev := tmp;
      forall k | 0 <= k < |seg| - 1 ensures Joined(Node(seg, k), seg[k + 1]) {
        assert old(Joined(Node(seg, k), seg[k + 1]));
        assert seg[k] != seg[|seg| - 1] && seg[k + 1] != seg[0];
      }
      HandOver(begin, pos, seg);
    }
  }

  /** The loop of unit_list_transfer that gives the moved chain its new owner. */
  method HandOver<T(0)>(begin: Item<T>, pos: Item<T>, ghost seg: seq<Item<T>>)
    requires Chain(seg) && begin == seg[0] && seg[|seg| - 1].next == pos && pos !in seg
    modifies seg`owner
    ensures forall k | 0 <= k < |seg| :: seg[k].owner == pos.owner
  {
    var item := begin;
    ghost var k := 0;
    while item != pos
      invariant k <= |seg| && item == (if k < |seg| then seg[k] else pos)
      invariant forall j | 0 <= j < k :: seg[j].owner == pos.owner
      decreases |seg| - k
    {
      assert k < |seg| - 1 ==> Joined(Node(seg, k), seg[k + 1]);
      item.owner := pos.owner;
      item := item.next;
      k := k + 1;
    }
  }
}
