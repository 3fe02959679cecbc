/**
 * The class system of unit/pmix_object.[ch]: descriptors that inherit from one
 * another, constructor and destructor tables built lazily in one shared
 * allocation, and an epoch that invalidates every table at once.
 *
 * A function pointer is a `Hook`; running it appends it to a ghost history. An
 * allocation is an array object and `free` puts it into the ghost set `freed`,
 * so that a double free or a use after free is something the proofs exclude.
 */
module ClassTables {
  import opened Sequences

  datatype Hook = Null | Fn(id: nat)

  // Largest value of a C int, where the epoch wraps to 1.
  const MAX_EPOCH := 2147483647

  // How many slots the registry of allocations grows by.
  const INCREMENT := 10

  // One hook, unless it is NULL.
  function Own(hook: Hook): (kept: seq<Hook>) { if hook == Null then [] else [hook] }

  // The hooks that are not NULL, in order.
  function Kept(hooks: seq<Hook>): (kept: seq<Hook>)
  {
    if hooks == [] then []
    else Own(hooks[0]) + Kept(hooks[1..])
  }

  lemma {:induction false} KeptNotNull(hooks: seq<Hook>)
    ensures Null !in Kept(hooks)
  {
    if hooks != [] {
      KeptNotNull(hooks[1..]);
    }
  }

  lemma {:induction false} KeptAppend(a: seq<Hook>, b: seq<Hook>)
    ensures Kept(a + b) == Kept(a) + Kept(b)
  {
    if a == [] {
      assert a + b == b;
    } else {
      KeptAppend(a[1..], b);
      assert (a + b)[0] == a[0] && (a + b)[1..] == a[1..] + b;
      Regroup(Own(a[0]), Kept(a[1..]), Kept(b));
    }
  }

  // ---------- the epoch ----------

  // The epoch after `finals` calls of pmix_class_finalize.
  function EpochAfter(finals: nat): (epoch: int)
  {
    1 + finals % MAX_EPOCH
  }

  // One call of pmix_class_finalize: the epoch counts up and wraps to 1.
  lemma EpochStep(finals: nat)
    ensures 1 <= EpochAfter(finals) <= MAX_EPOCH
    ensures EpochAfter(finals + 1) == if EpochAfter(finals) == MAX_EPOCH then 1 else EpochAfter(finals) + 1
  {
    var lap, rest := finals / MAX_EPOCH, finals % MAX_EPOCH;
    if rest == MAX_EPOCH - 1 {
      Residue(finals + 1, lap + 1, 0);
    } else {
      Residue(finals + 1, lap, rest + 1);
    }
  }

  lemma Residue(x: int, lap: int, rest: int)
    requires x == lap * MAX_EPOCH + rest && 0 <= rest < MAX_EPOCH
    ensures x % MAX_EPOCH == rest
  {
    var other := x / MAX_EPOCH;
    assert x == other * MAX_EPOCH + x % MAX_EPOCH;
  }

  /**
   * A stamp set after `j` finalize calls passes the epoch test after `k` of them
   * exactly when the calls in between are a multiple of MAX_EPOCH.
   */
  lemma StampPasses(j: nat, k: nat)
    requires j <= k
    ensures EpochAfter(j) == EpochAfter(k) <==> (k - j) % MAX_EPOCH == 0
  {
    var lapJ, lapK, laps := j / MAX_EPOCH, k / MAX_EPOCH, (k - j) / MAX_EPOCH;
    if j % MAX_EPOCH == k % MAX_EPOCH {
      Residue(k - j, lapK - lapJ, 0);
    }
    if (k - j) % MAX_EPOCH == 0 {
      Residue(k, lapJ + laps, j % MAX_EPOCH);
    }
  }

  /**
   * The epoch test tells a current stamp from a stale one in every run of up to
   * `bound` finalize calls exactly when `bound` is below MAX_EPOCH.
   */
  lemma EpochTestSound(bound: nat)
    ensures (forall j: nat, k: nat :: j <= k <= bound && EpochAfter(j) == EpochAfter(k) ==> j == k)
       <==> bound < MAX_EPOCH
  {
    if bound < MAX_EPOCH {
      forall j: nat, k: nat | j <= k <= bound && EpochAfter(j) == EpochAfter(k) ensures j == k {
        StampPasses(j, k);
      }
    } else {
      StampPasses(0, MAX_EPOCH);
      assert EpochAfter(0) == EpochAfter(MAX_EPOCH);
    }
  }

  // ---------- descriptors ----------

  class Descriptor {
    const parent: Descriptor?
    const construct: Hook
    const destruct: Hook
    ghost const ancestors: seq<Descriptor>  // from the parent up to the root
    var initialized: int
    var depth: int
    var block: array?<Hook>                 // the one allocation of both tables
    var destructAt: nat                     // where in it the destructor table starts

    // Expansion of PMIX_CLASS_INSTANCE.
    constructor (parent: Descriptor?, construct: Hook, destruct: Hook)
      requires parent != null ==> parent.Rooted()
      ensures this.parent == parent && this.construct == construct && this.destruct == destruct
      ensures Rooted() && initialized == 0 && block == null
    {
      this.parent, this.construct, this.destruct := parent, construct, destruct;
      ancestors := if parent == null then [] else [parent] + parent.ancestors;
      initialized, depth, block, destructAt := 0, 0, null, 0;
    }

    // The parent pointers lead to a root in finitely many steps.
    ghost predicate Rooted()
      decreases |ancestors|
    {
      if parent == null then ancestors == []
      else ancestors == [parent] + parent.ancestors && parent.Rooted()
    }

    // The class itself, its parent, and so on up to the root.
    ghost function Chain(): (chain: seq<Descriptor>)
    {
      [this] + ancestors
    }

    // All constructors of the hierarchy, root first, NULL hooks included.
    ghost function AllConstructs(): (hooks: seq<Hook>)
    {
      var chain := Chain();
      seq(|chain|, i requires 0 <= i < |chain| => chain[|chain| - 1 - i].construct)
    }

    // All destructors of the hierarchy, the class itself first.
    ghost function AllDestructs(): (hooks: seq<Hook>)
    {
      var chain := Chain();
      seq(|chain|, i requires 0 <= i < |chain| => chain[i].destruct)
    }

    ghost function Constructs(): (hooks: seq<Hook>) { Kept(AllConstructs()) }

    ghost function Destructs(): (hooks: seq<Hook>) { Kept(AllDestructs()) }

    // What the allocation must hold: both tables with their end markers, no slot more.
    ghost function Tables(): (hooks: seq<Hook>)
    {
      Constructs() + [Null] + Destructs() + [Null]
    }

    ghost predicate HoldsTables()
      reads this, block
    {
      && block != null
      && block[..] == Tables()
      && destructAt == |Constructs()| + 1
      && depth == |Chain()|
    }
  }

  // Where the walk from a class up to its root stands after i steps.
  lemma {:induction false} ChainStep(c: Descriptor, i: nat)
    requires c.Rooted() && i < |c.Chain()|
    ensures c.Chain()[i].parent == if i + 1 < |c.Chain()| then c.Chain()[i + 1] else null
    decreases i
  {
    if i > 0 {
      ChainStep(c.parent, i - 1);
      assert c.Chain() == [c] + c.parent.Chain();
    }
  }

  /**
   * Inheritance: a class's constructor table extends its parent's at the end and
   * its destructor table extends its parent's at the front.
   */
  lemma TablesExtendParent(c: Descriptor)
    requires c.Rooted() && c.parent != null
    ensures c.Constructs() == c.parent.Constructs() + Own(c.construct)
    ensures c.Destructs() == Own(c.destruct) + c.parent.Destructs()
  {
    assert c.Chain() == [c] + c.parent.Chain();
    assert c.AllConstructs() == c.parent.AllConstructs() + [c.construct];
    KeptAppend(c.parent.AllConstructs(), [c.construct]);
    assert c.AllDestructs() == [c.destruct] + c.parent.AllDestructs();
    KeptAppend([c.destruct], c.parent.AllDestructs());
  }

  // ---------- objects ----------

  class Object {
    const cls: Descriptor
    var count: int
    var alive: bool
    ghost var ran: seq<Hook>   // the hooks run on this object so far

    constructor (cls: Descriptor)
      ensures this.cls == cls && count == 1 && alive && ran == []
    {
      this.cls := cls;
      count, alive, ran := 1, true, [];
    }

    // References are held exactly while the object lives, and the hooks run on it
    // are its constructors, followed after its death by its destructors.
    ghost predicate Valid()
      reads this
    {
      && (if alive then count >= 1 else count == 0)
      && ran == cls.Constructs() + if alive then [] else cls.Destructs()
    }

    method Retain()
      requires Valid() && alive
      modifies this
      ensures Valid() && alive && count == old(count) + 1
    {
      count := count + 1;
    }

    method RunConstructors()
      requires cls.HoldsTables()
      modifies this`ran
      ensures ran == old(ran) + cls.Constructs()
    {
      var i := 0;
      while cls.block[i] != Null
        invariant 0 <= i <= |cls.Constructs()|
        invariant ran == old(ran) + cls.Constructs()[..i]
        decreases |cls.Constructs()| - i
      {
        TableSlot(cls, i);
        ran := ran + [cls.block[i]];
        i := i + 1;
        TableSlot(cls, i);
      }
      TableSlot(cls, i);
    }

    method RunDestructors()
      requires cls.HoldsTables()
      modifies this`ran
      ensures ran == old(ran) + cls.Destructs()
    {
      var i := cls.destructAt;
      ghost var destructs := cls.Destructs();
      TableSlot(cls, i);
      while cls.block[i] != Null
        invariant cls.destructAt <= i <= cls.destructAt + |destructs|
        invariant ran == old(ran) + destructs[..i - cls.destructAt]
        decreases cls.block.Length - i
      {
        TableSlot(cls, i);
        ran := ran + [cls.block[i]];
        i := i + 1;
      }
      TableSlot(cls, i);
    }

    // PMIX_RELEASE. The destructor table is read without a look at the epoch, so
    // the class must not have been finalized since.
    method Release()
      requires Valid() && alive && cls.HoldsTables()
      modifies this
      ensures Valid() && count == old(count) - 1
      ensures alive <==> old(count) > 1
      ensures ran == old(ran) + if alive then [] else cls.Destructs()
    {
      count := count - 1;
      if count == 0 {
        alive := false;
        RunDestructors();
      }
    }
  }

  // The part of pmix_obj_new that follows the look at the stamp.
  method Construct(cls: Descriptor) returns (o: Object)
    requires cls.HoldsTables()
    ensures fresh(o) && o.Valid() && o.alive && o.count == 1 && o.cls == cls
    ensures o.ran == cls.Constructs()
  {
    o := new Object(cls);
    o.RunConstructors();
  }

  // What a slot of a well-formed allocation holds.
  lemma TableSlot(c: Descriptor, i: int)
    requires c.HoldsTables() && 0 <= i < c.block.Length
    ensures c.block.Length == |c.Constructs()| + |c.Destructs()| + 2
    ensures i < |c.Constructs()| ==> c.block[i] == c.Constructs()[i] && c.block[i] != Null
    ensures i == |c.Constructs()| || i == c.block.Length - 1 ==> c.block[i] == Null
    ensures c.destructAt <= i < c.block.Length - 1 ==>
              c.block[i] == c.Destructs()[i - c.destructAt] && c.block[i] != Null
  {
    KeptNotNull(c.AllConstructs());
    KeptNotNull(c.AllDestructs());
    assert c.block[i] == c.block[..][i];
  }

  // ---------- building the tables ----------

  // How many of the first k hooks are not NULL.
  function Count(hooks: seq<Hook>, k: nat): (count: nat)
    requires k <= |hooks|
  {
    if k == 0 then 0 else Count(hooks, k - 1) + if hooks[k - 1] == Null then 0 else 1
  }

  // A hook that is kept lands behind all kept hooks before it.
  lemma {:induction false} KeptSlot(hooks: seq<Hook>, k: nat)
    requires k <= |hooks|
    ensures Count(hooks, k) == |Kept(hooks[..k])| <= |Kept(hooks)|
    ensures k < |hooks| && hooks[k] != Null ==>
              Count(hooks, k) < |Kept(hooks)| && Kept(hooks)[Count(hooks, k)] == hooks[k]
  {
    assert hooks == hooks[..k] + hooks[k..];
    KeptAppend(hooks[..k], hooks[k..]);
    if k > 0 {
      KeptSlot(hooks, k - 1);
      assert hooks[..k] == hooks[..k - 1] + [hooks[k - 1]];
      KeptAppend(hooks[..k - 1], [hooks[k - 1]]);
    }
  }

  lemma CountAll(hooks: seq<Hook>)
    ensures Count(hooks, |hooks|) == |Kept(hooks)|
  {
    KeptSlot(hooks, |hooks|);
    assert hooks[..|hooks|] == hooks;
  }

  // `kept` holds the kept hooks, each at the slot its predecessors leave it.
  ghost predicate Slots(hooks: seq<Hook>, kept: seq<Hook>)
  {
    && Count(hooks, |hooks|) == |kept|
    && (forall k {:trigger Count(hooks, k)} | 0 <= k < |hooks| ::
          if hooks[k] == Null then Count(hooks, k) <= |kept|
          else Count(hooks, k) < |kept| && kept[Count(hooks, k)] == hooks[k])
  }

  lemma KeptSlots(hooks: seq<Hook>)
    ensures Slots(hooks, Kept(hooks))
  {
    CountAll(hooks);
    forall k | 0 <= k < |hooks|
      ensures if hooks[k] == Null then Count(hooks, k) <= |Kept(hooks)|
              else Count(hooks, k) < |Kept(hooks)| && Kept(hooks)[Count(hooks, k)] == hooks[k]
    {
      KeptSlot(hooks, k);
    }
  }

  // What the walk from a class up to its root meets: the descriptors, and their
  // hooks in the order in which the two tables are to hold them.
  ghost predicate Walk(cls: Descriptor, chain: seq<Descriptor>, cs: seq<Hook>, ds: seq<Hook>)
  {
    && |cs| == |ds| == |chain| > 0
    && chain[0] == cls && chain[|chain| - 1].parent == null
    && (forall i, j | 0 <= i && j == i + 1 < |chain| :: chain[i].parent == chain[j])
    && (forall i | 0 <= i < |chain| ::
          cs[|chain| - 1 - i] == chain[i].construct && ds[i] == chain[i].destruct)
  }

  lemma WalkOf(cls: Descriptor)
    requires cls.Rooted()
    ensures Walk(cls, cls.Chain(), cls.AllConstructs(), cls.AllDestructs())
  {
    var chain := cls.Chain();
    forall i, j | 0 <= i && j == i + 1 < |chain| ensures chain[i].parent == chain[j] {
      ChainStep(cls, i);
    }
    ChainStep(cls, |chain| - 1);
  }

  // The walk that counts the hooks to be stored.
  method CountHooks(cls: Descriptor, ghost chain: seq<Descriptor>, ghost cs: seq<Hook>, ghost ds: seq<Hook>)
    returns (constructs: nat, destructs: nat)
    requires Walk(cls, chain, cs, ds)
    modifies cls`depth
    ensures constructs == |Kept(cs)| && destructs == |Kept(ds)|
    ensures cls.depth == |chain|
  {
    cls.depth := 0;
    constructs, destructs := 0, 0;
    var c: Descriptor? := cls;
    CountAll(cs);
    CountAll(ds);
    while c != null
      invariant 0 <= cls.depth <= |chain|
      invariant c == if cls.depth < |chain| then chain[cls.depth] else null
      invariant constructs == |Kept(cs)| - Count(cs, |cs| - cls.depth)
      invariant destructs == Count(ds, cls.depth)
      decreases |chain| - cls.depth
    {
      if c.construct != Null {
        constructs := constructs + 1;
      }
      if c.destruct != Null {
        destructs := destructs + 1;
      }
      cls.depth := cls.depth + 1;
      c := c.parent;
    }
  }

  // The walk that fills the constructor table `ct` from its end down and the
  // destructor table `dt` from its start up.
  method FillTables(cls: Descriptor, block: array<Hook>, constructs: nat, destructs: nat,
                    ghost chain: seq<Descriptor>, ghost cs: seq<Hook>, ghost ds: seq<Hook>,
                    ghost ct: seq<Hook>, ghost dt: seq<Hook>)
    requires Walk(cls, chain, cs, ds) && cls.depth == |chain|
    requires Slots(cs, ct) && Slots(ds, dt)
    requires constructs == |ct| && destructs == |dt|
    requires block.Length == constructs + destructs + 2
    modifies block
    ensures block[..] == ct + [Null] + dt + [Null]
  {
    var construct, destruct := constructs, constructs + 1;
    var c: Descriptor? := cls;
    block[construct] := Null;
    var i := 0;
    while i < cls.depth
      invariant 0 <= i <= |chain|
      invariant c == if i < |chain| then chain[i] else null
      invariant construct == Count(cs, |cs| - i) <= constructs
      invariant destruct == constructs + 1 + Count(ds, i)
      invariant Count(ds, i) <= destructs
      invariant forall k | construct <= k < constructs :: block[k] == ct[k]
      invariant block[constructs] == Null
      invariant forall k | constructs < k < destruct :: block[k] == dt[k - constructs - 1]
    {
      if c.construct != Null {
        construct := construct - 1;
        block[construct] := c.construct;
      }
      if c.destruct != Null {
        block[destruct] := c.destruct;
        destruct := destruct + 1;
      }
      c := c.parent;
      i := i + 1;
    }
    block[destruct] := Null;
  }

  // Counts, allocates, fills, stamps.
  method BuildTables(cls: Descriptor, epoch: int)
    requires cls.Rooted()
    modifies cls
    ensures cls.HoldsTables() && fresh(cls.block)
    ensures cls.initialized == epoch
  {
    ghost var chain, cs, ds := cls.Chain(), cls.AllConstructs(), cls.AllDestructs();
    WalkOf(cls);
    var constructs, destructs := CountHooks(cls, chain, cs, ds);
    var block := new Hook[constructs + destructs + 2];
    KeptSlots(cs);
    KeptSlots(ds);
    FillTables(cls, block, constructs, destructs, chain, cs, ds, Kept(cs), Kept(ds));
    cls.block := block;
    cls.destructAt := constructs + 1;
    cls.initialized := epoch;
  }

  // ---------- the class system ----------

  class ClassSystem {
    var epoch: int
    var classes: array?<array?<Hook>>
    var numClasses: nat
    var maxClasses: nat
    ghost var registry: seq<array<Hook>>     // what `classes` holds below numClasses
    ghost var blocks: set<array<Hook>>       // every table allocation ever made
    ghost var freed: set<array<Hook>>
    ghost var known: set<Descriptor>         // the program's descriptors, the root class aside
    ghost var stamps: map<Descriptor, nat>   // finalize calls made when a class was last stamped
    ghost var finals: nat                    // finalize calls made so far

    constructor (descriptors: set<Descriptor>)
      requires forall c | c in descriptors :: c.Rooted() && c.initialized == 0
      ensures Valid() && known == descriptors && finals == 0 && epoch == 1 && stamps == map[]
      ensures blocks == {} && registry == []
    {
      epoch, classes, numClasses, maxClasses := 1, null, 0, 0;
      known, stamps, finals, blocks, freed, registry := descriptors, map[], 0, {}, {}, [];
    }

    ghost predicate Mirrors()
      reads `numClasses, `maxClasses, `classes, `registry, classes
    {
      && maxClasses == (if classes == null then 0 else classes.Length)
      && numClasses == |registry| <= maxClasses
      && (forall i | 0 <= i < numClasses :: classes[i] == registry[i])
    }

    // The registry lists, once each, exactly the allocations not yet freed.
    ghost predicate RegistryValid()
      reads `registry, `blocks, `freed
    {
      && freed <= blocks
      && (forall b | b in registry :: b in blocks && b !in freed)
      && (forall i, j | 0 <= i < j < |registry| :: registry[i] != registry[j])
      && (forall b | b in blocks :: b in freed || b in registry)
    }

    // The state of a class that was stamped when `at` finalize calls had been made.
    ghost predicate Stamped(c: Descriptor, at: nat)
      reads `registry, `blocks, `freed, `finals, c, c.block
    {
      && at <= finals
      && c.initialized == EpochAfter(at)
      && c.block != null && c.block in blocks
      && (if at == finals then c.block in registry && c.HoldsTables() else c.block in freed)
    }

    ghost predicate ClassesValid()
      reads `registry, `blocks, `freed, `finals, `known, `stamps, known, blocks
    {
      && stamps.Keys <= known
      && (forall c | c in known :: c.Rooted())
      && (forall c | c in known && c !in stamps :: c.initialized == 0)
      && (forall c | c in stamps :: c.block in blocks && Stamped(c, stamps[c]))
    }

    ghost predicate Valid()
      reads this, classes, known, blocks
    {
      Mirrors() && RegistryValid() && ClassesValid() && epoch == EpochAfter(finals)
    }

    // The tables of a class are there to be read: built, registered and not freed.
    ghost predicate Live(c: Descriptor)
      reads `registry, `freed, c, c.block
    {
      c.block != null && c.block in registry && c.block !in freed && c.HoldsTables()
    }

    method ExpandArray()
      requires Mirrors()
      modifies this`classes, this`maxClasses
      ensures Mirrors() && classes != null && fresh(classes)
      ensures maxClasses == old(maxClasses) + INCREMENT
      ensures forall i | numClasses <= i < maxClasses :: classes[i] == null
    {
      maxClasses := maxClasses + INCREMENT;
      var grown := new array?<Hook>[maxClasses];
      var i := 0;
      while i < numClasses
        invariant 0 <= i <= numClasses
        invariant forall j | 0 <= j < i :: grown[j] == registry[j]
        modifies grown
      {
        grown[i] := classes[i];
        i := i + 1;
      }
      classes := grown;
      while i < maxClasses
        invariant numClasses <= i <= maxClasses
        invariant forall j | 0 <= j < numClasses :: grown[j] == registry[j]
        invariant forall j | numClasses <= j < i :: grown[j] == null
        modifies grown
      {
        classes[i] := null;
        i := i + 1;
      }
    }

    method SaveClass(c: Descriptor)
      requires Mirrors() && c.block != null
      modifies this`classes, this`maxClasses, this`numClasses, this`registry, this`blocks, this`stamps, classes
      ensures Mirrors() && registry == old(registry) + [c.block]
      ensures blocks == old(blocks) + {c.block} && stamps == old(stamps)[c := finals]
      ensures classes == old(classes) || fresh(classes)
    {
      if numClasses >= maxClasses {
        ExpandArray();
      }
      classes[numClasses] := c.block;
      numClasses := numClasses + 1;
      registry, blocks, stamps := registry + [c.block], blocks + {c.block}, stamps[c := finals];
    }

    // pmix_class_initialize from the second look at the stamp on.
    method InitializeAnew(cls: Descriptor)
      requires Valid() && cls in known && cls.initialized != epoch
      modifies this`classes, this`maxClasses, this`numClasses, this`registry, this`blocks, this`stamps, classes, cls
      ensures Valid()
      ensures cls.HoldsTables() && cls.initialized == epoch && fresh(cls.block)
      ensures registry == old(registry) + [cls.block] && blocks == old(blocks) + {cls.block}
      ensures stamps == old(stamps)[cls := finals]
      ensures classes == old(classes) || fresh(classes)
    {
      BuildTables(cls, epoch);
      SaveClass(cls);
      forall c | c in stamps ensures c.block in blocks && Stamped(c, stamps[c]) {
        assert c != cls ==> old(Stamped(c, stamps[c])) && (old(c.HoldsTables()) ==> c.HoldsTables());
      }
    }

    // pmix_class_initialize.
    method Initialize(cls: Descriptor)
      requires Valid() && cls in known
      modifies this`classes, this`maxClasses, this`numClasses, this`registry, this`blocks, this`stamps, classes, cls
      ensures Valid()
      ensures old(cls.initialized == epoch) ==> unchanged(cls) && unchanged(this)
      ensures old(cls.initialized != epoch) ==>
                && cls.HoldsTables() && cls.initialized == epoch && fresh(cls.block)
                && registry == old(registry) + [cls.block] && blocks == old(blocks) + {cls.block}
                && stamps == old(stamps)[cls := finals]
      ensures classes == old(classes) || fresh(classes)
    {
      if epoch != cls.initialized {
        InitializeAnew(cls);
      }
    }

    // free(3) of a table allocation: one that was made and not freed before.
    ghost method Free(block: array<Hook>)
      requires block in blocks && block !in freed
      modifies this`freed
      ensures freed == old(freed) + {block}
    {
      freed := freed + {block};
    }

    method NextEpoch()
      requires epoch == EpochAfter(finals)
      modifies this`epoch, this`finals
      ensures epoch == EpochAfter(finals) && finals == old(finals) + 1
    {
      EpochStep(finals);
      epoch := if MAX_EPOCH == epoch then 1 else epoch + 1;
      finals := finals + 1;
    }

    // Every allocation is freed, each of them once, and the registry emptied.
    method FreeTables()
      requires Mirrors() && RegistryValid()
      modifies this`classes, this`maxClasses, this`numClasses, this`registry, this`freed
      ensures Mirrors() && registry == [] && freed == blocks
    {
      if classes != null {
        var i := 0;
        while i < numClasses
          invariant 0 <= i <= numClasses
          invariant freed == old(freed) + set b | b in registry[..i]
          modifies this`freed
        {
          if classes[i] != null {
            assert registry[i] !in registry[..i];
            Free(classes[i]);
          }
          i := i + 1;
        }
        assert registry[..numClasses] == registry;
        classes, numClasses, maxClasses := null, 0, 0;
      }
      registry := [];
    }

    // pmix_class_finalize.
    method Finalize()
      requires Valid()
      modifies this`epoch, this`classes, this`maxClasses, this`numClasses, this`registry, this`freed, this`finals
      ensures Valid()
      ensures finals == old(finals) + 1
      ensures registry == [] && freed == blocks
    {
      NextEpoch();
      FreeTables();
      forall c | c in stamps ensures Stamped(c, stamps[c]) {
        assert old(Stamped(c, stamps[c]));
      }
    }

    // The class is stamped with the current epoch although finalize calls came
    // after its initialization: the epoch has gone all the way around.
    ghost predicate Stale(c: Descriptor)
      reads `stamps, `finals
    {
      c in stamps && stamps[c] < finals && (finals - stamps[c]) % MAX_EPOCH == 0
    }

    /**
     * A class stamped with the current epoch has its tables built, registered and
     * not freed, unless its stamp is exactly a multiple of MAX_EPOCH calls old.
     */
    lemma StampedIsLive(c: Descriptor)
      requires Valid() && c in known && c.initialized == epoch
      ensures Live(c) <==> !Stale(c)
    {
      EpochStep(finals);
      assert c in stamps && Stamped(c, stamps[c]);
      StampPasses(stamps[c], finals);
    }

    /** In a run of fewer than MAX_EPOCH finalize calls every class stamped with the current
        epoch has its tables built, registered and not freed. */
    lemma LiveWithinBound(c: Descriptor)
      requires Valid() && c in known && c.initialized == epoch && finals < MAX_EPOCH
      ensures Live(c)
    {
      StampedIsLive(c);
      assert Stamped(c, stamps[c]);
    }

    // pmix_obj_new, and PMIX_CONSTRUCT likewise.
    method New(cls: Descriptor) returns (o: Object)
      requires Valid() && cls in known && !Stale(cls)
      modifies this`classes, this`maxClasses, this`numClasses, this`registry, this`blocks, this`stamps, classes, cls
      ensures Valid() && Live(cls) && cls.initialized == epoch
      ensures fresh(o) && o.Valid() && o.alive && o.count == 1 && o.cls == cls
      ensures o.ran == cls.Constructs()
      ensures classes == old(classes) || fresh(classes)
    {
      if epoch != cls.initialized {
        Initialize(cls);
      }
      StampedIsLive(cls);
      o := Construct(cls);
    }
  }
}
