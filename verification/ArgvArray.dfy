/**
 * The argument vectors of unit/argv.c as what they are: arrays of string pointers
 * that end at the first NULL, reallocated and shifted in place. `view` is the
 * sequence of strings such an array stands for.
 */
module ArgvArray {
  import opened Sequences

  datatype Slot = NULL | Str(s: string)

  datatype Status = Success | BadParam

  // ---------- what the operations do to the sequence ----------

  // The position of the first entry equal to `arg`, or the number of entries.
  function FirstOf(v: seq<string>, arg: string): (i: nat)
    ensures i <= |v|
    ensures arg !in v[..i]
    ensures i < |v| ==> v[i] == arg
  {
    if v == [] || v[0] == arg then 0 else 1 + FirstOf(v[1..], arg)
  }

  // What pmix_argv_delete removes: nothing when it has nothing to do or complains.
  function Deleted(v: seq<string>, start: int, count: int): (w: seq<string>)
  {
    if count <= 0 || start < 0 || start > |v| then v
    else v[..start] + v[Min(start + count, |v|)..]
  }

  // What pmix_argv_insert leaves: a start behind the end appends.
  function Inserted(v: seq<string>, start: int, source: seq<string>): (w: seq<string>)
  {
    if start < 0 then v
    else if start > |v| then v + source
    else v[..start] + source + v[start..]
  }

  /** Where every entry is after an insertion: the new ones at the start given, or at the end
      if that is behind it, and the old ones around them in order. */
  lemma InsertedAt(v: seq<string>, start: nat, source: seq<string>)
    ensures var w, at := Inserted(v, start, source), if start > |v| then |v| else start;
            && |w| == |v| + |source|
            && (forall k | 0 <= k < at :: w[k] == v[k])
            && (forall k | 0 <= k < |source| :: w[at + k] == source[k])
            && (forall k | at <= k < |v| :: w[|source| + k] == v[k])
  {
  }

  /** What is left after a deletion: all entries but those from the start given on, as many
      as asked for, in order. Nothing is deleted at a start that is negative or behind the end. */
  lemma DeletedAt(v: seq<string>, start: int, count: int)
    ensures start < 0 || start > |v| || count <= 0 ==> Deleted(v, start, count) == v
    ensures 0 <= start <= |v| && count > 0 ==>
              var w := Deleted(v, start, count);
              && |w| == (if start + count <= |v| then |v| - count else start)
              && (forall k | 0 <= k < start :: w[k] == v[k])
              && (forall k | start <= k < |w| :: w[k] == v[k + count])
  {
  }

  /** Deleting what was inserted gives the vector back, wherever it went. */
  lemma DeleteUndoesInsert(v: seq<string>, start: nat, source: seq<string>)
    ensures Deleted(Inserted(v, start, source), Min(start, |v|), |source|) == v
  {
    var w := Inserted(v, start, source);
    if source != [] {
      var at := Min(start, |v|);
      assert w == v[..at] + source + v[at..];
      assert w[..at] == v[..at] && w[at + |source|..] == v[at..];
    } else {
      assert w == v;
    }
  }

  /** Inserting what was deleted, as much as was there, gives the vector back. */
  lemma InsertUndoesDelete(v: seq<string>, start: nat, count: nat)
    requires start <= |v|
    ensures Inserted(Deleted(v, start, count), start, v[start..Min(start + count, |v|)]) == v
  {
    var end := Min(start + count, |v|);
    assert v[..start] + v[start..end] + v[end..] == v;
  }

  class Argv {
    var slots: array?<Slot>
    ghost var view: seq<string>

    ghost predicate Valid()
      reads this, slots
    {
      if slots == null then view == []
      else
        && |view| < slots.Length
        && (forall i | 0 <= i < |view| :: slots[i] == Str(view[i]))
        && slots[|view|] == NULL
    }

    constructor ()
      ensures Valid() && view == [] && slots == null
    {
      slots, view := null, [];
    }

    method Count() returns (n: nat)
      requires Valid()
      ensures n == |view|
    {
      n := 0;
      if slots == null {
        return;
      }
      while slots[n] != NULL
        invariant 0 <= n <= |view|
        decreases |view| - n
      {
        n := n + 1;
      }
    }

    // realloc: a new allocation that begins with what fits of the old one.
    method Realloc(size: nat)
      requires slots != null
      modifies this`slots
      ensures slots != null && fresh(slots) && slots.Length == size
      ensures forall i | 0 <= i < size && i < old(slots).Length :: slots[i] == old(slots[i])
    {
      var grown := new Slot[size];
      var i := 0;
      while i < size && i < slots.Length
        invariant 0 <= i <= size && i <= slots.Length
        invariant forall j | 0 <= j < i :: grown[j] == slots[j]
        modifies grown
      {
        grown[i] := slots[i];
        i := i + 1;
      }
      slots := grown;
    }

    // pmix_argv_append_nosize.
    method Append(arg: string)
      requires Valid()
      modifies this
      ensures Valid() && slots != null && fresh(slots)
      ensures view == old(view) + [arg]
    {
      var argc := 0;
      if slots == null {
        slots := new Slot[2];
        slots[0], slots[1] := NULL, NULL;
      } else {
        argc := Count();
        Realloc(argc + 2);
      }
      slots[argc] := Str(arg);
      argc := argc + 1;
      slots[argc] := NULL;
      view := view + [arg];
    }

    // pmix_argv_prepend_nosize.
    method Prepend(arg: string)
      requires Valid()
      modifies this
      ensures Valid() && slots != null && fresh(slots)
      ensures view == [arg] + old(view)
    {
      if slots == null {
        slots := new Slot[2];
        slots[0], slots[1] := Str(arg), NULL;
      } else {
        var argc := Count();
        Realloc(argc + 2);
        MoveUp(argc, 0, 1);
        slots[0] := Str(arg);
      }
      view := [arg] + view;
    }

    // pmix_argv_append_unique_idx.
    method AppendUniqueIdx(arg: string) returns (idx: nat)
      requires Valid()
      modifies this
      ensures Valid()
      ensures idx == FirstOf(old(view), arg)
      ensures view == if arg in old(view) then old(view) else old(view) + [arg]
    {
      if slots != null {
        var i: nat := 0;
        while slots[i] != NULL
          invariant i <= |view|
          invariant FirstOf(view, arg) == i + FirstOf(view[i..], arg)
          decreases |view| - i
        {
          if slots[i].s == arg {
            idx := i;
            return;
          }
          i := i + 1;
        }
      }
      assert FirstOf(view, arg) == |view| && view[..|view|] == view;
      Append(arg);
      var n := Count();
      idx := n - 1;
    }

    // Copies the entries behind the deleted ones over them and ends the vector there.
    method MoveDown(n: nat, start: nat, count: nat) returns (i: nat)
      requires slots != null && start <= n == |view| < slots.Length
      requires forall j | 0 <= j < n :: slots[j] == Str(view[j])
      modifies slots
      ensures i == start + n - Min(start + count, n)
      ensures forall j | 0 <= j < start :: slots[j] == Str(view[j])
      ensures forall j | start <= j < i :: slots[j] == Str(view[j + count])
      ensures slots[i] == NULL
    {
      var suffix := n - (start + count);
      if suffix < 0 {
        suffix := 0;
      }
      i := start;
      while i < start + suffix
        invariant start <= i <= start + suffix
        invariant forall j | 0 <= j < start :: slots[j] == Str(view[j])
        invariant forall j | start <= j < i :: slots[j] == Str(view[j + count])
        invariant forall j | i + count <= j < n :: slots[j] == Str(view[j])
        modifies slots
      {
        slots[i] := slots[i + count];
        i := i + 1;
      }
      slots[i] := NULL;
    }

    // pmix_argv_delete; argc is the caller's own count of the vector.
    method Delete(argc: int, start: int, count: int) returns (rc: Status, argc': int)
      requires Valid()
      modifies this, slots
      ensures Valid()
      ensures view == Deleted(old(view), start, count)
      ensures rc == if old(slots) != null && count != 0 && start <= |old(view)| && (start < 0 || count < 0)
                    then BadParam else Success
      ensures argc' == if old(slots) != null && count > 0 && 0 <= start <= |old(view)| then argc - count else argc
      ensures argc == |old(view)| ==>
                (argc' == |view| <==> old(slots) == null || count <= 0 || start < 0 || start > |old(view)|
                                      || start + count <= |old(view)|)
      ensures slots == old(slots) || fresh(slots)
    {
      rc, argc' := Success, argc;
      if slots == null || count == 0 {
        assert view == Deleted(view, start, count);
        return;
      }
      var n := Count();
      if start > n {
        return;
      } else if start < 0 || count < 0 {
        return BadParam, argc;
      }
      var i := MoveDown(n, start, count);
      ghost var w := Deleted(view, start, count);
      assert |w| == i;
      assert forall j | 0 <= j < i :: slots[j] == Str(w[j]);
      Realloc(i + 1);
      view := w;
      argc' := argc - count;
    }

    // pmix_argv_insert.
    method Insert(start: int, source: seq<string>) returns (rc: Status)
      requires Valid()
      modifies this
      ensures Valid()
      ensures rc == if old(slots) == null || start < 0 then BadParam else Success
      ensures view == if old(slots) == null then old(view) else Inserted(old(view), start, source)
    {
      if slots == null || start < 0 {
        return BadParam;
      }
      rc := Success;
      var n := Count();
      if start > n {
        AppendAll(source);
      } else {
        InsertInside(start, source);
      }
    }

    method AppendAll(source: seq<string>)
      requires Valid()
      modifies this
      ensures Valid() && view == old(view) + source
    {
      var i := 0;
      assert view == old(view) + source[..0];
      while i < |source|
        invariant 0 <= i <= |source|
        invariant Valid() && view == old(view) + source[..i]
        invariant slots == old(slots) || fresh(slots)
      {
        Append(source[i]);
        i := i + 1;
      }
    }

    // Makes room by moving the suffix, last entry first, and fills the gap.
    method InsertInside(start: nat, source: seq<string>)
      requires Valid() && slots != null && start <= |view|
      modifies this
      ensures Valid() && slots != null && fresh(slots)
      ensures view == old(view)[..start] + source + old(view)[start..]
    {
      var n := Count();
      var m := |source|;
      Realloc(n + m + 1);
      MoveUp(n, start, m);
      var i := start;
      while i < start + m
        invariant start <= i <= start + m
        invariant forall j | 0 <= j < start :: slots[j] == Str(view[j])
        invariant forall j | start <= j < i :: slots[j] == Str(source[j - start])
        invariant forall j | start + m <= j < n + m :: slots[j] == Str(view[j - m])
        invariant slots[n + m] == NULL
        modifies slots
      {
        slots[i] := Str(source[i - start]);
        i := i + 1;
      }
      view := view[..start] + source + view[start..];
    }

    method MoveUp(n: nat, start: nat, m: nat)
      requires slots != null && start <= n == |view| && slots.Length == |view| + m + 1
      requires forall j | 0 <= j < |view| :: slots[j] == Str(view[j])
      modifies slots
      ensures forall j | 0 <= j < start :: slots[j] == Str(view[j])
      ensures forall j | start + m <= j < |view| + m :: slots[j] == Str(view[j - m])
      ensures slots[|view| + m] == NULL
    {
      var suffix := n - start;
      var i := suffix - 1;
      while i >= 0
        invariant -1 <= i < suffix
        invariant forall j | 0 <= j <= start + i :: slots[j] == Str(view[j])
        invariant forall j | start + m + i < j < |view| + m :: slots[j] == Str(view[j - m])
      {
        slots[start + m + i] := slots[start + i];
        i := i - 1;
      }
      slots[start + suffix + m] := NULL;
    }

    // pmix_argv_insert_element.
    method InsertElement(location: int, source: string) returns (rc: Status)
      requires Valid()
      modifies this
      ensures Valid()
      ensures rc == if old(slots) == null || location < 0 then BadParam else Success
      ensures view == if old(slots) == null then old(view) else Inserted(old(view), location, [source])
    {
      if slots == null || location < 0 {
        return BadParam;
      }
      rc := Success;
      var n := Count();
      if location > n {
        Append(source);
        return;
      }
      InsertInside(location, [source]);
    }
  }
}
