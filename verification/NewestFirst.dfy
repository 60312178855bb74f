/** Keeping the newest items of a list under a count limit and a size budget at once. */
module NewestFirst {

  function Total<T>(items: seq<T>, size: T -> nat): nat {
    if items == [] then 0 else Total(items[..|items| - 1], size) + size(items[|items| - 1])
  }

  lemma {:induction false} TotalConcat<T>(a: seq<T>, b: seq<T>, size: T -> nat)
    ensures Total(a + b, size) == Total(a, size) + Total(b, size)
    decreases |b|
  {
    if b == [] {
      assert a + b == a;
    } else {
      var front := b[..|b| - 1];
      assert (a + b)[..|a + b| - 1] == a + front;
      TotalConcat(a, front, size);
    }
  }

  lemma TotalOne<T>(item: T, size: T -> nat)
    ensures Total([item], size) == size(item)
  {
    assert [item][..0] == [];
    assert Total([item][..0], size) == 0;
  }

  lemma TotalSuffix<T>(items: seq<T>, k: nat, size: T -> nat)
    requires k <= |items|
    ensures Total(items[k..], size) <= Total(items, size)
  {
    TotalConcat(items[..k], items[k..], size);
    assert items[..k] + items[k..] == items;
  }

  /** Pointwise, `after` is no larger than `before`. */
  lemma {:induction false} TotalShrinks<T>(before: seq<T>, after: seq<T>, size: T -> nat)
    requires |before| == |after| && forall i :: 0 <= i < |before| ==> size(after[i]) <= size(before[i])
    ensures Total(after, size) <= Total(before, size)
  {
    if before != [] {
      TotalShrinks(before[..|before| - 1], after[..|after| - 1], size);
    }
  }

  // ---------------------------------------------------------------- the specification

  /** Where the longest suffix with at most `slots` items and `budget` bytes starts. */
  function SuffixStart<T>(items: seq<T>, slots: nat, budget: int, size: T -> nat): (start: nat)
    ensures start <= |items|
  {
    if items == [] || slots == 0 || size(items[|items| - 1]) > budget then |items|
    else SuffixStart(items[..|items| - 1], slots - 1, budget - size(items[|items| - 1]), size)
  }

  /** The newest item, shrunk when it alone is over the budget. */
  function NewestItem<T>(items: seq<T>, budget: int, size: T -> nat, shrink: T -> T): T
    requires items != []
  {
    var last := items[|items| - 1];
    if size(last) > budget then shrink(last) else last
  }

  /** The newest item, and before it the longest run of older ones that still fits. */
  function Newest<T>(items: seq<T>, slots: nat, budget: int, size: T -> nat, shrink: T -> T): seq<T> {
    if items == [] || slots == 0 then []
    else
      var newest := NewestItem(items, budget, size, shrink);
      var older := items[..|items| - 1];
      older[SuffixStart(older, slots - 1, budget - size(newest), size)..] + [newest]
  }

  // ---------------------------------------------------------------- what it means

  lemma {:induction false} SuffixIsLongest<T>(items: seq<T>, slots: nat, budget: nat, size: T -> nat, start: nat)
    requires start == SuffixStart(items, slots, budget, size)
    ensures |items| - start <= slots && Total(items[start..], size) <= budget
    ensures start == 0 || |items| - start == slots || Total(items[start - 1..], size) > budget
    decreases |items|
  {
    if items == [] || slots == 0 {
      assert items[start..] == [];
    } else {
      var last := |items| - 1;
      var older := items[..last];
      if size(items[last]) > budget {
        assert items[start..] == [] && items[last..] == [items[last]];
        TotalOne(items[last], size);
      } else {
        SuffixIsLongest(older, slots - 1, budget - size(items[last]), size, start);
        AddNewest(items, older, start, size);
        if start > 0 { AddNewest(items, older, start - 1, size); }
      }
    }
  }

  lemma AddNewest<T>(items: seq<T>, older: seq<T>, from: nat, size: T -> nat)
    requires items != [] && older == items[..|items| - 1] && from <= |older|
    ensures Total(items[from..], size) == Total(older[from..], size) + size(items[|items| - 1])
  {
    var last := items[|items| - 1];
    assert items[from..] == older[from..] + [last];
    TotalConcat(older[from..], [last], size);
    TotalOne(last, size);
  }

  lemma SuffixStep<T>(items: seq<T>, start: nat, before: nat, size: T -> nat)
    requires start <= |items| && start == before + 1
    ensures Total(items[before..], size) == size(items[before]) + Total(items[start..], size)
  {
    assert items[before..] == [items[before]] + items[start..];
    TotalConcat([items[before]], items[start..], size);
    TotalOne(items[before], size);
  }

  lemma NewestUnshrunk<T>(items: seq<T>, slots: nat, budget: nat, size: T -> nat, shrink: T -> T,
                          older: seq<T>, last: T, room: nat, left: nat, start: nat)
    requires items == older + [last] && slots == room + 1 && left == budget - size(last)
    requires start == SuffixStart(older, room, left, size)
    ensures Newest(items, slots, budget, size, shrink) == items[start..]
  {
    assert items[..|items| - 1] == older;
    assert older[start..] + [last] == items[start..];
  }

  /** When the newest item is within the budget the result is an unbroken suffix, and a longer one breaks a limit. */
  lemma NewestIsSuffix<T>(items: seq<T>, slots: nat, budget: nat, size: T -> nat, shrink: T -> T) returns (start: nat)
    requires items != [] && slots > 0 && size(items[|items| - 1]) <= budget
    ensures start < |items| && Newest(items, slots, budget, size, shrink) == items[start..]
    ensures |items| - start <= slots && Total(items[start..], size) <= budget
    ensures start == 0 || |items| - start == slots || Total(items[start..], size) + size(items[start - 1]) > budget
  {
    var older, last := items[..|items| - 1], items[|items| - 1];
    var room: nat, left: nat := slots - 1, budget - size(last);
    start := SuffixStart(older, room, left, size);
    NewestUnshrunk(items, slots, budget, size, shrink, older, last, room, left, start);
    SuffixIsLongest(older, room, left, size, start);
    AddNewest(items, older, start, size);
    if start > 0 {
      SuffixStep(older, start, start - 1, size);
    }
  }

  // ---------------------------------------------------------------- the loop

  /** What `older` still contributes, before what has been retained, makes up `whole`. */
  ghost predicate Completes<T>(older: seq<T>, retained: seq<T>, room: nat, left: int, size: T -> nat, whole: seq<T>) {
    older[SuffixStart(older, room, left, size)..] + retained == whole
  }

  lemma StartCompleting<T>(items: seq<T>, slots: nat, budget: int, size: T -> nat, shrink: T -> T,
                           older: seq<T>, newest: T, room: nat, left: int)
    requires items != [] && slots == room + 1 && newest == NewestItem(items, budget, size, shrink)
    requires older == items[..|items| - 1] && left == budget - size(newest)
    ensures Completes(older, [newest], room, left, size, Newest(items, slots, budget, size, shrink))
  {
  }

  lemma TakeOlder<T>(older: seq<T>, retained: seq<T>, room: nat, left: int, size: T -> nat, whole: seq<T>,
                     item: T, before: seq<T>, grown: seq<T>, room2: nat, left2: int)
    requires Completes(older, retained, room, left, size, whole)
    requires older == before + [item] && grown == [item] + retained
    requires size(item) <= left && room == room2 + 1 && left2 == left - size(item)
    ensures Completes(before, grown, room2, left2, size, whole)
  {
    assert older[..|before|] == before;
    var start := SuffixStart(before, room2, left2, size);
    assert SuffixStart(older, room, left, size) == start;
    assert older[start..] + retained == before[start..] + grown;
  }

  lemma NothingMore<T>(older: seq<T>, retained: seq<T>, room: nat, left: int, size: T -> nat, whole: seq<T>)
    requires Completes(older, retained, room, left, size, whole)
    requires older == [] || room == 0 || size(older[|older| - 1]) > left
    ensures retained == whole
  {
    assert older[|older|..] + retained == retained;
  }

  /** Newest to oldest, until a limit is reached; the result is kept oldest first. */
  method RetainNewest<T>(items: seq<T>, slots: nat, budget: nat, size: T -> nat, shrink: T -> T)
    returns (retained: seq<T>)
    ensures retained == Newest(items, slots, budget, size, shrink)
  {
    retained := [];
    var retainedBytes: nat := 0;
    var older := items;
    ghost var whole := Newest(items, slots, budget, size, shrink);
    ghost var room: nat, left: int := slots, budget;
    while older != []
      invariant room + |retained| == slots && left + retainedBytes == budget
      invariant retained == [] ==> older == items && retainedBytes == 0
      invariant retained != [] ==> Completes(older, retained, room, left, size, whole)
      decreases |older|
    {
      if |retained| >= slots {
        break;
      }
      var before, item := older[..|older| - 1], older[|older| - 1];
      if retained != [] && retainedBytes + size(item) > budget {
        break;
      }
      if retained == [] && size(item) > budget {
        item := shrink(item);
      }
      var grown := [item] + retained;
      ghost var room2: nat, left2: int := room - 1, left - size(item);
      if retained == [] {
        StartCompleting(items, slots, budget, size, shrink, before, item, room2, left2);
        assert grown == [item];
      } else {
        TakeOlder(older, retained, room, left, size, whole, item, before, grown, room2, left2);
      }
      room, left := room2, left2;
      retained, retainedBytes, older := grown, retainedBytes + size(item), before;
    }
    if retained != [] {
      NothingMore(older, retained, room, left, size, whole);
    }
  }
}
