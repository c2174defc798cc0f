/** The growable ring buffer in its own form: a vector of slots that is replaced by one twice as large
    when the buffer fills up. */
module CircularBuffers {
  import opened Outcomes
  import opened Cyclic
  import GrowRing

  class CircularBuffer<T(0)> {
    var slots: array<T>
    var nextPush: nat
    var nextPop: nat
    var count: nat

    ghost function View(): GrowRing.Ring<T>
      reads this, slots
    {
      GrowRing.Ring(slots[..], nextPush, nextPop, count)
    }

    ghost predicate Valid()
      reads this, slots
    {
      GrowRing.Inv(View())
    }

    ghost function Contents(): seq<T>
      requires Valid()
      reads this, slots
    {
      GrowRing.Contents(View())
    }

    constructor (startingSize: nat)
      requires startingSize >= 1
      ensures Valid() && fresh(slots) && Contents() == [] && slots.Length == startingSize
    {
      nextPush, nextPop, count := 0, 0, 0;
      slots := new T[startingSize];
    }

    /** Adds an item. One slot always stays free. */
    method Push(item: T)
      requires Valid()
      modifies this, slots
      ensures Valid() && (slots == old(slots) || fresh(slots))
      ensures Contents() == old(Contents()) + [item] && count == old(count) + 1
      ensures slots.Length == if old(count) + 1 == old(slots.Length) then 2 * old(slots.Length) else old(slots.Length)
    {
      ghost var r := View();
      ghost var blank := slots[..];
      if count + 1 == slots.Length {
        blank := Grow();
        GrowRing.GrowKeeps(r, blank);
      }
      ghost var g := View();
      slots[nextPush] := item;
      nextPush := (nextPush + 1) % slots.Length;
      count := count + 1;
      GrowRing.PushAppends(r, item, blank);
      assert nextPush == After(g.nextPush, slots.Length);
      assert View() == GrowRing.Push(r, item, blank);
    }

    /** Doubles the vector, moving what lies before `nextPush` when the items wrap round. */
    method Grow() returns (ghost blank: seq<T>)
      requires Valid() && count + 1 == slots.Length
      modifies this`slots, this`nextPush
      ensures |blank| == old(slots.Length) && View() == GrowRing.Grow(old(View()), blank) && fresh(slots)
    {
      var size := slots.Length;
      var bigger := new T[2 * size];
      blank := bigger[size..];
      forall i | 0 <= i < size {
        bigger[i] := slots[i];
      }
      assert bigger[..] == slots[..] + blank;
      if nextPush < nextPop {
        MoveFront(bigger, slots[..], blank, nextPush);
        nextPush := nextPush + size;
      }
      slots := bigger;
    }

    /** Takes the oldest item. */
    method Pop() returns (item: Outcome<T>)
      requires Valid()
      modifies `nextPop, `count
      ensures Valid()
      ensures old(count) == 0 ==> item.Aborted? && Contents() == old(Contents())
      ensures old(count) > 0 ==> item == Ok(old(Contents())[0]) && Contents() == old(Contents())[1..]
    {
      if count == 0 {
        return Aborted;
      }
      GrowRing.PopTakesOldest(View());
      var oldIndex := nextPop;
      nextPop := (nextPop + 1) % slots.Length;
      count := count - 1;
      assert nextPop == After(oldIndex, slots.Length);
      item := Ok(slots[oldIndex]);
    }

    /** Takes back the newest item. */
    method PopFront() returns (item: Outcome<T>)
      requires Valid()
      modifies `nextPush, `count
      ensures Valid()
      ensures old(count) == 0 ==> item.Aborted? && Contents() == old(Contents())
      ensures old(count) > 0 ==>
                item == Ok(old(Contents())[old(count) - 1]) && Contents() == old(Contents())[..old(count) - 1]
    {
      if count == 0 {
        return Aborted;
      }
      GrowRing.PopFrontTakesNewest(View());
      LastIndex(nextPush, slots.Length);
      var oldIndex := (nextPush + slots.Length - 1) % slots.Length;
      nextPush := oldIndex;
      count := count - 1;
      item := Ok(slots[oldIndex]);
    }

    /** Looks at the item `Pop` would take. */
    method NextToPop() returns (item: Outcome<T>)
      requires Valid()
      ensures item == if count == 0 then Aborted else Ok(Contents()[0])
    {
      item := if count == 0 then Aborted else Ok(slots[nextPop]);
    }

    function IsEmpty(): (b: bool)
      requires Valid()
      reads this, slots
      ensures b <==> Contents() == []
    {
      count == 0
    }

    function Size(): (n: nat)
      requires Valid()
      reads this, slots
      ensures n == |Contents()|
    {
      count
    }
  }

  /** Copies the first `n` slots of the lower half to the upper half. */
  method MoveFront<T>(bigger: array<T>, ghost lower: seq<T>, ghost upper: seq<T>, n: nat)
    requires bigger[..] == lower + upper && |lower| == |upper| && n <= |lower| && bigger.Length == 2 * |lower|
    modifies bigger
    ensures bigger[..] == lower + lower[..n] + upper[n..]
  {
    var size := bigger.Length / 2;
    var i := 0;
    while i < n
      invariant 0 <= i <= n && bigger[..] == lower + lower[..i] + upper[i..]
    {
      bigger[size + i] := bigger[i];
      i := i + 1;
    }
  }

  lemma LastIndex(p: nat, n: nat)
    requires p < n
    ensures (p + n - 1) % n == Wrap(p - 1, n)
  {
    if p == 0 {
      DivModUnique(p + n - 1, n, 0, n - 1);
    } else {
      DivModUnique(p + n - 1, n, 1, p - 1);
    }
  }
}
