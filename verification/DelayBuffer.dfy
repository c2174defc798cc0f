/** The delay window as a ring of fixed size, proved against DelayWindow.dfy. */
module DelayBuffers {
  import opened Outcomes
  import opened Cyclic
  import D = DelayWindow

  class DelayMedianBuffer {
    const buf: array<nat>
    var head: nat
    var count: nat
    var capacity: nat

    ghost predicate Valid()
      reads this
    {
      buf.Length == D.MAX_H && head < D.MAX_H && count <= capacity && 1 <= capacity <= D.MAX_H
    }

    /** The samples held, oldest first: the `count` slots before `head`. */
    ghost function Samples(): seq<nat>
      requires Valid()
      reads this, buf
    {
      D.Slots(buf[..], head, count)
    }

    ghost function View(): D.Window
      requires Valid()
      reads this, buf
    {
      D.Window(Samples(), capacity)
    }

    constructor ()
      ensures Valid() && fresh(buf) && View() == D.Window([], 1)
    {
      buf := new nat[D.MAX_H];
      head, count, capacity := 0, 0, 1;
    }

    method SetCapacity(h: int)
      requires Valid()
      modifies this`count, this`capacity
      ensures Valid() && View() == D.Apply(old(View()), D.SetCapacity(h))
    {
      var newCap := D.Clamp(h);
      D.ShrinkSlots(buf[..], head, count, if newCap < count then newCap else count);
      if newCap < count {
        count := newCap;
      }
      capacity := newCap;
    }

    method Push(delay: nat)
      requires Valid()
      modifies this`head, this`count, buf
      ensures Valid() && View() == D.Apply(old(View()), D.Push(delay))
    {
      ghost var kept := if count < capacity then count + 1 else count;
      D.PushSlots(buf[..], head, count, kept, delay);
      buf[head % D.MAX_H] := delay;
      head := (head + 1) % D.MAX_H;
      if count < capacity {
        count := count + 1;
      }
      assert head == After(old(head), D.MAX_H);
    }

    method Percentile(p: int) returns (r: Outcome<nat>)
      requires Valid()
      ensures r == D.Percentile(View(), p)
    {
      if count == 0 {
        return Ok(0);
      }
      var n := count;
      var tmp := new nat[D.MAX_H];
      var start := (head - n + D.MAX_H) % D.MAX_H;
      var i := 0;
      while i < n
        invariant 0 <= i <= n && tmp[..i] == Samples()[..i]
      {
        assert (start + i) % D.MAX_H == Wrap(head - n + i, D.MAX_H);
        tmp[i] := buf[(start + i) % D.MAX_H];
        i := i + 1;
      }
      assert tmp[..n] == Samples();
      var sorted := D.Sort(tmp[..n]);
      D.SortSorts(tmp[..n]);
      var idx := TruncDiv(n * p, 100);
      if idx >= n {
        idx := n - 1;
      }
      if idx < 0 {
        return Aborted;
      }
      r := Ok(sorted[idx]);
    }

    method Median() returns (r: Outcome<nat>)
      requires Valid()
      ensures r == D.Percentile(View(), 50) && r.Ok?
    {
      r := Percentile(50);
    }
  }
}
