/** The ring of recycled path entropies as an object, proved against RepsRing.dfy. */
module RepsBuffers {
  import opened Outcomes
  import opened Cyclic
  import R = RepsRing

  class CircularBufferREPS {
    const maxSize: Positive
    const buffer: array<R.Slot>
    var head: nat
    var count: nat
    var frozenHead: nat
    var freshEntropies: int
    var frozenMode: bool

    constructor (bufferSize: Positive)
      ensures maxSize == bufferSize && View() == R.InitRing(bufferSize) && Valid() && fresh(buffer)
    {
      maxSize := bufferSize;
      buffer := new R.Slot[bufferSize](i => R.EMPTY_SLOT);
      head, count, frozenHead, freshEntropies, frozenMode := 0, 0, 0, 0, false;
      new;
      R.InitInv(bufferSize);
      assert buffer[..] == R.InitRing(bufferSize).slots;
    }

    ghost function View(): R.Ring
      reads this, buffer
    {
      R.Ring(buffer[..], head, count, frozenHead, freshEntropies, frozenMode)
    }

    ghost predicate Valid()
      reads this, buffer
    {
      buffer.Length == maxSize && R.Inv(View())
    }

    method Add(cfg: R.Config, element: int)
      requires Valid()
      modifies this`head, this`count, this`freshEntropies, buffer
      ensures Valid() && View() == R.Add(old(View()), cfg, element)
    {
      R.AddKeepsInv(View(), cfg, element);
      if !buffer[head].valid {
        freshEntropies := freshEntropies + 1;
      }
      buffer[head] := R.Slot(element, true, cfg.maxLifetime);
      head := (head + 1) % maxSize;
      if freshEntropies > maxSize {
        freshEntropies := maxSize;
      }
      count := count + 1;
      if count > maxSize {
        count := maxSize;
      }
    }

    /** Where the program throws, the result is `Aborted` and nothing changes. */
    method RemoveEarliestFresh(cfg: R.Config) returns (element: Outcome<int>)
      requires Valid()
      modifies this`freshEntropies, buffer
      ensures var r := R.RemoveEarliestFresh(old(View()), cfg);
        if r.Ok? then element == Ok(r.value.1) && View() == r.value.0
        else element == Aborted && View() == old(View())
      ensures R.Contiguous(old(View())) ==> Valid() && (element.Ok? <==> old(freshEntropies) > 0)
    {
      if R.Contiguous(View()) && freshEntropies > 0 {
        R.RemoveFreshKeepsInv(View(), cfg);
      }
      if count == 0 || freshEntropies == 0 {
        R.CountBound(buffer[..]);
        return Aborted;
      }
      var offset := if head - freshEntropies < 0 then head + maxSize - freshEntropies else head - freshEntropies;
      if offset < 0 || offset >= maxSize {
        return Aborted;
      }
      var s := buffer[offset];
      if cfg.compressedAcks {
        buffer[offset] := s.(lifetime := s.lifetime - 1);
        if buffer[offset].lifetime <= 0 {
          buffer[offset] := buffer[offset].(valid := false);
          freshEntropies := freshEntropies - 1;
        }
      } else {
        buffer[offset] := s.(valid := false);
        freshEntropies := freshEntropies - 1;
      }
      element := Ok(s.value);
    }

    method PeekEarliestFresh() returns (element: R.Option)
      requires Valid()
      ensures element == R.PeekEarliestFresh(View())
    {
      if count == 0 || freshEntropies == 0 {
        return R.None;
      }
      var offset := if head - freshEntropies < 0 then head + maxSize - freshEntropies else head - freshEntropies;
      if offset < 0 || offset >= maxSize {
        return R.None;
      }
      element := R.Some(buffer[offset].value);
    }

    method RemoveFrozen(cfg: R.Config) returns (element: Outcome<int>)
      requires Valid()
      modifies this`freshEntropies, this`frozenHead, buffer
      ensures Valid() && (element.Ok? <==> old(count) > 0 && frozenMode)
      ensures var r := R.RemoveFrozen(old(View()), cfg);
        if r.Ok? then element == Ok(r.value.1) && View() == r.value.0
        else element == Aborted && View() == old(View())
    {
      if count == 0 || !frozenMode {
        return Aborted;
      }
      R.RemoveFrozenKeepsInv(View(), cfg);
      ghost var r := R.RemoveFrozen(View(), cfg).value.0;
      var oldValidity := buffer[frozenHead].valid;
      element := Ok(buffer[frozenHead].value);
      if cfg.compressedAcks {
        buffer[frozenHead] := buffer[frozenHead].(lifetime := buffer[frozenHead].lifetime - 1);
        if buffer[frozenHead].lifetime < 0 {
          buffer[frozenHead] := buffer[frozenHead].(valid := false);
          if oldValidity {
            freshEntropies := freshEntropies - 1;
          }
        }
      } else {
        if oldValidity {
          freshEntropies := freshEntropies - 1;
        }
        buffer[frozenHead] := buffer[frozenHead].(valid := false);
      }
      frozenHead := (frozenHead + 1) % count;
      assert buffer[..] == r.slots;
      assert View() == r;
    }

    method ResetBuffer()
      requires Valid()
      modifies this`head, this`count, this`frozenHead, this`freshEntropies, buffer
      ensures Valid() && View() == R.ResetBuffer(old(View()))
    {
      for i := 0 to maxSize
        invariant buffer[..i] == seq(i, j => R.EMPTY_SLOT)
      {
        buffer[i] := R.EMPTY_SLOT;
      }
      R.ResetKeepsInv(View());
      head, count, frozenHead, freshEntropies := 0, 0, 0, 0;
      assert buffer[..] == buffer[..maxSize];
    }

    method SetFrozenMode(cfg: R.Config, mode: bool)
      requires Valid()
      modifies this`frozenMode
      ensures Valid() && View() == R.SetFrozenMode(old(View()), cfg, mode)
    {
      if cfg.useFreezing {
        frozenMode := mode;
      }
    }

    function GetFrozenEv(): (ev: int)
      requires Valid()
      reads this, buffer
      ensures ev == R.GetFrozenEv(View())
    {
      if !frozenMode || count == 0 then -1 else buffer[frozenHead].value
    }

    /** Counts the valid slots up to the fill level, which is all of them, and finds the cached count. */
    method NumValid() returns (n: nat)
      requires Valid()
      ensures n == freshEntropies == R.CountValid(buffer[..])
    {
      n := 0;
      for i := 0 to count
        invariant n == R.CountValid(buffer[..i])
      {
        assert buffer[..i + 1][..i] == buffer[..i];
        if buffer[i].valid {
          n := n + 1;
        }
      }
      R.CountPrefix(buffer[..], count);
      assert buffer[..][..count] == buffer[..count];
    }

    method GetSlots() returns (slots: seq<R.Slot>)
      ensures slots == buffer[..]
    {
      slots := [];
      for i := 0 to buffer.Length
        invariant slots == buffer[..i]
      {
        slots := slots + [buffer[i]];
      }
    }
  }
}
