/** Packets as the switch queues see them, and sums over lists of them. */
module Packets {
  import opened Outcomes

  const MIN_TRIM: nat := 64

  /** `reversible` says whether the packet knows a route back to its sender, `pathLen` is its route's length. */
  datatype Packet = Packet(id: nat, size: nat, header: bool, pathLen: nat, reversible: bool, bounced: bool)

  /** How a packet leaves a queue; `marked` with a congestion mark. */
  datatype Fate = Sent(packet: Packet, marked: bool) | Bounced(packet: Packet) | Freed(packet: Packet)

  function Strip(p: Packet, size: nat): Outcome<Packet> {
    if size < MIN_TRIM || p.header then Aborted else Ok(p.(header := true, size := size))
  }

  function Bytes(s: seq<Packet>): nat {
    if s == [] then 0 else Bytes(s[..|s| - 1]) + s[|s| - 1].size
  }

  lemma BytesSnoc(s: seq<Packet>, p: Packet)
    ensures Bytes(s + [p]) == Bytes(s) + p.size
  {
    assert (s + [p])[..|s|] == s;
  }

  lemma {:induction false} BytesFirst(s: seq<Packet>)
    requires s != []
    ensures Bytes(s) == s[0].size + Bytes(s[1..])
    decreases |s|
  {
    if |s| > 1 {
      BytesFirst(s[..|s| - 1]);
      assert s[..|s| - 1][1..] == s[1..][..|s| - 2];
    } else {
      assert s[..0] == [] && s[1..] == [];
    }
  }

  lemma {:induction false} BytesConcat(s: seq<Packet>, t: seq<Packet>)
    ensures Bytes(s + t) == Bytes(s) + Bytes(t)
    decreases |t|
  {
    if t == [] {
      assert s + t == s;
    } else {
      assert (s + t)[..|s + t| - 1] == s + t[..|t| - 1];
      BytesConcat(s, t[..|t| - 1]);
    }
  }

  /** How many packets of identity `id` there are in `s`. */
  function Count(s: seq<Packet>, id: nat): nat {
    if s == [] then 0 else Count(s[..|s| - 1], id) + if s[|s| - 1].id == id then 1 else 0
  }

  lemma CountSnoc(s: seq<Packet>, p: Packet, id: nat)
    ensures Count(s + [p], id) == Count(s, id) + One(p, id)
  {
    assert (s + [p])[..|s|] == s;
  }

  lemma {:induction false} CountFirst(s: seq<Packet>, id: nat)
    requires s != []
    ensures Count(s, id) == One(s[0], id) + Count(s[1..], id)
    decreases |s|
  {
    if |s| > 1 {
      CountFirst(s[..|s| - 1], id);
      assert s[..|s| - 1][1..] == s[1..][..|s| - 2];
    } else {
      assert s[..0] == [] && s[1..] == [];
    }
  }

  function One(p: Packet, id: nat): nat {
    if p.id == id then 1 else 0
  }

  /** How many packets of identity `id` have left. */
  function Gone(fates: seq<Fate>, id: nat): nat {
    if fates == [] then 0 else One(fates[0].packet, id) + Gone(fates[1..], id)
  }

  lemma {:induction false} GoneConcat(s: seq<Fate>, t: seq<Fate>, id: nat)
    ensures Gone(s + t, id) == Gone(s, id) + Gone(t, id)
    decreases |s|
  {
    if s == [] {
      assert s + t == t;
    } else {
      assert (s + t)[1..] == s[1..] + t;
      GoneConcat(s[1..], t, id);
    }
  }

  lemma {:induction false} CountConcat(s: seq<Packet>, t: seq<Packet>, id: nat)
    ensures Count(s + t, id) == Count(s, id) + Count(t, id)
    decreases |t|
  {
    if t == [] {
      assert s + t == s;
    } else {
      assert (s + t)[..|s + t| - 1] == s + t[..|t| - 1];
      CountConcat(s, t[..|t| - 1], id);
    }
  }

  // ---------------------------------------------------------------- what is sent

  /** The packets sent, full ones or headers. */
  function Sending(fates: seq<Fate>, header: bool): seq<Packet> {
    if fates == [] then []
    else (if fates[0].Sent? && fates[0].packet.header == header then [fates[0].packet] else [])
         + Sending(fates[1..], header)
  }

  lemma {:induction false} SendingConcat(a: seq<Fate>, b: seq<Fate>, header: bool)
    ensures Sending(a + b, header) == Sending(a, header) + Sending(b, header)
  {
    if a == [] {
      assert a + b == b;
    } else {
      assert (a + b)[1..] == a[1..] + b;
      SendingConcat(a[1..], b, header);
    }
  }

  ghost predicate NothingSent(fates: seq<Fate>) {
    forall i: nat :: i < |fates| ==> !fates[i].Sent?
  }

  lemma {:induction false} NothingSending(fates: seq<Fate>, header: bool)
    requires NothingSent(fates)
    ensures Sending(fates, header) == []
  {
    if fates != [] {
      NothingSending(fates[1..], header);
    }
  }
}
