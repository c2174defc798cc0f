/** What is left of a sequence when some of its members are taken out. */
module Subsequences {

  /** `a` is what is left of `b` when some of its members are taken out. */
  predicate Subsequence<T(==)>(a: seq<T>, b: seq<T>)
    decreases |b|
  {
    if a == [] then true
    else b != [] && ((a[0] == b[0] && Subsequence(a[1..], b[1..])) || Subsequence(a, b[1..]))
  }

  lemma {:induction false} SubsequenceSame<T>(a: seq<T>)
    ensures Subsequence(a, a)
  {
    if a != [] {
      SubsequenceSame(a[1..]);
    }
  }

  lemma {:induction false} SubsequenceAppend<T>(a: seq<T>, b: seq<T>, c: seq<T>, d: seq<T>)
    requires Subsequence(a, b) && Subsequence(c, d)
    ensures Subsequence(a + c, b + d)
    decreases |b|
  {
    if b == [] {
      assert a + c == c && b + d == d;
    } else {
      assert (b + d)[1..] == b[1..] + d;
      if a == [] {
        SubsequenceAppend([], b[1..], c, d);
        assert a + c == [] + c;
      } else if a[0] == b[0] && Subsequence(a[1..], b[1..]) {
        SubsequenceAppend(a[1..], b[1..], c, d);
        assert (a + c)[1..] == a[1..] + c;
      } else {
        SubsequenceAppend(a, b[1..], c, d);
      }
      if a + c != [] && Subsequence(a + c, b[1..] + d) {
        assert Subsequence(a + c, b + d);
      }
    }
  }

  lemma {:induction false} SubsequenceOfSubsequence<T>(a: seq<T>, b: seq<T>, c: seq<T>)
    requires Subsequence(a, b) && Subsequence(b, c)
    ensures Subsequence(a, c)
    decreases |b| + |c|
  {
    if a != [] {
      if b[0] == c[0] && Subsequence(b[1..], c[1..]) {
        if a[0] == b[0] && Subsequence(a[1..], b[1..]) {
          SubsequenceOfSubsequence(a[1..], b[1..], c[1..]);
        } else {
          SubsequenceOfSubsequence(a, b[1..], c[1..]);
        }
      } else {
        SubsequenceOfSubsequence(a, b, c[1..]);
      }
    }
  }

  lemma Regroup<T>(a: seq<T>, b: seq<T>, c: seq<T>)
    ensures (a + b) + c == a + (b + c)
  {
  }

  /** What is sent of `low` first, and then of what waits after the arrivals `came`. */
  lemma InOrderTwice<T>(
    sent: seq<T>, mid: seq<T>, low: seq<T>, came: seq<T>, sent': seq<T>, last: seq<T>, later: seq<T>)
    requires Subsequence(sent + mid, low + came) && Subsequence(sent' + last, mid + later)
    ensures Subsequence((sent + sent') + last, low + (came + later))
  {
    SubsequenceSame(sent);
    SubsequenceSame(later);
    SubsequenceAppend(sent, sent, sent' + last, mid + later);
    SubsequenceAppend(sent + mid, low + came, later, later);
    Regroup(sent, mid, later);
    SubsequenceOfSubsequence(sent + (sent' + last), sent + (mid + later), (low + came) + later);
    Regroup(sent, sent', last);
    Regroup(low, came, later);
  }

  function Reversed<T>(s: seq<T>): (r: seq<T>)
    ensures |r| == |s|
  {
    if s == [] then [] else Reversed(s[1..]) + [s[0]]
  }

  lemma {:induction false} ReversedAppend<T>(a: seq<T>, b: seq<T>)
    ensures Reversed(a + b) == Reversed(b) + Reversed(a)
  {
    if a == [] {
      assert a + b == b;
    } else {
      assert (a + b)[1..] == a[1..] + b;
      ReversedAppend(a[1..], b);
    }
  }

  lemma ReversedFirst<T>(x: T, s: seq<T>)
    ensures Reversed([x] + s) == Reversed(s) + [x]
  {
    assert ([x] + s)[1..] == s;
  }

  lemma {:induction false} ReversedLast<T>(s: seq<T>)
    requires s != []
    ensures Reversed(s) == [s[|s| - 1]] + Reversed(s[..|s| - 1])
  {
    if |s| > 1 {
      ReversedLast(s[1..]);
      assert s[1..][..|s| - 2] == s[..|s| - 1][1..];
    } else {
      assert s[1..] == [] && s[..0] == [];
    }
  }

  lemma DropMiddle<T>(a: seq<T>, b: seq<T>, c: seq<T>)
    ensures Subsequence(a + c, (a + b) + c)
  {
    SubsequenceSame(a);
    SubsequenceSame(c);
    SubsequenceAppend(a, a, [], b);
    assert a + [] == a;
    SubsequenceAppend(a, a + b, c, c);
  }

  /** Taking one member out, read backwards. */
  lemma ReversedWithout<T>(a: seq<T>, x: T, b: seq<T>)
    ensures Subsequence(Reversed(a + b), Reversed(a + ([x] + b)))
  {
    ReversedAppend(a, [x] + b);
    ReversedFirst(x, b);
    ReversedAppend(a, b);
    DropMiddle(Reversed(b), [x], Reversed(a));
  }

  lemma SplitSeq<T>(s: seq<T>, v: nat)
    requires v < |s|
    ensures s == s[..v] + ([s[v]] + s[v + 1..])
  {
  }
}
