/**
 * The two array filters the screens use: dropping every element equal to
 * a given one, and keeping the elements a predicate accepts, in order.
 */
module Lists {

  /** `s.filter(x => x !== v)`. */
  function Without<T(==,!new)>(s: seq<T>, v: T): (r: seq<T>)
    ensures forall x :: x in r <==> x in s && x != v
    ensures |r| <= |s|
  {
    if s == [] then []
    else (if s[0] == v then [] else [s[0]]) + Without(s[1..], v)
  }

  /** Filtering distributes over concatenation, so the order of what stays is kept. */
  lemma {:induction false} WithoutAppend<T(!new)>(a: seq<T>, b: seq<T>, v: T)
    ensures Without(a + b, v) == Without(a, v) + Without(b, v)
  {
    if a == [] {
      assert a + b == b;
    } else {
      assert (a + b)[1..] == a[1..] + b;
      WithoutAppend(a[1..], b, v);
    }
  }

  /** Dropping a value that is not there changes nothing. */
  lemma {:induction false} WithoutAbsent<T(!new)>(s: seq<T>, v: T)
    requires v !in s
    ensures Without(s, v) == s
  {
    if s != [] {
      WithoutAbsent(s[1..], v);
      assert s == [s[0]] + s[1..];
    }
  }

  /** `s.filter(p)`. */
  function Keep<T(!new)>(s: seq<T>, p: T -> bool): (r: seq<T>)
    ensures forall x :: x in r <==> x in s && p(x)
    ensures forall i :: 0 <= i < |r| ==> p(r[i])
    ensures |r| <= |s|
  {
    if s == [] then []
    else (if p(s[0]) then [s[0]] else []) + Keep(s[1..], p)
  }

  /** The complement of a predicate. */
  function Not<T(!new)>(p: T -> bool): (q: T -> bool)
    ensures forall x :: q(x) == !p(x)
  {
    x => !p(x)
  }

  lemma {:induction false} KeepAppend<T(!new)>(a: seq<T>, b: seq<T>, p: T -> bool)
    ensures Keep(a + b, p) == Keep(a, p) + Keep(b, p)
  {
    if a == [] {
      assert a + b == b;
    } else {
      assert (a + b)[1..] == a[1..] + b;
      KeepAppend(a[1..], b, p);
    }
  }

  /** A list whose every element passes is kept whole. */
  lemma {:induction false} KeepAll<T(!new)>(s: seq<T>, p: T -> bool)
    requires forall i :: 0 <= i < |s| ==> p(s[i])
    ensures Keep(s, p) == s
  {
    if s != [] {
      KeepAll(s[1..], p);
      assert s == [s[0]] + s[1..];
    }
  }

  /** A list whose every element fails is dropped whole. */
  lemma {:induction false} KeepNone<T(!new)>(s: seq<T>, p: T -> bool)
    requires forall i :: 0 <= i < |s| ==> !p(s[i])
    ensures Keep(s, p) == []
  {
    if s != [] {
      KeepNone(s[1..], p);
    }
  }

  /** What a filter keeps and what its complement keeps are, together, the list. */
  lemma {:induction false} KeepPartition<T(!new)>(s: seq<T>, p: T -> bool)
    ensures multiset(Keep(s, p)) + multiset(Keep(s, Not(p))) == multiset(s)
  {
    if s != [] {
      var q := Not(p);
      var rest := s[1..];
      KeepPartition(rest, p);
      assert multiset(s) == multiset{s[0]} + multiset(rest) by {
        assert s == [s[0]] + rest;
      }
      if p(s[0]) {
        assert Keep(s, p) == [s[0]] + Keep(rest, p);
        assert Keep(s, q) == Keep(rest, q);
      } else {
        assert Keep(s, p) == Keep(rest, p);
        assert Keep(s, q) == [s[0]] + Keep(rest, q);
      }
    }
  }

  /** No element that fails `p` comes before one that passes. */
  predicate PassersFirst<T(!new)>(s: seq<T>, p: T -> bool) {
    forall i, j :: 0 <= i < j < |s| && p(s[j]) ==> p(s[i])
  }

  /** The length of the longest prefix whose elements all pass. */
  function PassingPrefix<T(!new)>(s: seq<T>, p: T -> bool): (k: nat)
    ensures k <= |s|
    ensures forall i :: 0 <= i < k ==> p(s[i])
    ensures k < |s| ==> !p(s[k])
  {
    if s == [] || !p(s[0]) then 0 else 1 + PassingPrefix(s[1..], p)
  }

  /** A list whose passers come first is its passers followed by the rest. */
  lemma PassersFirstSplits<T(!new)>(s: seq<T>, p: T -> bool)
    requires PassersFirst(s, p)
    ensures s == Keep(s, p) + Keep(s, Not(p))
  {
    var k := PassingPrefix(s, p);
    var front, back := s[..k], s[k..];
    assert s == front + back;
    if k < |s| {
      FailsAfter(s, p, k);
    }
    forall i | 0 <= i < |back| ensures !p(back[i]) {
      assert back[i] == s[k + i];
    }
    KeepSplitAt(front, back, p);
  }

  /** Once an element fails, every later one fails too. */
  lemma FailsAfter<T(!new)>(s: seq<T>, p: T -> bool, k: nat)
    requires PassersFirst(s, p) && k < |s| && !p(s[k])
    ensures forall j :: k <= j < |s| ==> !p(s[j])
  {
  }

  /** Passers followed by failures: each filter gives back its part. */
  lemma KeepSplitAt<T(!new)>(front: seq<T>, back: seq<T>, p: T -> bool)
    requires forall i :: 0 <= i < |front| ==> p(front[i])
    requires forall i :: 0 <= i < |back| ==> !p(back[i])
    ensures Keep(front + back, p) == front && Keep(front + back, Not(p)) == back
  {
    KeepAppend(front, back, p);
    KeepAppend(front, back, Not(p));
    KeepAll(front, p);
    KeepNone(back, p);
    KeepNone(front, Not(p));
    KeepAll(back, Not(p));
    assert front + [] == front;
    assert [] + back == back;
  }

  /**
   * Passers, then the rest: passers come first, each class keeps its
   * order, and nothing is lost or added.
   */
  lemma PartitionShape<T(!new)>(s: seq<T>, p: T -> bool)
    ensures var r := Keep(s, p) + Keep(s, Not(p));
      && PassersFirst(r, p)
      && Keep(r, p) == Keep(s, p)
      && Keep(r, Not(p)) == Keep(s, Not(p))
      && multiset(r) == multiset(s)
  {
    var a := Keep(s, p);
    var b := Keep(s, Not(p));
    var r := a + b;
    assert forall i :: 0 <= i < |b| ==> !p(b[i]);
    forall k | 0 <= k < |r| ensures p(r[k]) <==> k < |a| {
      if k < |a| {
        assert r[k] == a[k];
      } else {
        assert r[k] == b[k - |a|];
      }
    }
    KeepSplitAt(a, b, p);
    KeepPartition(s, p);
  }
}
