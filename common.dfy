/** Shared vocabulary: optional values, duplicate-free sequences and the
    first-seen ordering that the importer's get-or-insert offset tables produce. */
module Common {

  datatype Option<T> = None | Some(value: T)

  ghost predicate Distinct<T>(s: seq<T>) {
    forall i, j :: 0 <= i < j < |s| ==> s[i] != s[j]
  }

  /** The position of the first occurrence of `x` in `s`, or `|s|` when it
      does not occur. */
  function IndexOf<T(==)>(s: seq<T>, x: T): (i: nat)
    ensures i <= |s|
    ensures i < |s| <==> x in s
    ensures i < |s| ==> s[i] == x
    ensures forall j :: 0 <= j < i ==> s[j] != x
  {
    if s == [] then 0 else if s[0] == x then 0 else 1 + IndexOf(s[1..], x)
  }

  /** The distinct elements of `s`, each at the position of its first
      occurrence relative to the others: the keys of a table that hands out
      offsets 0, 1, 2, ... to keys in the order they are first seen. */
  function FirstSeen<T(==)>(s: seq<T>): seq<T> {
    if s == [] then []
    else
      var r0 := FirstSeen(s[..|s| - 1]);
      if s[|s| - 1] in r0 then r0 else r0 + [s[|s| - 1]]
  }

  /** The first-seen order holds each element of `s` exactly once. */
  lemma {:induction false} FirstSeenFacts<T(!new)>(s: seq<T>)
    ensures forall x :: x in FirstSeen(s) <==> x in s
    ensures Distinct(FirstSeen(s))
    ensures |FirstSeen(s)| <= |s|
    decreases |s|
  {
    if s != [] {
      var init := s[..|s| - 1];
      FirstSeenFacts(init);
      assert s == init + [s[|s| - 1]];
    }
  }

  lemma FirstSeenSnoc<T(!new)>(s: seq<T>, x: T)
    ensures FirstSeen(s + [x]) == if x in FirstSeen(s) then FirstSeen(s) else FirstSeen(s) + [x]
  {
    assert (s + [x])[..|s + [x]| - 1] == s;
  }

  /** Seeing more elements never reorders or drops the ones already seen. */
  lemma {:induction false} FirstSeenGrows<T(!new)>(a: seq<T>, b: seq<T>)
    ensures FirstSeen(a) <= FirstSeen(a + b)
    decreases |b|
  {
    if b == [] {
      assert a + b == a;
    } else {
      var b' := b[..|b| - 1];
      FirstSeenGrows(a, b');
      assert a + b == (a + b') + [b[|b| - 1]];
      FirstSeenSnoc(a + b', b[|b| - 1]);
    }
  }

  /** A duplicate-free sequence is its own first-seen order. */
  lemma {:induction false} FirstSeenOfDistinct<T(!new)>(s: seq<T>)
    requires Distinct(s)
    ensures FirstSeen(s) == s
    decreases |s|
  {
    if s != [] {
      var init := s[..|s| - 1];
      FirstSeenOfDistinct(init);
      assert s == init + [s[|s| - 1]];
      FirstSeenSnoc(init, s[|s| - 1]);
    }
  }

  /** Offsets handed out earlier do not move when the table grows. */
  lemma IndexOfStable<T>(p: seq<T>, q: seq<T>, x: T)
    requires p <= q && x in p
    ensures IndexOf(q, x) == IndexOf(p, x)
  {
    var i := IndexOf(p, x);
    assert q[i] == x;
    var k := IndexOf(q, x);
    assert k <= i;
    assert p[k] == q[k];
  }

  /** In a duplicate-free sequence the position of an element is its index. */
  lemma IndexOfDistinct<T>(s: seq<T>, i: nat)
    requires Distinct(s) && i < |s|
    ensures IndexOf(s, s[i]) == i
  {
  }

  lemma TakeAll<T>(s: seq<T>)
    ensures s[..|s|] == s
  {
  }

  lemma SnocPrefix<T>(a: seq<T>, s: seq<T>, i: nat)
    requires i < |s|
    ensures a + s[..i + 1] == (a + s[..i]) + [s[i]]
  {
    assert s[..i + 1] == s[..i] + [s[i]];
  }

  /** `n` copies of `x`. */
  function Repeat<T>(x: T, n: nat): (r: seq<T>)
    ensures |r| == n && forall i :: 0 <= i < n ==> r[i] == x
  {
    if n == 0 then [] else Repeat(x, n - 1) + [x]
  }

  /** The concatenation of a sequence of sequences. */
  function Flatten<T>(xs: seq<seq<T>>): seq<T> {
    if xs == [] then [] else Flatten(xs[..|xs| - 1]) + xs[|xs| - 1]
  }

  lemma FlattenSnoc<T>(xs: seq<seq<T>>, x: seq<T>)
    ensures Flatten(xs + [x]) == Flatten(xs) + x
  {
    assert (xs + [x])[..|xs + [x]| - 1] == xs;
  }

  /** Dropping the last element of a concatenation with a non-empty tail. */
  lemma ConcatInit<T>(a: seq<T>, b: seq<T>)
    requires b != []
    ensures (a + b)[..|a + b| - 1] == a + b[..|b| - 1]
    ensures (a + b)[|a + b| - 1] == b[|b| - 1]
  {
  }

  lemma {:induction false} FlattenConcat<T>(a: seq<seq<T>>, b: seq<seq<T>>)
    ensures Flatten(a + b) == Flatten(a) + Flatten(b)
    decreases |b|
  {
    if b == [] {
      assert a + b == a;
    } else {
      var b' := b[..|b| - 1];
      FlattenConcat(a, b');
      ConcatInit(a, b);
      assert Flatten(a + b) == Flatten(a + b') + b[|b| - 1];
      assert Flatten(b) == Flatten(b') + b[|b| - 1];
    }
  }

  /** Flattening triples puts element `j` of triple `k` at position `3k + j`. */
  lemma {:induction false} FlattenTriples<T>(xs: seq<seq<T>>, k: nat, j: nat)
    requires forall i :: 0 <= i < |xs| ==> |xs[i]| == 3
    requires k < |xs| && j < 3
    ensures |Flatten(xs)| == 3 * |xs|
    ensures Flatten(xs)[3 * k + j] == xs[k][j]
    decreases |xs|
  {
    var n := |xs| - 1;
    FlattenTriplesLength(xs[..n]);
    if k < n {
      FlattenTriples(xs[..n], k, j);
    }
  }

  lemma {:induction false} FlattenTriplesLength<T>(xs: seq<seq<T>>)
    requires forall i :: 0 <= i < |xs| ==> |xs[i]| == 3
    ensures |Flatten(xs)| == 3 * |xs|
    decreases |xs|
  {
    if xs != [] {
      FlattenTriplesLength(xs[..|xs| - 1]);
    }
  }
}
