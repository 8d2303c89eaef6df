/** Code-point ordering of strings and duplicate-free sorting.

    Python's `sorted(set(xs))` and Rust's `BTreeSet<String>` both order strings by
    code point, so both are `SortedSet` of the elements. */
module Text {

  predicate Less(a: string, b: string) {
    b != [] && (a == [] || a[0] < b[0] || (a[0] == b[0] && Less(a[1..], b[1..])))
  }

  /** The two agree up to position `k`, where `a` has the smaller code point. */
  predicate SmallerAt(a: string, b: string, k: int) {
    0 <= k < |a| && k < |b| && a[..k] == b[..k] && a[k] < b[k]
  }

  lemma SmallerLater(a: string, b: string, k: int)
    requires a != [] && b != [] && a[0] == b[0] && k > 0
    ensures SmallerAt(a, b, k) <==> SmallerAt(a[1..], b[1..], k - 1)
  {
    if k <= |a| && k <= |b| {
      assert a[..k] == [a[0]] + a[1..][..k - 1] && b[..k] == [b[0]] + b[1..][..k - 1];
      assert a[1..][..k - 1] == a[..k][1..] && b[1..][..k - 1] == b[..k][1..];
    }
  }

  lemma PrefixLater(a: string, b: string)
    requires a != [] && b != [] && a[0] == b[0]
    ensures a <= b <==> a[1..] <= b[1..]
  {
    assert a == [a[0]] + a[1..] && b == [b[0]] + b[1..];
  }

  /** Code-point order, outright: a proper prefix, or smaller at the first difference. */
  lemma {:induction false} LessIsCodePointOrder(a: string, b: string)
    ensures Less(a, b) <==> a < b || exists k :: SmallerAt(a, b, k)
  {
    if a != [] && b != [] && a[0] == b[0] {
      LessIsCodePointOrder(a[1..], b[1..]);
      PrefixLater(a, b);
      if exists k :: SmallerAt(a[1..], b[1..], k) {
        var k :| SmallerAt(a[1..], b[1..], k);
        SmallerLater(a, b, k + 1);
      }
      if exists k :: SmallerAt(a, b, k) {
        var k :| SmallerAt(a, b, k);
        SmallerLater(a, b, k);
      }
    } else if a != [] && b != [] {
      assert a[..0] == b[..0];
      assert a[0] < b[0] ==> SmallerAt(a, b, 0);
      assert forall k :: 0 < k <= |a| && k <= |b| ==> a[..k][0] != b[..k][0];
    }
  }

  lemma {:induction false} LessTotal(a: string, b: string)
    ensures Less(a, b) || a == b || Less(b, a)
  {
    if a != [] && b != [] && a[0] == b[0] {
      LessTotal(a[1..], b[1..]);
      assert a == [a[0]] + a[1..] && b == [b[0]] + b[1..];
    }
  }

  lemma {:induction false} LessTransitive(a: string, b: string, c: string)
    requires Less(a, b) && Less(b, c)
    ensures Less(a, c)
  {
    if a != [] && a[0] == b[0] == c[0] {
      LessTransitive(a[1..], b[1..], c[1..]);
    }
  }

  lemma {:induction false} LessIrreflexive(a: string)
    ensures !Less(a, a)
  {
    if a != [] {
      LessIrreflexive(a[1..]);
    }
  }

  predicate Ascending(xs: seq<string>) {
    forall i, j :: 0 <= i < j < |xs| ==> Less(xs[i], xs[j])
  }

  function Elements(xs: seq<string>): set<string> {
    set x | x in xs
  }

  lemma SmallerSet(now: set<string>, before: set<string>, x: string)
    requires now <= before - {x} && x in before
    ensures |now| < |before|
  {
    assert before == now + (before - now);
    assert x in before - now;
  }

  /** Insertion into an ascending sequence; an element already there is not repeated. */
  function Insert(x: string, xs: seq<string>): (r: seq<string>)
    requires Ascending(xs)
    ensures Ascending(r)
    ensures forall y :: y in r <==> y == x || y in xs
  {
    if xs == [] then [x]
    else if x == xs[0] then xs
    else if Less(x, xs[0]) then
      assert forall i :: 0 <= i < |xs| ==> Less(x, xs[i]) by {
        forall i | 0 < i < |xs| ensures Less(x, xs[i]) { LessTransitive(x, xs[0], xs[i]); }
      }
      [x] + xs
    else
      LessTotal(x, xs[0]);
      var rest := Insert(x, xs[1..]);
      assert forall y :: y in xs <==> y == xs[0] || y in xs[1..];
      assert forall y :: y in rest ==> Less(xs[0], y);
      [xs[0]] + rest
  }

  function SortedUnique(xs: seq<string>): (r: seq<string>)
    ensures Ascending(r)
    ensures forall y :: y in r <==> y in xs
  {
    if xs == [] then [] else Insert(xs[0], SortedUnique(xs[1..]))
  }

  /** The one ascending sequence with exactly the elements of `s`. */
  ghost function SortedSet(s: set<string>): (r: seq<string>)
    ensures Ascending(r)
    ensures forall y :: y in r <==> y in s
  {
    if s == {} then [] else
    var x :| x in s;
    Insert(x, SortedSet(s - {x}))
  }

  lemma AscendingHeadsAgree(xs: seq<string>, ys: seq<string>)
    requires Ascending(xs) && Ascending(ys) && xs != [] && ys != []
    requires forall x :: x in xs <==> x in ys
    ensures xs[0] == ys[0]
  {
    assert xs[0] in ys && ys[0] in xs;
    if xs[0] != ys[0] {
      LessTransitive(xs[0], ys[0], xs[0]);
      LessIrreflexive(xs[0]);
    }
  }

  lemma HasElement(xs: seq<string>)
    ensures xs != [] ==> exists x :: x in xs
  {
    if xs != [] { assert xs[0] in xs; }
  }

  /** An ascending sequence is determined by its elements. */
  lemma {:induction false} AscendingUnique(xs: seq<string>, ys: seq<string>)
    requires Ascending(xs) && Ascending(ys)
    requires forall x :: x in xs <==> x in ys
    ensures xs == ys
  {
    if xs == [] {
      HasElement(ys);
    } else {
      assert xs[0] in ys;
      AscendingHeadsAgree(xs, ys);
      forall x ensures x in xs[1..] <==> x in ys[1..] {
        LessIrreflexive(xs[0]);
        assert x in xs <==> x == xs[0] || x in xs[1..];
        assert x in ys <==> x == ys[0] || x in ys[1..];
      }
      AscendingUnique(xs[1..], ys[1..]);
    }
  }

  /** Sorting a sequence depends only on which elements it has. */
  lemma SortedUniqueIsSortedSet(xs: seq<string>, s: set<string>)
    requires forall x :: x in s <==> x in xs
    ensures SortedUnique(xs) == SortedSet(s)
  {
    AscendingUnique(SortedUnique(xs), SortedSet(s));
  }

  lemma AscendingDistinct(xs: seq<string>, i: int, j: int)
    requires Ascending(xs) && 0 <= i < j < |xs|
    ensures xs[i] != xs[j]
  {
    LessIrreflexive(xs[i]);
  }
}
