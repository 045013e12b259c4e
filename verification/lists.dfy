/** The order-keeping filter behind `List.RemoveAll` and the backward `RemoveAt` loops, and a fact about appending. */
module Lists {
  /** The elements of s that satisfy p, in their original order. */
  function Filter<T>(s: seq<T>, p: T -> bool): (r: seq<T>)
    ensures |r| <= |s|
  {
    if s == [] then [] else (if p(s[0]) then [s[0]] else []) + Filter(s[1..], p)
  }

  /** An element is kept exactly when it is in the input and satisfies the predicate. */
  lemma {:induction false} FilterMembers<T>(s: seq<T>, p: T -> bool)
    ensures forall x :: x in Filter(s, p) <==> x in s && p(x)
  {
    if s != [] {
      FilterMembers(s[1..], p);
      assert s == [s[0]] + s[1..];
    }
  }

  /** Filtering splits over concatenation. */
  lemma {:induction false} FilterAppend<T>(a: seq<T>, b: seq<T>, p: T -> bool)
    ensures Filter(a + b, p) == Filter(a, p) + Filter(b, p)
  {
    if a != [] {
      assert (a + b)[1..] == a[1..] + b;
      FilterAppend(a[1..], b, p);
    } else {
      assert a + b == b;
    }
  }

  /**
   * The step of a backward removal loop: with s[..i + 1] untouched and the rest filtered,
   * removing s[i] when it fails p leaves s[..i] untouched and the rest filtered.
   */
  lemma FilterStep<T>(s: seq<T>, i: nat, p: T -> bool)
    requires i < |s|
    ensures Filter(s[i..], p) == (if p(s[i]) then [s[i]] else []) + Filter(s[i + 1..], p)
  {
    assert s[i..][1..] == s[i + 1..];
  }

  /**
   * The loop `for (i = n - 1; i >= 0; i--) if (!p(s[i])) s.RemoveAt(i);` leaves exactly the
   * elements that satisfy p, in order.
   */
  method RemoveFailing<T>(s: seq<T>, p: T -> bool) returns (r: seq<T>)
    ensures r == Filter(s, p)
  {
    r := s;
    var i := |s|;
    while i > 0
      invariant 0 <= i <= |s|
      invariant r == s[..i] + Filter(s[i..], p)
    {
      i := i - 1;
      FilterStep(s, i, p);
      assert r[i] == s[i];
      if !p(r[i]) {
        assert r[..i] == s[..i];
        r := r[..i] + r[i + 1..];
      } else {
        assert s[..i + 1] == s[..i] + [s[i]];
      }
    }
  }

  /** Appending is associative. */
  lemma AppendAssoc<T>(a: seq<T>, b: seq<T>, c: seq<T>)
    ensures (a + b) + c == a + (b + c)
  {
  }
}
