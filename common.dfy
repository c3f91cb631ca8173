/** Small helpers shared by the engine: an optional value (JavaScript's
    `undefined`/`null` versus a present value) and the `filter` by identity
    that the engine uses to drop a callback, a subscriber or a query. */
module Common {

  datatype Option<+T> = None | Some(value: T)

  /** `xs.filter((d) => d !== x)`: every occurrence of `x` is dropped and the
      other elements keep their order (see RemoveKeepsOthers, RemoveAppend and
      RemoveAbsent). */
  function Remove<T(==)>(xs: seq<T>, x: T): (r: seq<T>)
    ensures x !in r
    ensures forall i :: 0 <= i < |r| ==> r[i] in xs
    ensures multiset(r) == multiset(xs)[x := 0]
  {
    if xs == [] then []
    else
      assert xs == [xs[0]] + xs[1..];
      if xs[0] == x then Remove(xs[1..], x) else [xs[0]] + Remove(xs[1..], x)
  }

  /** Every element other than `x` survives, so exactly the occurrences of
      `x` are lost. */
  lemma {:induction false} RemoveKeepsOthers<T>(xs: seq<T>, x: T)
    ensures forall i :: 0 <= i < |xs| && xs[i] != x ==> xs[i] in Remove(xs, x)
    ensures |Remove(xs, x)| == |xs| - multiset(xs)[x]
  {
    if xs != [] {
      RemoveKeepsOthers(xs[1..], x);
      assert xs == [xs[0]] + xs[1..];
      assert forall i :: 0 < i < |xs| ==> xs[i] == xs[1..][i - 1];
    }
  }

  /** Filtering a concatenation filters each part: together with RemoveAbsent
      this pins down that the survivors stay in their original order. */
  lemma {:induction false} RemoveAppend<T>(a: seq<T>, b: seq<T>, x: T)
    ensures Remove(a + b, x) == Remove(a, x) + Remove(b, x)
  {
    if a == [] {
      assert a + b == b;
    } else {
      var ab := a + b;
      assert ab[0] == a[0] && ab[1..] == a[1..] + b;
      RemoveAppend(a[1..], b, x);
      if a[0] != x {
        var h, t, u := [a[0]], Remove(a[1..], x), Remove(b, x);
        assert Remove(ab, x) == h + (t + u);
        assert h + (t + u) == (h + t) + u;
      }
    }
  }

  /** Filtering out an element that is not there changes nothing. */
  lemma {:induction false} RemoveAbsent<T>(xs: seq<T>, x: T)
    requires x !in xs
    ensures Remove(xs, x) == xs
  {
    if xs != [] {
      assert xs == [xs[0]] + xs[1..];
      RemoveAbsent(xs[1..], x);
    }
  }
}
