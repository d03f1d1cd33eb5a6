/** Sequences of sequences, and sequences with elements left out. */
module Lists {

  function Flatten<T>(ss: seq<seq<T>>): seq<T> {
    if ss == [] then [] else Flatten(ss[..|ss| - 1]) + ss[|ss| - 1]
  }

  lemma FlattenSnoc<T>(ss: seq<seq<T>>, s: seq<T>)
    ensures Flatten(ss + [s]) == Flatten(ss) + s
  {
    assert (ss + [s])[..|ss|] == ss;
  }

  lemma Associates<T>(a: seq<T>, b: seq<T>, c: seq<T>)
    ensures a + b + c == a + (b + c)
  {
  }

  lemma {:induction false} FlattenCons<T>(s: seq<T>, ss: seq<seq<T>>)
    ensures Flatten([s] + ss) == s + Flatten(ss)
  {
    if ss == [] {
      assert [s] + ss == [] + [s];
      FlattenSnoc([], s);
    } else {
      var front, last := ss[..|ss| - 1], ss[|ss| - 1];
      FlattenCons(s, front);
      assert [s] + ss == ([s] + front) + [last];
      FlattenSnoc([s] + front, last);
      Associates(s, Flatten(front), last);
    }
  }

  lemma {:induction false} FlattenPrefix<T>(ss: seq<seq<T>>, n: nat)
    requires n <= |ss|
    ensures Flatten(ss[..n]) <= Flatten(ss)
  {
    if n == |ss| {
      assert ss[..n] == ss;
    } else {
      var front := ss[..|ss| - 1];
      FlattenPrefix(front, n);
      assert front[..n] == ss[..n];
    }
  }

  lemma DropSnoc<T>(s: seq<T>, x: T, n: nat)
    requires n <= |s|
    ensures (s + [x])[n..] == s[n..] + [x]
  {
  }

  /** a is b with some elements left out. */
  predicate Subsequence<T(==)>(a: seq<T>, b: seq<T>) {
    a == []
    || (b != []
        && (Subsequence(a, b[..|b| - 1])
            || (a[|a| - 1] == b[|b| - 1] && Subsequence(a[..|a| - 1], b[..|b| - 1]))))
  }

  lemma {:induction false} SubsequenceTake<T>(a: seq<T>, b: seq<T>, n: nat)
    requires Subsequence(a, b) && n <= |a|
    ensures Subsequence(a[..n], b)
    decreases |b|
  {
    if n == |a| {
      assert a[..n] == a;
    } else if Subsequence(a, b[..|b| - 1]) {
      SubsequenceTake(a, b[..|b| - 1], n);
    } else {
      SubsequenceTake(a[..|a| - 1], b[..|b| - 1], n);
      assert a[..|a| - 1][..n] == a[..n];
    }
  }

  /** One more element, kept or left out. */
  lemma SubsequenceSnoc<T>(a: seq<T>, b: seq<T>, x: T)
    requires Subsequence(a, b)
    ensures Subsequence(a + [x], b + [x]) && Subsequence(a, b + [x])
  {
    assert (a + [x])[..|a|] == a && (b + [x])[..|b|] == b;
  }
}
