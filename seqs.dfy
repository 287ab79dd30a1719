/** Element-wise mapping of sequences, and the fact that it maps permutations to permutations. */
module Seqs {

  function MapSeq<A, B>(s: seq<A>, f: A -> B): (r: seq<B>)
    ensures |r| == |s|
  {
    if s == [] then [] else [f(s[0])] + MapSeq(s[1..], f)
  }

  lemma {:induction false} MapAt<A, B>(s: seq<A>, f: A -> B, i: nat)
    requires i < |s|
    ensures MapSeq(s, f)[i] == f(s[i])
  {
    if i > 0 { MapAt(s[1..], f, i - 1); }
  }

  lemma {:induction false} MapAppend<A, B>(u: seq<A>, v: seq<A>, f: A -> B)
    ensures MapSeq(u + v, f) == MapSeq(u, f) + MapSeq(v, f)
  {
    if u != [] {
      assert (u + v)[1..] == u[1..] + v;
      MapAppend(u[1..], v, f);
    } else {
      assert u + v == v;
    }
  }

  lemma MapCons<A, B>(x: A, s: seq<A>, f: A -> B)
    ensures MapSeq([x] + s, f) == [f(x)] + MapSeq(s, f)
  {
    assert ([x] + s)[1..] == s;
  }

  lemma MultisetMiddle<B>(l: seq<B>, y: B, r: seq<B>)
    ensures multiset(l + [y] + r) == multiset(l + r) + multiset{y}
  {
  }

  /** Taking the old part and the last element back out of `p + [c]`. */
  lemma Snoc<A>(p: seq<A>, c: A)
    ensures |p + [c]| == |p| + 1 && (p + [c])[..|p|] == p && (p + [c])[|p|] == c
  {
  }

  lemma TakeSnoc<A>(s: seq<A>, lo: nat, i: nat)
    requires lo <= i < |s|
    ensures s[lo..i + 1] == s[lo..i] + [s[i]]
    ensures s[..i + 1] == s[..i] + [s[i]]
  {
  }

  lemma LastSplit<A>(x: seq<A>, b: seq<A>)
    requires b != []
    ensures x + b == (x + b[..|b| - 1]) + [b[|b| - 1]]
  {
    assert b == b[..|b| - 1] + [b[|b| - 1]];
  }

  lemma Assoc<A>(x: seq<A>, y: seq<A>, z: seq<A>)
    ensures (x + y) + z == x + (y + z)
  {
  }

  lemma AppendEmpty<A>(x: seq<A>)
    ensures x + [] == x
  {
  }

  lemma ConsRest<A>(a: seq<A>)
    requires a != []
    ensures a == [a[0]] + a[1..]
  {
  }

  lemma Cancel<A>(m: multiset<A>, n: multiset<A>, x: A)
    requires m + multiset{x} == n + multiset{x}
    ensures m == n
  {
    assert m == (m + multiset{x}) - multiset{x};
    assert n == (n + multiset{x}) - multiset{x};
  }

  /** Taking out the element at `j` of one side of a permutation, and the first of the other. */
  lemma PermutationRemove<A>(a: seq<A>, b: seq<A>, j: nat)
    requires multiset(a) == multiset(b) && a != [] && j < |b| && b[j] == a[0]
    ensures multiset(a[1..]) == multiset(b[..j] + b[j + 1..])
  {
    var x, left, right := a[0], b[..j], b[j + 1..];
    Cut(b, j);
    Regroup(left, x, right);
    MultisetMiddle(left, x, right);
    ConsRest(a);
    assert multiset(a) == multiset(a[1..]) + multiset{x};
    Cancel(multiset(a[1..]), multiset(left + right), x);
  }

  lemma Cut<A>(b: seq<A>, j: nat)
    requires j < |b|
    ensures b == b[..j] + ([b[j]] + b[j + 1..])
  {
    assert b[j..] == [b[j]] + b[j + 1..];
    assert b == b[..j] + b[j..];
  }

  lemma Regroup<B>(l: seq<B>, y: B, r: seq<B>)
    ensures l + ([y] + r) == l + [y] + r
  {
  }

  /** Mapping a sequence cut at `j` maps each side and the element at `j`. */
  lemma MapSplit<A, B>(b: seq<A>, j: nat, f: A -> B)
    requires j < |b|
    ensures MapSeq(b, f) == MapSeq(b[..j], f) + [f(b[j])] + MapSeq(b[j + 1..], f)
  {
    var x, left, right := b[j], b[..j], b[j + 1..];
    Cut(b, j);
    MapAppend(left, [x] + right, f);
    MapCons(x, right, f);
    Regroup(MapSeq(left, f), f(x), MapSeq(right, f));
  }

  lemma MapRemove<A, B>(b: seq<A>, j: nat, f: A -> B)
    requires j < |b|
    ensures multiset(MapSeq(b, f)) == multiset(MapSeq(b[..j] + b[j + 1..], f)) + multiset{f(b[j])}
  {
    MapSplit(b, j, f);
    MapAppend(b[..j], b[j + 1..], f);
    MultisetMiddle(MapSeq(b[..j], f), f(b[j]), MapSeq(b[j + 1..], f));
  }

  lemma {:induction false} MapPermutation<A, B>(a: seq<A>, b: seq<A>, f: A -> B)
    requires multiset(a) == multiset(b)
    ensures multiset(MapSeq(a, f)) == multiset(MapSeq(b, f))
    decreases |a|
  {
    if a == [] {
      assert |multiset(b)| == 0;
    } else {
      assert a[0] in multiset(b);
      var j :| 0 <= j < |b| && b[j] == a[0];
      PermutationRemove(a, b, j);
      MapPermutation(a[1..], b[..j] + b[j + 1..], f);
      MapRemove(b, j, f);
      ConsRest(a);
      MapCons(a[0], a[1..], f);
    }
  }
}
