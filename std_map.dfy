/**
 * A `std::map<std::string, double>` as the C++ servers use it: a sequence of
 * (key, value) entries whose keys are strictly ascending in the byte-wise
 * order of `std::string::compare`, so that iterating the map visits keys in
 * ascending order.
 */
module StdMap {
  import opened Wrappers

  type Entry = (string, real)

  /** Values are non-increasing along `v`, as after sorting entries by descending value. */
  predicate ValuesDescending(v: seq<Entry>)
  {
    forall i, j :: 0 <= i < j < |v| ==> v[i].1 >= v[j].1
  }

  /** `std::string` comparison: lexicographic on character codes, a proper prefix first. */
  predicate StrLess(a: string, b: string)
  {
    if a == [] then b != []
    else if b == [] then false
    else a[0] < b[0] || (a[0] == b[0] && StrLess(a[1..], b[1..]))
  }

  lemma {:induction false} StrLessIrreflexive(a: string)
    ensures !StrLess(a, a)
  {
    if a != [] { StrLessIrreflexive(a[1..]); }
  }

  lemma {:induction false} StrLessTransitive(a: string, b: string, c: string)
    requires StrLess(a, b) && StrLess(b, c)
    ensures StrLess(a, c)
  {
    if a != [] && b != [] && c != [] && a[0] == b[0] == c[0] {
      StrLessTransitive(a[1..], b[1..], c[1..]);
    }
  }

  lemma {:induction false} StrLessTotal(a: string, b: string)
    requires a != b
    ensures StrLess(a, b) || StrLess(b, a)
  {
    if a != [] && b != [] && a[0] == b[0] {
      assert a == [a[0]] + a[1..] && b == [b[0]] + b[1..];
      StrLessTotal(a[1..], b[1..]);
    }
  }

  /** The keys are strictly ascending: the shape of a `std::map` in iteration order. */
  predicate Ordered(m: seq<Entry>)
  {
    forall i, j :: 0 <= i < j < |m| ==> StrLess(m[i].0, m[j].0)
  }

  type ScoreMap = m: seq<Entry> | Ordered(m) witness []

  function Keys(m: seq<Entry>): set<string>
  {
    set i | 0 <= i < |m| :: m[i].0
  }

  /** The value stored under `k`; on a sequence with repeated keys, the first one. */
  function Find(m: seq<Entry>, k: string): (r: Option<real>)
    ensures r.Some? <==> k in Keys(m)
  {
    if m == [] then None
    else if m[0].0 == k then Some(m[0].1)
    else
      assert Keys(m) == {m[0].0} + Keys(m[1..]);
      Find(m[1..], k)
  }

  function Apply(o: Option<real>, f: real -> real): Option<real>
  {
    match o
    case None => None
    case Some(v) => Some(f(v))
  }

  /** `std::map::insert`: adds `(k, v)` in key order unless `k` is already present. */
  function Insert(m: seq<Entry>, k: string, v: real): seq<Entry>
  {
    if m == [] then [(k, v)]
    else if m[0].0 == k then m
    else if StrLess(k, m[0].0) then [(k, v)] + m
    else [m[0]] + Insert(m[1..], k, v)
  }

  lemma KeysCons(e: Entry, m: seq<Entry>)
    ensures Keys([e] + m) == {e.0} + Keys(m)
  {
    var r := [e] + m;
    forall x | x in Keys(m) ensures x in Keys(r) {
      var p :| 0 <= p < |m| && m[p].0 == x;
      assert r[p + 1].0 == x;
    }
    assert r[0].0 == e.0;
  }

  lemma {:induction false} InsertKeys(m: seq<Entry>, k: string, v: real)
    ensures Keys(Insert(m, k, v)) == Keys(m) + {k}
  {
    if m == [] {
      KeysCons((k, v), []);
    } else if m[0].0 == k {
      KeysCons(m[0], m[1..]);
      assert m == [m[0]] + m[1..];
    } else if StrLess(k, m[0].0) {
      KeysCons((k, v), m);
    } else {
      InsertKeys(m[1..], k, v);
      KeysCons(m[0], m[1..]);
      assert m == [m[0]] + m[1..];
      KeysCons(m[0], Insert(m[1..], k, v));
    }
  }

  lemma {:induction false} InsertOrdered(m: seq<Entry>, k: string, v: real)
    requires Ordered(m)
    ensures Ordered(Insert(m, k, v))
  {
    if m != [] && m[0].0 != k {
      if StrLess(k, m[0].0) {
        var r := [(k, v)] + m;
        forall i, j | 0 <= i < j < |r| ensures StrLess(r[i].0, r[j].0) {
          if i == 0 && j > 1 { StrLessTransitive(k, m[0].0, m[j - 1].0); }
        }
      } else {
        StrLessTotal(k, m[0].0);
        InsertOrdered(m[1..], k, v);
        InsertKeys(m[1..], k, v);
        var rest := Insert(m[1..], k, v);
        var r := [m[0]] + rest;
        forall i, j | 0 <= i < j < |r| ensures StrLess(r[i].0, r[j].0) {
          if i == 0 {
            assert r[j].0 in Keys(rest);
            var x := r[j].0;
            if x != k {
              assert x in Keys(m[1..]);
              var p :| 0 <= p < |m[1..]| && m[1..][p].0 == x;
              assert m[p + 1].0 == x;
            }
          }
        }
      }
    }
  }

  lemma {:induction false} InsertFind(m: seq<Entry>, k: string, v: real, j: string)
    requires Ordered(m)
    ensures Find(Insert(m, k, v), j) == if j == k && Find(m, k).None? then Some(v) else Find(m, j)
  {
    if m != [] && m[0].0 != k {
      if StrLess(k, m[0].0) {
        if j == k {
          if Find(m, k).Some? {
            var p :| 0 <= p < |m| && m[p].0 == k;
            if p > 0 { StrLessTransitive(k, m[0].0, m[p].0); }
            StrLessIrreflexive(k);
          }
        }
      } else {
        InsertFind(m[1..], k, v, j);
      }
    }
  }

  /** Lookup of the first `n + 1` entries: the first `n`, then entry `n` if its key is new. */
  lemma FindSnoc(s: seq<Entry>, n: nat, k: string)
    requires n < |s|
    ensures Find(s[..n + 1], k) == if Find(s[..n], k).None? && s[n].0 == k then Some(s[n].1) else Find(s[..n], k)
  {
    FindAppend(s[..n], [s[n]], k);
    assert s[..n + 1] == s[..n] + [s[n]];
  }

  lemma {:induction false} FindAppend(a: seq<Entry>, b: seq<Entry>, k: string)
    ensures Find(a + b, k) == if Find(a, k).Some? then Find(a, k) else Find(b, k)
  {
    if a != [] {
      assert (a + b)[1..] == a[1..] + b;
      FindAppend(a[1..], b, k);
    } else {
      assert a + b == b;
    }
  }

  /**
   * The loop `for (elem : output) _return.insert({elem.key, f(elem.value)})`
   * into an initially empty `std::map`: every key of `output` is present once,
   * with `f` applied to its first value, and nothing else.
   */
  method InsertAll(output: seq<Entry>, f: real -> real) returns (m: ScoreMap)
    ensures forall k :: Find(m, k) == Apply(Find(output, k), f)
    ensures Keys(m) == Keys(output)
  {
    m := [];
    var i := 0;
    while i < |output|
      invariant 0 <= i <= |output|
      invariant forall k :: Find(m, k) == Apply(Find(output[..i], k), f)
    {
      var (key, value) := output[i];
      InsertOrdered(m, key, f(value));
      forall k ensures Find(Insert(m, key, f(value)), k) == Apply(Find(output[..i + 1], k), f) {
        InsertFind(m, key, f(value), k);
        FindSnoc(output, i, k);
      }
      m := Insert(m, key, f(value));
      i := i + 1;
    }
    assert output[..i] == output;
    forall k ensures k in Keys(m) <==> k in Keys(output) {
      assert Find(m, k).Some? <==> Find(output, k).Some?;
    }
  }

  /** Replaces every value by `f` of it, keeping the keys and their order (`std::transform` into a map). */
  function MapValues(m: seq<Entry>, f: real -> real): (r: seq<Entry>)
    ensures |r| == |m|
    ensures forall i :: 0 <= i < |m| ==> r[i].0 == m[i].0 && r[i].1 == f(m[i].1)
  {
    seq(|m|, i requires 0 <= i < |m| => (m[i].0, f(m[i].1)))
  }

  lemma {:induction false} MapValuesFind(m: seq<Entry>, f: real -> real, k: string)
    ensures Find(MapValues(m, f), k) == Apply(Find(m, k), f)
  {
    if m != [] {
      assert MapValues(m, f)[1..] == MapValues(m[1..], f);
      MapValuesFind(m[1..], f, k);
    }
  }

  lemma MapValuesKeys(m: seq<Entry>, f: real -> real)
    ensures Keys(MapValues(m, f)) == Keys(m)
    ensures Ordered(m) ==> Ordered(MapValues(m, f))
  {
    forall k ensures k in Keys(MapValues(m, f)) <==> k in Keys(m) {
      MapValuesFind(m, f, k);
    }
  }
}
