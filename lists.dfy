/**
 * The Python list operations the engines rely on, as functions on sequences:
 * `s.index(x)`, `s.remove(x)` (first occurrence), a run of removals, and the
 * slot replacement loops that repoint references.
 */
module Lists {

  /** No value occurs twice. */
  predicate Distinct<T(==)>(s: seq<T>)
  {
    forall i, j :: 0 <= i < j < |s| ==> s[i] != s[j]
  }

  /** Every value below n, stated per position. */
  lemma BelowAt(s: seq<nat>, n: nat)
    requires forall h :: h in s ==> h < n
    ensures forall i :: 0 <= i < |s| ==> s[i] < n
  {
    forall i | 0 <= i < |s|
      ensures s[i] < n
    {
      assert s[i] in s;
    }
  }

  /** A prefix holds no more of any value than the whole list, so it fits wherever the list fits. */
  lemma PrefixMultiset<T>(s: seq<T>, k: nat, m: multiset<T>)
    requires k <= |s| && multiset(s) <= m
    ensures multiset(s[..k]) <= m
  {
    assert s == s[..k] + s[k..];
  }

  /** Python's `s.index(x)`: the first position holding x. */
  function IndexOf<T(==)>(s: seq<T>, x: T): (i: nat)
    requires x in s
    ensures i < |s| && s[i] == x
    ensures forall j :: 0 <= j < i ==> s[j] != x
  {
    if s[0] == x then 0 else 1 + IndexOf(s[1..], x)
  }

  /** Python's `s.remove(x)`: drop the first occurrence of x (the caller guarantees there is one). */
  function RemoveFirst<T(==)>(s: seq<T>, x: T): (r: seq<T>)
    requires x in s
    ensures |r| == |s| - 1
    ensures multiset(r) == multiset(s) - multiset{x}
    ensures forall y :: y in r ==> y in s
  {
    var i := IndexOf(s, x);
    assert s == s[..i] + [x] + s[i + 1..];
    s[..i] + s[i + 1..]
  }

  /** Removing one occurrence keeps the order of everything else, and from a list without repeats it removes x entirely. */
  lemma RemoveFirstKeepsOthers<T>(s: seq<T>, x: T)
    requires x in s
    ensures forall y :: y != x ==> (y in RemoveFirst(s, x) <==> y in s)
    ensures Distinct(s) ==> Distinct(RemoveFirst(s, x)) && x !in RemoveFirst(s, x)
  {
    var r := RemoveFirst(s, x);
    forall y | y != x
      ensures y in r <==> y in s
    {
      assert y in multiset(r) <==> y in multiset(s);
    }
    if Distinct(s) {
      var i := IndexOf(s, x);
      assert r == s[..i] + s[i + 1..];
      forall a, b | 0 <= a < b < |r|
        ensures r[a] != r[b]
      {
        var a', b' := if a < i then a else a + 1, if b < i then b else b + 1;
        assert r[a] == s[a'] && r[b] == s[b'];
      }
    }
  }

  /** `s.remove(x)` called k times, while x still occurs at least that often. */
  function RemoveTimes<T(==)>(s: seq<T>, x: T, k: nat): (r: seq<T>)
    requires multiset(s)[x] >= k
    ensures |r| == |s| - k
    ensures multiset(r) == multiset(s)[x := multiset(s)[x] - k]
  {
    if k == 0 then s
    else
      var t := RemoveTimes(s, x, k - 1);
      assert x in multiset(t);
      RemoveFirst(t, x)
  }

  /** `for x in xs: s.remove(x)`, one removal after another. */
  function RemoveEach<T(==)>(s: seq<T>, xs: seq<T>): (r: seq<T>)
    requires multiset(xs) <= multiset(s)
    ensures multiset(r) == multiset(s) - multiset(xs)
    ensures |r| == |s| - |xs|
    ensures forall y :: y in r ==> y in s
    decreases |xs|
  {
    if xs == [] then s
    else
      var k := |xs| - 1;
      assert xs == xs[..k] + [xs[k]];
      var p := RemoveEach(s, xs[..k]);
      assert xs[k] in multiset(p);
      RemoveFirst(p, xs[k])
  }

  /** The removal loop `for x in xs: s.remove(x)`. */
  method RemoveAll<T(==)>(s: seq<T>, xs: seq<T>) returns (r: seq<T>)
    requires multiset(xs) <= multiset(s)
    ensures r == RemoveEach(s, xs)
  {
    r := s;
    var i := 0;
    assert xs[..0] == [];
    while i < |xs|
      invariant 0 <= i <= |xs|
      invariant multiset(xs[..i]) <= multiset(s)
      invariant r == RemoveEach(s, xs[..i])
    {
      RemoveEachStep(s, xs, i);
      r := RemoveFirst(r, xs[i]);
      i := i + 1;
    }
    assert xs[..i] == xs;
  }

  /** Step i of the removal loop: removing xs[i] from what is left extends the run by one. */
  lemma RemoveEachStep<T>(s: seq<T>, xs: seq<T>, i: nat)
    requires i < |xs| && multiset(xs) <= multiset(s)
    ensures multiset(xs[..i]) <= multiset(s) && multiset(xs[..i + 1]) <= multiset(s)
    ensures xs[i] in RemoveEach(s, xs[..i])
    ensures RemoveEach(s, xs[..i + 1]) == RemoveFirst(RemoveEach(s, xs[..i]), xs[i])
  {
    PrefixMultiset(xs, i, multiset(s));
    PrefixMultiset(xs, i + 1, multiset(s));
    RemoveEachLast(s, xs[..i + 1]);
    assert xs[..i + 1][..i] == xs[..i] && xs[..i + 1][i] == xs[i];
  }

  /** The last removal of a run, with what it needs. */
  lemma RemoveEachLast<T>(s: seq<T>, zs: seq<T>)
    requires zs != [] && multiset(zs) <= multiset(s)
    ensures multiset(zs[..|zs| - 1]) <= multiset(s) && zs[|zs| - 1] in RemoveEach(s, zs[..|zs| - 1])
    ensures RemoveEach(s, zs) == RemoveFirst(RemoveEach(s, zs[..|zs| - 1]), zs[|zs| - 1])
  {
    var k := |zs| - 1;
    assert zs == zs[..k] + [zs[k]];
    assert zs[k] in multiset(RemoveEach(s, zs[..k]));
  }

  /** One more removal at the end. */
  lemma RemoveEachSnoc<T>(s: seq<T>, xs: seq<T>, y: T)
    requires multiset(xs + [y]) <= multiset(s)
    ensures multiset(xs) <= multiset(s) && y in RemoveEach(s, xs)
    ensures RemoveEach(s, xs + [y]) == RemoveFirst(RemoveEach(s, xs), y)
  {
    var zs := xs + [y];
    assert zs[..|zs| - 1] == xs;
    assert multiset(zs) == multiset(xs) + multiset{y};
    assert multiset(RemoveEach(s, xs))[y] == multiset(s)[y] - multiset(xs)[y];
  }

  /** Removing xs and then ys is removing xs + ys. */
  lemma {:induction false} RemoveEachConcat<T>(s: seq<T>, xs: seq<T>, ys: seq<T>)
    requires multiset(xs + ys) <= multiset(s)
    ensures multiset(ys) <= multiset(RemoveEach(s, xs))
    ensures RemoveEach(RemoveEach(s, xs), ys) == RemoveEach(s, xs + ys)
    decreases |ys|
  {
    assert multiset(xs + ys) == multiset(xs) + multiset(ys);
    assert multiset(xs) <= multiset(s);
    if ys != [] {
      var k := |ys| - 1;
      var y := ys[k];
      assert ys == ys[..k] + [y];
      assert xs + ys == (xs + ys[..k]) + [y];
      assert multiset(xs + ys[..k]) <= multiset(s) by {
        assert multiset(xs + ys) == multiset(xs + ys[..k]) + multiset{y};
      }
      RemoveEachConcat(s, xs, ys[..k]);
      RemoveEachSnoc(s, xs + ys[..k], y);
      assert multiset(ys[..k] + [y]) <= multiset(RemoveEach(s, xs));
      RemoveEachSnoc(RemoveEach(s, xs), ys[..k], y);
    } else {
      assert xs + ys == xs;
    }
  }

  /** After the removals none of the removed values is left in a list without repeats. */
  lemma RemoveEachRemoves<T>(s: seq<T>, xs: seq<T>)
    requires multiset(xs) <= multiset(s) && Distinct(s)
    ensures forall y :: y in RemoveEach(s, xs) <==> y in s && y !in xs
  {
    var r := RemoveEach(s, xs);
    DistinctOnce(s);
    forall y
      ensures y in r <==> y in s && y !in xs
    {
      assert y in r <==> multiset(r)[y] > 0;
    }
  }

  /** In a list without repeats every value occurs at most once. */
  lemma {:induction false} DistinctOnce<T>(s: seq<T>)
    requires Distinct(s)
    ensures forall y :: multiset(s)[y] <= 1
  {
    if s != [] {
      assert Distinct(s[1..]);
      DistinctOnce(s[1..]);
      assert s == [s[0]] + s[1..];
      assert s[0] !in s[1..];
    }
  }

  /** Every slot holding `was` now holds `now`; every other slot is unchanged. */
  function Replaced<T(==)>(s: seq<T>, was: T, now: T): (r: seq<T>)
    ensures |r| == |s|
  {
    seq(|s|, i requires 0 <= i < |s| => if s[i] == was then now else s[i])
  }

  /** The repointing loop `for i, v in enumerate(s): if v == was: s[i] = now`. */
  method ReplaceSlots<T(==)>(s: seq<T>, was: T, now: T) returns (r: seq<T>)
    ensures r == Replaced(s, was, now)
    ensures was != now ==> was !in r
  {
    r := s;
    var i := 0;
    while i < |r|
      invariant 0 <= i <= |r| == |s|
      invariant forall j :: 0 <= j < i ==> r[j] == (if s[j] == was then now else s[j])
      invariant forall j :: i <= j < |r| ==> r[j] == s[j]
    {
      if r[i] == was {
        r := r[i := now];
      }
      i := i + 1;
    }
  }

  /** Concatenation of a list of lists. */
  function Flatten<T>(ss: seq<seq<T>>): seq<T>
    decreases |ss|
  {
    if ss == [] then [] else Flatten(ss[..|ss| - 1]) + ss[|ss| - 1]
  }

  /** The first i entries of a list without repeats are the first i - 1 and then entry i - 1, which is not among them. */
  lemma DistinctPrefixStep<T>(s: seq<T>, i: nat)
    requires Distinct(s) && 0 < i <= |s|
    ensures s[..i] == s[..i - 1] + [s[i - 1]] && s[i - 1] !in s[..i - 1]
  {
    assert s[..i] == s[..i - 1] + [s[i - 1]];
    forall j | 0 <= j < i - 1
      ensures s[j] != s[i - 1]
    {
    }
  }

  /** s with x inserted at position p. */
  function Inserted<T>(s: seq<T>, p: nat, x: T): (r: seq<T>)
    requires p <= |s|
    ensures |r| == |s| + 1 && r[p] == x
    ensures forall i :: 0 <= i < p ==> r[i] == s[i]
    ensures forall i :: p < i < |r| ==> r[i] == s[i - 1]
  {
    s[..p] + [x] + s[p..]
  }

  /** An insertion adds exactly one occurrence of x, and keeps a list without repeats so when x is new. */
  lemma InsertedFacts<T>(s: seq<T>, p: nat, x: T)
    requires p <= |s|
    ensures multiset(Inserted(s, p, x)) == multiset(s) + multiset{x}
    ensures forall y :: y in Inserted(s, p, x) <==> y == x || y in s
    ensures Distinct(s) && x !in s ==> Distinct(Inserted(s, p, x))
  {
    var r := Inserted(s, p, x);
    assert s == s[..p] + s[p..];
    assert r == s[..p] + [x] + s[p..];
    assert multiset(r) == multiset(s) + multiset{x};
    forall y
      ensures y in r <==> y == x || y in s
    {
      assert y in r <==> y in multiset(r);
    }
    if Distinct(s) && x !in s {
      InsertedDistinct(s, p, x);
    }
  }

  /** Inserting a new value into a list without repeats gives a list without repeats. */
  lemma InsertedDistinct<T>(s: seq<T>, p: nat, x: T)
    requires p <= |s| && Distinct(s) && x !in s
    ensures Distinct(Inserted(s, p, x))
  {
    var r := Inserted(s, p, x);
    forall i, j | 0 <= i < j < |r|
      ensures r[i] != r[j]
    {
      var i' := if i < p then i else i - 1;
      var j' := if j < p then j else j - 1;
      if i == p {
        assert r[j] == s[j'];
      } else if j == p {
        assert r[i] == s[i'];
      } else {
        assert r[i] == s[i'] && r[j] == s[j'] && i' < j';
      }
    }
  }

  /** s without the entry at position q. */
  function RemovedAt<T>(s: seq<T>, q: nat): (r: seq<T>)
    requires q < |s|
    ensures |r| == |s| - 1
    ensures forall i :: 0 <= i < q ==> r[i] == s[i]
    ensures forall i :: q <= i < |r| ==> r[i] == s[i + 1]
  {
    s[..q] + s[q + 1..]
  }

  /** Removing position q drops one occurrence of s[q]; in a list without repeats, exactly s[q] goes. */
  lemma RemovedAtFacts<T>(s: seq<T>, q: nat)
    requires q < |s|
    ensures multiset(RemovedAt(s, q)) == multiset(s) - multiset{s[q]}
    ensures forall y :: y in s && y != s[q] ==> y in RemovedAt(s, q)
    ensures Distinct(s) ==> Distinct(RemovedAt(s, q)) && s[q] !in RemovedAt(s, q)
  {
    assert s == s[..q] + [s[q]] + s[q + 1..];
    var r := RemovedAt(s, q);
    forall y | y in s && y != s[q]
      ensures y in r
    {
      assert y in multiset(r);
    }
    if Distinct(s) {
      forall i, j | 0 <= i < j < |r|
        ensures r[i] != r[j]
      {
        var i', j' := if i < q then i else i + 1, if j < q then j else j + 1;
        assert r[i] == s[i'] && r[j] == s[j'];
      }
      forall i | 0 <= i < |r|
        ensures r[i] != s[q]
      {
        var i' := if i < q then i else i + 1;
        assert r[i] == s[i'];
      }
    }
  }
}
