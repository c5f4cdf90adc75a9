/** Array operations the controllers use on lists of names and rows:
  * `filter`, `[...new Set(xs)]` and `join`. */
module Lists {
  import opened Wrappers

  /** `xs.filter(keep)`. */
  function Select<T>(xs: seq<T>, keep: T -> bool): (r: seq<T>)
    ensures |r| <= |xs|
    ensures forall x :: x in r ==> x in xs && keep(x)
    ensures forall x :: x in xs && keep(x) ==> x in r
    ensures r == [] <==> forall i :: 0 <= i < |xs| ==> !keep(xs[i])
  {
    if xs == [] then []
    else (if keep(xs[0]) then [xs[0]] else []) + Select(xs[1..], keep)
  }

  /** A non-empty list is its front followed by its last element. */
  lemma InitLast<T>(xs: seq<T>)
    requires xs != []
    ensures xs[..|xs| - 1] + [xs[|xs| - 1]] == xs
  {
  }

  /** What follows a prefix ending in `e` starts with `e`. */
  lemma DropPrefixCons<T>(a: seq<T>, e: T, b: seq<T>)
    requires a + [e] <= b
    ensures b[|a|..] == [e] + b[|a| + 1..]
  {
  }

  /** A list that starts with `a` agrees with `a` on `a`'s positions. */
  lemma PrefixAt<T>(a: seq<T>, b: seq<T>, i: nat)
    requires |a| <= |b| && b[..|a|] == a && i < |a|
    ensures b[i] == a[i]
  {
    assert b[..|a|][i] == b[i];
  }

  /** Starting with a list that starts with `a` is starting with `a`. */
  lemma PrefixTrans<T>(a: seq<T>, b: seq<T>, c: seq<T>)
    requires |a| <= |b| && b[..|a|] == a && |b| <= |c| && c[..|b|] == b
    ensures c[..|a|] == a
  {
    assert c[..|b|][..|a|] == c[..|a|];
  }

  /** Concatenation is associative. */
  lemma ConcatAssoc<T>(a: seq<T>, b: seq<T>, c: seq<T>)
    ensures a + (b + c) == (a + b) + c
  {
  }

  /** Filtering distributes over concatenation. */
  lemma {:induction false} SelectAppend<T>(xs: seq<T>, ys: seq<T>, keep: T -> bool)
    ensures Select(xs + ys, keep) == Select(xs, keep) + Select(ys, keep)
  {
    if xs == [] {
      assert xs + ys == ys;
    } else {
      var zs := xs + ys;
      assert zs[0] == xs[0] && zs[1..] == xs[1..] + ys;
      SelectAppend(xs[1..], ys, keep);
      ConcatAssoc(if keep(xs[0]) then [xs[0]] else [], Select(xs[1..], keep), Select(ys, keep));
    }
  }

  /** When only the last element is kept, the filter gives it alone. */
  lemma SelectLast<T>(xs: seq<T>, x: T, keep: T -> bool)
    requires forall i :: 0 <= i < |xs| ==> !keep(xs[i])
    requires keep(x)
    ensures Select(xs + [x], keep) == [x]
  {
    SelectAppend(xs, [x], keep);
    assert Select([x], keep) == [x] + Select([x][1..], keep);
  }

  /** Filtering with two tests that agree on every element gives the same
    * list. */
  lemma {:induction false} SelectCongruent<T>(xs: seq<T>, p: T -> bool, q: T -> bool)
    requires forall i :: 0 <= i < |xs| ==> p(xs[i]) == q(xs[i])
    ensures Select(xs, p) == Select(xs, q)
  {
    if xs != [] {
      assert forall i :: 0 <= i < |xs[1..]| ==> xs[1..][i] == xs[i + 1];
      SelectCongruent(xs[1..], p, q);
    }
  }

  /** Filtering twice is filtering once with a test that passes exactly the
    * elements passing both. */
  lemma {:induction false} SelectSelect<T>(xs: seq<T>, p: T -> bool, q: T -> bool, both: T -> bool)
    requires forall i :: 0 <= i < |xs| ==> both(xs[i]) == (p(xs[i]) && q(xs[i]))
    ensures Select(Select(xs, p), q) == Select(xs, both)
  {
    if xs != [] {
      var head := if p(xs[0]) then [xs[0]] else [];
      SelectAppend(head, Select(xs[1..], p), q);
      if p(xs[0]) {
        assert Select(head, q) == (if q(xs[0]) then [xs[0]] else []) + Select([], q);
      }
      assert forall i :: 0 <= i < |xs[1..]| ==> xs[1..][i] == xs[i + 1];
      SelectSelect(xs[1..], p, q, both);
    }
  }

  /** `xs.find(keep)`: the first kept element, if any. */
  function Find<T>(xs: seq<T>, keep: T -> bool): (r: Option<T>)
    ensures r.None? <==> forall i :: 0 <= i < |xs| ==> !keep(xs[i])
    ensures r.Some? ==> r.value in xs && keep(r.value)
  {
    if xs == [] then None
    else if keep(xs[0]) then Some(xs[0])
    else Find(xs[1..], keep)
  }

  /** The element found is the first one kept. */
  lemma {:induction false} FindFirst<T>(xs: seq<T>, keep: T -> bool, i: int)
    requires 0 <= i < |xs| && keep(xs[i])
    requires forall j :: 0 <= j < i ==> !keep(xs[j])
    ensures Find(xs, keep) == Some(xs[i])
  {
    if i > 0 {
      assert forall j :: 0 <= j < i - 1 ==> xs[1..][j] == xs[j + 1];
      FindFirst(xs[1..], keep, i - 1);
    }
  }

  /** `(xs + ys).find(keep)` is found in `ys` when `xs` has nothing kept. */
  lemma {:induction false} FindAppend<T>(xs: seq<T>, ys: seq<T>, keep: T -> bool)
    requires forall i :: 0 <= i < |xs| ==> !keep(xs[i])
    ensures Find(xs + ys, keep) == Find(ys, keep)
  {
    if xs != [] {
      var zs := xs + ys;
      assert zs[0] == xs[0] && zs[1..] == xs[1..] + ys;
      FindAppend(xs[1..], ys, keep);
    } else {
      assert xs + ys == ys;
    }
  }

  /** An element that is not kept, appended at the end, changes nothing
    * `find` returns. */
  lemma {:induction false} FindSkipLast<T>(xs: seq<T>, y: T, keep: T -> bool)
    requires !keep(y)
    ensures Find(xs + [y], keep) == Find(xs, keep)
  {
    if xs == [] {
      assert xs + [y] == [y];
    } else {
      var zs := xs + [y];
      assert zs[0] == xs[0] && zs[1..] == xs[1..] + [y];
      FindSkipLast(xs[1..], y, keep);
    }
  }

  /** Searching a filtered list for elements the filter keeps anyway is
    * searching the whole list. */
  lemma {:induction false} FindOfSelect<T>(xs: seq<T>, p: T -> bool, q: T -> bool)
    requires forall i :: 0 <= i < |xs| && q(xs[i]) ==> p(xs[i])
    ensures Find(Select(xs, p), q) == Find(xs, q)
  {
    if xs != [] {
      var tail := xs[1..];
      assert forall i :: 0 <= i < |tail| ==> tail[i] == xs[i + 1];
      FindOfSelect(tail, p, q);
      var rest := Select(tail, p);
      if p(xs[0]) {
        var r := [xs[0]] + rest;
        assert Select(xs, p) == r;
        assert r[0] == xs[0] && r[1..] == rest;
        assert Find(r, q) == if q(xs[0]) then Some(xs[0]) else Find(rest, q);
      } else {
        assert !q(xs[0]);
        assert Select(xs, p) == rest;
      }
    }
  }

  /** Filtering keeps the length exactly when it drops nothing. */
  lemma {:induction false} SelectKeepsLength<T>(xs: seq<T>, keep: T -> bool)
    ensures |Select(xs, keep)| == |xs| <==> forall i :: 0 <= i < |xs| ==> keep(xs[i])
  {
    if xs != [] {
      var tail := xs[1..];
      assert forall i :: 0 <= i < |tail| ==> tail[i] == xs[i + 1];
      SelectKeepsLength(tail, keep);
      if !keep(xs[0]) {
        assert Select(xs, keep) == Select(tail, keep);
      }
    }
  }

  /** Filtering keeps a list whose elements all pass. */
  lemma {:induction false} SelectAll<T>(xs: seq<T>, keep: T -> bool)
    requires forall i :: 0 <= i < |xs| ==> keep(xs[i])
    ensures Select(xs, keep) == xs
  {
    if xs != [] {
      assert forall i :: 0 <= i < |xs[1..]| ==> xs[1..][i] == xs[i + 1];
      SelectAll(xs[1..], keep);
    }
  }

  /** Some element is kept first. */
  lemma {:induction false} FirstKeptExists<T>(xs: seq<T>, keep: T -> bool)
    requires Find(xs, keep).Some?
    ensures exists i :: 0 <= i < |xs| && keep(xs[i]) && forall j :: 0 <= j < i ==> !keep(xs[j])
  {
    if !keep(xs[0]) {
      FirstKeptExists(xs[1..], keep);
      var i :| 0 <= i < |xs[1..]| && keep(xs[1..][i]) && forall j :: 0 <= j < i ==> !keep(xs[1..][j]);
      assert keep(xs[i + 1]);
      forall j | 0 <= j < i + 1 ensures !keep(xs[j]) {
        if j > 0 { assert xs[j] == xs[1..][j - 1]; }
      }
    }
  }

  /** No two elements share a key. */
  predicate Distinct<T, K(==)>(xs: seq<T>, key: T -> K)
  {
    forall i, j :: 0 <= i < j < |xs| ==> key(xs[i]) != key(xs[j])
  }

  /** Filtering keeps distinct keys distinct. */
  lemma {:induction false} SelectKeepsDistinct<T, K>(xs: seq<T>, key: T -> K, keep: T -> bool)
    requires Distinct(xs, key)
    ensures Distinct(Select(xs, keep), key)
  {
    if xs != [] {
      var tail := xs[1..];
      assert forall i :: 0 <= i < |tail| ==> tail[i] == xs[i + 1];
      SelectKeepsDistinct(tail, key, keep);
      var rest := Select(tail, keep);
      var ys := Select(xs, keep);
      if !keep(xs[0]) {
        assert ys == rest;
      } else {
        assert ys == [xs[0]] + rest;
        forall i, j | 0 <= i < j < |ys| ensures key(ys[i]) != key(ys[j]) {
          var y := ys[j];
          assert y == rest[j - 1];
          if i == 0 {
            assert y in rest;
            var k :| 0 <= k < |tail| && tail[k] == y;
            assert key(xs[0]) != key(xs[k + 1]);
          } else {
            assert ys[i] == rest[i - 1];
          }
        }
      }
    }
  }

  /** No element occurs twice. */
  predicate NoRepeats<T(==)>(xs: seq<T>)
  {
    forall i, j :: 0 <= i < j < |xs| ==> xs[i] != xs[j]
  }

  /** `[...new Set(xs)]`: each element once, at the place it first occurs. */
  function Dedup<T(==)>(xs: seq<T>): (r: seq<T>)
    ensures NoRepeats(r)
    ensures forall x :: x in r ==> x in xs
    ensures forall x :: x in xs ==> x in r
    ensures |r| <= |xs|
    ensures NoRepeats(xs) ==> r == xs
  {
    if xs == [] then []
    else
      var init := xs[..|xs| - 1];
      var rest := Dedup(init);
      var x := xs[|xs| - 1];
      assert xs == init + [x];
      if x in rest then rest else rest + [x]
  }

  /** Appending an element already present leaves the deduplicated list as
    * it was: later repeats never move or add anything. */
  lemma DedupRepeat<T>(xs: seq<T>, x: T)
    requires x in xs
    ensures Dedup(xs + [x]) == Dedup(xs)
  {
    assert (xs + [x])[..|xs|] == xs;
  }

  /** An element given twice is kept once. */
  lemma DedupTwice<T>(x: T)
    ensures Dedup([x, x]) == [x]
  {
    assert [x, x][..1] == [x];
    assert [x][..0] == [];
  }

  /** `xs.join(sep)`. */
  function JoinWith(xs: seq<string>, sep: string): (r: string)
    ensures xs == [] ==> r == ""
    ensures |xs| == 1 ==> r == xs[0]
  {
    if xs == [] then "" else if |xs| == 1 then xs[0] else xs[0] + sep + JoinWith(xs[1..], sep)
  }
}
