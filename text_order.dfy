/** The order `localeCompare` gives on the strings the command log sorts
  * (file names `YYYY-MM-DD.jsonl` and ISO timestamps, which differ only in
  * their digits), taken as code-unit order, and the stable descending sort
  * `xs.sort((a, b) => key(b).localeCompare(key(a)))`. */
module TextOrder {
  import opened Lists

  /** `a` sorts no later than `b`, comparing code unit by code unit. */
  predicate NotAfter(a: string, b: string)
    decreases |a|
  {
    a == [] || (b != [] && (a[0] < b[0] || (a[0] == b[0] && NotAfter(a[1..], b[1..]))))
  }

  lemma {:induction false} NotAfterTotal(a: string, b: string)
    ensures NotAfter(a, b) || NotAfter(b, a)
    decreases |a|
  {
    if a != [] && b != [] && a[0] == b[0] {
      NotAfterTotal(a[1..], b[1..]);
    }
  }

  lemma {:induction false} NotAfterTransitive(a: string, b: string, c: string)
    requires NotAfter(a, b) && NotAfter(b, c)
    ensures NotAfter(a, c)
    decreases |a|
  {
    if a != [] && a[0] == b[0] && b[0] == c[0] {
      NotAfterTransitive(a[1..], b[1..], c[1..]);
    }
  }

  lemma {:induction false} NotAfterAntisymmetric(a: string, b: string)
    requires NotAfter(a, b) && NotAfter(b, a)
    ensures a == b
    decreases |a|
  {
    if a != [] {
      NotAfterAntisymmetric(a[1..], b[1..]);
      assert a == [a[0]] + a[1..] && b == [b[0]] + b[1..];
    }
  }

  /** Sorted by `key`, greatest first. */
  predicate Descending<T>(xs: seq<T>, key: T -> string)
  {
    forall i, j :: 0 <= i < j < |xs| ==> NotAfter(key(xs[j]), key(xs[i]))
  }

  /** Places `x` after every element of the descending `s` whose key is not
    * smaller, so that equal keys keep their order. */
  function Insert<T(==)>(x: T, s: seq<T>, key: T -> string): (r: seq<T>)
    ensures |r| == |s| + 1
    decreases |s|
  {
    if s == [] then [x]
    else if NotAfter(key(x), key(s[|s| - 1])) then s + [x]
    else
      assert s == s[..|s| - 1] + [s[|s| - 1]];
      Insert(x, s[..|s| - 1], key) + [s[|s| - 1]]
  }

  /** The stable sort by `key`, greatest first. */
  function SortDesc<T(==)>(xs: seq<T>, key: T -> string): (r: seq<T>)
    ensures |r| == |xs|
    decreases |xs|
  {
    if xs == [] then []
    else
      assert xs == xs[..|xs| - 1] + [xs[|xs| - 1]];
      Insert(xs[|xs| - 1], SortDesc(xs[..|xs| - 1], key), key)
  }

  lemma {:induction false} InsertPermutes<T>(x: T, s: seq<T>, key: T -> string)
    ensures multiset(Insert(x, s, key)) == multiset(s) + multiset{x}
    decreases |s|
  {
    if s != [] && !NotAfter(key(x), key(s[|s| - 1])) {
      InsertPermutes(x, s[..|s| - 1], key);
      assert s == s[..|s| - 1] + [s[|s| - 1]];
    }
  }

  /** The sort reorders its input and nothing else. */
  lemma {:induction false} SortPermutes<T>(xs: seq<T>, key: T -> string)
    ensures multiset(SortDesc(xs, key)) == multiset(xs)
    decreases |xs|
  {
    if xs != [] {
      SortPermutes(xs[..|xs| - 1], key);
      InsertPermutes(xs[|xs| - 1], SortDesc(xs[..|xs| - 1], key), key);
      assert xs == xs[..|xs| - 1] + [xs[|xs| - 1]];
    }
  }

  lemma {:induction false} InsertDescending<T>(x: T, s: seq<T>, key: T -> string)
    requires Descending(s, key)
    ensures Descending(Insert(x, s, key), key)
    decreases |s|
  {
    if s != [] {
      var last := s[|s| - 1];
      if NotAfter(key(x), key(last)) {
        var r := s + [x];
        forall i, j | 0 <= i < j < |r| ensures NotAfter(key(r[j]), key(r[i])) {
          if j == |s| && i < |s| - 1 {
            NotAfterTransitive(key(x), key(last), key(s[i]));
          }
        }
      } else {
        NotAfterTotal(key(x), key(last));
        var init := s[..|s| - 1];
        InsertDescending(x, init, key);
        var m := Insert(x, init, key);
        InsertPermutes(x, init, key);
        var r := m + [last];
        forall i, j | 0 <= i < j < |r| ensures NotAfter(key(r[j]), key(r[i])) {
          if j == |m| {
            assert r[i] == m[i];
            assert m[i] in multiset(init) + multiset{x};
            if m[i] != x {
              assert m[i] in init;
              var k :| 0 <= k < |init| && init[k] == m[i];
              assert s[k] == m[i];
            }
          }
        }
      }
    }
  }

  lemma {:induction false} SortDescending<T>(xs: seq<T>, key: T -> string)
    ensures Descending(SortDesc(xs, key), key)
    decreases |xs|
  {
    if xs != [] {
      SortDescending(xs[..|xs| - 1], key);
      InsertDescending(xs[|xs| - 1], SortDesc(xs[..|xs| - 1], key), key);
    }
  }

  // ---------------------------------------------------------------- names

  function Itself(s: string): string { s }

  /** The names a listing holds. */
  function Names(s: seq<string>): set<string> { set x | x in s }

  /** The names of `names` that sort after `n`. */
  function Above(names: set<string>, n: string): set<string>
  {
    set m | m in names && m != n && NotAfter(n, m)
  }

  /** In a descending sequence of distinct names, the name at position `i`
    * has exactly `i` names above it. */
  lemma RankInSorted(s: seq<string>, i: int)
    requires Descending(s, Itself) && NoRepeats(s) && 0 <= i < |s|
    ensures Above(Names(s), s[i]) == Names(s[..i])
    ensures |Above(Names(s), s[i])| == i
  {
    var a := Above(Names(s), s[i]);
    forall m | m in a ensures m in s[..i] {
      var j :| 0 <= j < |s| && s[j] == m;
      if j > i {
        assert NotAfter(Itself(s[j]), Itself(s[i]));
        NotAfterAntisymmetric(s[i], s[j]);
      }
      assert j != i;
      assert s[..i][j] == m;
    }
    forall m | m in s[..i] ensures m in a {
      var j :| 0 <= j < i && s[..i][j] == m;
      assert NotAfter(Itself(s[i]), Itself(s[j]));
      assert s[j] != s[i];
    }
    DistinctCard(s[..i]);
  }

  lemma {:induction false} DistinctCard(s: seq<string>)
    requires NoRepeats(s)
    ensures |Names(s)| == |s|
    decreases |s|
  {
    if s != [] {
      var init := s[..|s| - 1];
      assert NoRepeats(init) by {
        forall i, j | 0 <= i < j < |init| ensures init[i] != init[j] { assert init[i] == s[i] && init[j] == s[j]; }
      }
      DistinctCard(init);
      assert Names(s) == Names(init) + {s[|s| - 1]} by {
        assert s == init + [s[|s| - 1]];
      }
      assert s[|s| - 1] !in init;
    }
  }

  /** Two descending sequences of the same distinct names are equal: the
    * sorted listing does not depend on the order the directory gave. */
  lemma {:induction false} SortedUnique(a: seq<string>, b: seq<string>)
    requires Descending(a, Itself) && Descending(b, Itself) && NoRepeats(a) && NoRepeats(b)
    requires Names(a) == Names(b)
    ensures a == b
    decreases |a|
  {
    if a == [] {
      DistinctCard(b);
      assert Names(a) == {};
    } else {
      assert a[0] in Names(b);
      assert b != [];
      assert b[0] in Names(a);
      var i :| 0 <= i < |b| && b[i] == a[0];
      var j :| 0 <= j < |a| && a[j] == b[0];
      if i > 0 { assert NotAfter(Itself(b[i]), Itself(b[0])); }
      if j > 0 { assert NotAfter(Itself(a[j]), Itself(a[0])); }
      if i > 0 && j > 0 { NotAfterAntisymmetric(a[0], b[0]); }
      assert a[0] == b[0];
      var ta, tb := a[1..], b[1..];
      assert Names(ta) == Names(a) - {a[0]} by {
        forall x | x in ta ensures x != a[0] {
          var k :| 0 <= k < |ta| && ta[k] == x;
          assert a[k + 1] == x;
        }
        assert a == [a[0]] + ta;
      }
      assert Names(tb) == Names(b) - {b[0]} by {
        forall x | x in tb ensures x != b[0] {
          var k :| 0 <= k < |tb| && tb[k] == x;
          assert b[k + 1] == x;
        }
        assert b == [b[0]] + tb;
      }
      assert NoRepeats(ta) by {
        forall p, q | 0 <= p < q < |ta| ensures ta[p] != ta[q] { assert ta[p] == a[p + 1] && ta[q] == a[q + 1]; }
      }
      assert NoRepeats(tb) by {
        forall p, q | 0 <= p < q < |tb| ensures tb[p] != tb[q] { assert tb[p] == b[p + 1] && tb[q] == b[q + 1]; }
      }
      SortedUnique(ta, tb);
      assert a == [a[0]] + ta && b == [b[0]] + tb;
    }
  }

  /** A permutation of distinct names holds the same names, still distinct. */
  lemma PermutationKeepsNames(a: seq<string>, b: seq<string>)
    requires multiset(a) == multiset(b) && NoRepeats(a)
    ensures NoRepeats(b) && Names(a) == Names(b)
  {
    forall x ensures multiset(a)[x] <= 1 { CountAtMostOne(a, x); }
    forall i, j | 0 <= i < j < |b| ensures b[i] != b[j] {
      RepeatCountsTwice(b, i, j);
    }
    forall x ensures x in Names(a) <==> x in Names(b) {
      assert x in a <==> x in multiset(a);
      assert x in b <==> x in multiset(b);
    }
  }

  lemma RepeatCountsTwice(b: seq<string>, i: int, j: int)
    requires 0 <= i < j < |b|
    ensures b[i] == b[j] ==> multiset(b)[b[j]] >= 2
  {
    assert b == b[..j] + [b[j]] + b[j + 1..];
    assert b[..j][i] == b[i];
  }

  lemma {:induction false} CountAtMostOne(a: seq<string>, x: string)
    requires NoRepeats(a)
    ensures multiset(a)[x] <= 1
    decreases |a|
  {
    if a != [] {
      var init := a[..|a| - 1];
      assert a == init + [a[|a| - 1]];
      assert NoRepeats(init) by {
        forall i, j | 0 <= i < j < |init| ensures init[i] != init[j] { assert init[i] == a[i] && init[j] == a[j]; }
      }
      CountAtMostOne(init, x);
      if x == a[|a| - 1] {
        assert x !in init;
      }
    }
  }

  /** Some listing of a set of names, each once. */
  ghost function SomeListing(names: set<string>): (r: seq<string>)
    ensures Names(r) == names && NoRepeats(r)
    decreases names
  {
    if names == {} then []
    else
      var x :| x in names;
      var rest := SomeListing(names - {x});
      assert x !in rest by { assert x !in Names(rest); }
      assert Names(rest + [x]) == Names(rest) + {x};
      rest + [x]
  }

  /** `r` lists `names`, each once, greatest first. */
  predicate IsRanking(r: seq<string>, names: set<string>)
  {
    Names(r) == names && NoRepeats(r) && Descending(r, Itself)
  }

  lemma RankingExists(names: set<string>)
    ensures exists r :: IsRanking(r, names)
  {
    var listing := SomeListing(names);
    var s := SortDesc(listing, Itself);
    SortPermutes(listing, Itself);
    SortDescending(listing, Itself);
    PermutationKeepsNames(listing, s);
    assert IsRanking(s, names);
  }

  /** The names sorted greatest first: the one order in which any listing
    * of them is sorted. */
  ghost function Ranked(names: set<string>): (r: seq<string>)
    ensures Names(r) == names && NoRepeats(r)
    ensures |r| == |names|
  {
    RankingExists(names);
    var r :| IsRanking(r, names);
    DistinctCard(r);
    r
  }

  lemma RankedDescending(names: set<string>)
    ensures Descending(Ranked(names), Itself)
  {
  }

  /** Sorting any listing of distinct names gives the ranked order. */
  lemma SortIsRanked(listing: seq<string>)
    requires NoRepeats(listing)
    ensures SortDesc(listing, Itself) == Ranked(Names(listing))
  {
    var s := SortDesc(listing, Itself);
    SortDescending(listing, Itself);
    SortPermutes(listing, Itself);
    PermutationKeepsNames(listing, s);
    SortedUnique(s, Ranked(Names(listing)));
  }
}
