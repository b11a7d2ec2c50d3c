/** Names and their lexicographic order, and sorting lists of names. */
module Names {

  /** The order in which strings are compared and sorted. */
  predicate Less(a: string, b: string) {
    b != [] && (a == [] || a[0] < b[0] || (a[0] == b[0] && Less(a[1..], b[1..])))
  }

  lemma {:induction false} LessTotal(a: string, b: string)
    ensures Less(a, b) || a == b || Less(b, a)
    ensures !(Less(a, b) && (a == b || Less(b, a)))
  {
    if a != [] && b != [] && a[0] == b[0] {
      LessTotal(a[1..], b[1..]);
      assert a == [a[0]] + a[1..] && b == [b[0]] + b[1..];
    }
  }

  lemma {:induction false} LessTransitive(a: string, b: string, c: string)
    requires Less(a, b) && Less(b, c)
    ensures Less(a, c)
  {
    if a != [] && a[0] == b[0] && b[0] == c[0] {
      LessTransitive(a[1..], b[1..], c[1..]);
    }
  }

  /** `m` comes before every other element of `s`. */
  predicate IsLeast(m: string, s: set<string>) {
    m in s && forall x | x in s :: x == m || Less(m, x)
  }

  lemma {:induction false} LeastExists(s: set<string>)
    requires s != {}
    ensures exists m :: IsLeast(m, s)
    decreases s
  {
    var x :| x in s;
    var rest := s - {x};
    if rest == {} {
      assert s == {x};
      assert IsLeast(x, s);
    } else {
      LeastExists(rest);
      var m :| IsLeast(m, rest);
      LessTotal(x, m);
      if Less(x, m) {
        forall y | y in s && y != x ensures Less(x, y) {
          if y != m {
            LessTransitive(x, m, y);
          }
        }
        assert IsLeast(x, s);
      } else {
        assert IsLeast(m, s);
      }
    }
  }

  lemma LeastUnique(m: string, m': string, s: set<string>)
    requires IsLeast(m, s) && IsLeast(m', s)
    ensures m == m'
  {
    LessTotal(m, m');
  }

  function Least(s: set<string>): (m: string)
    requires s != {}
    ensures IsLeast(m, s)
  {
    LeastExists(s);
    assert forall m, m' | IsLeast(m, s) && IsLeast(m', s) :: m == m' by {
      forall m, m' | IsLeast(m, s) && IsLeast(m', s) ensures m == m' {
        LeastUnique(m, m', s);
      }
    }
    var m :| m in s && IsLeast(m, s);
    m
  }

  // ---------- lists ----------

  function Elements(xs: seq<string>): set<string> {
    set x | x in xs
  }

  predicate NoDup(xs: seq<string>) {
    forall i, j :: 0 <= i < j < |xs| ==> xs[i] != xs[j]
  }

  predicate Ascending(xs: seq<string>) {
    forall i, j :: 0 <= i < j < |xs| ==> xs[i] == xs[j] || Less(xs[i], xs[j])
  }

  lemma {:induction false} NoDupSize(xs: seq<string>)
    requires NoDup(xs)
    ensures |Elements(xs)| == |xs|
  {
    if xs != [] {
      var init, last := xs[..|xs| - 1], xs[|xs| - 1];
      NoDupSize(init);
      assert Elements(xs) == Elements(init) + {last};
      assert last !in init;
    }
  }

  lemma NoDupWithin(xs: seq<string>, s: set<string>)
    requires NoDup(xs) && Elements(xs) <= s
    ensures |xs| <= |s|
    ensures |xs| == |s| ==> Elements(xs) == s
  {
    NoDupSize(xs);
    SubsetSize(Elements(xs), s);
  }

  lemma SubsetSize(a: set<string>, b: set<string>)
    requires a <= b
    ensures |a| <= |b|
    ensures |a| == |b| ==> a == b
  {
    assert b == a + (b - a);
    assert |b| == |a| + |b - a|;
  }

  /** Sorting is a permutation, so it keeps membership and absence of duplicates. */
  lemma PermutationKeeps(xs: seq<string>, ys: seq<string>)
    requires multiset(xs) == multiset(ys)
    ensures Elements(xs) == Elements(ys) && |xs| == |ys|
    ensures NoDup(xs) ==> NoDup(ys)
  {
    forall x ensures x in xs <==> x in ys {
      assert x in multiset(xs) <==> x in multiset(ys);
    }
    assert |multiset(xs)| == |multiset(ys)|;
    if NoDup(xs) {
      forall i, j | 0 <= i < j < |ys| ensures ys[i] != ys[j] {
        if ys[i] == ys[j] {
          TwiceInMultiset(ys, i, j);
          OnceInMultiset(xs, ys[i]);
        }
      }
    }
  }

  lemma TwiceInMultiset(xs: seq<string>, i: nat, j: nat)
    requires i < j < |xs| && xs[i] == xs[j]
    ensures multiset(xs)[xs[i]] >= 2
  {
    assert xs == xs[..j] + [xs[j]] + xs[j + 1..];
    assert xs[..j] == xs[..i] + [xs[i]] + xs[i + 1..j];
  }

  lemma {:induction false} OnceInMultiset(xs: seq<string>, x: string)
    requires NoDup(xs)
    ensures multiset(xs)[x] == if x in xs then 1 else 0
  {
    if xs != [] {
      var init, last := xs[..|xs| - 1], xs[|xs| - 1];
      OnceInMultiset(init, x);
      assert xs == init + [last];
      assert last !in init;
    }
  }

  /** Put a name into an ascending list, after the names that do not come after it. */
  method InsertString(ys: seq<string>, x: string) returns (zs: seq<string>)
    requires Ascending(ys)
    ensures multiset(zs) == multiset(ys) + multiset{x} && Ascending(zs)
  {
    var j := |ys|;
    while j > 0 && Less(x, ys[j - 1])
      invariant 0 <= j <= |ys|
      invariant forall k :: j <= k < |ys| ==> Less(x, ys[k])
    {
      j := j - 1;
    }
    InsertAscending(ys, j, x);
    assert ys == ys[..j] + ys[j..];
    zs := ys[..j] + [x] + ys[j..];
  }

  /** Stable insertion: what sorting a list of names does. */
  method SortStrings(xs: seq<string>) returns (ys: seq<string>)
    ensures multiset(ys) == multiset(xs) && Ascending(ys)
  {
    ys := [];
    var i := 0;
    while i < |xs|
      invariant 0 <= i <= |xs|
      invariant multiset(ys) == multiset(xs[..i]) && Ascending(ys)
    {
      ys := InsertString(ys, xs[i]);
      assert xs[..i + 1] == xs[..i] + [xs[i]];
      i := i + 1;
    }
    assert xs[..i] == xs;
  }

  lemma InsertAscending(ys: seq<string>, j: nat, x: string)
    requires Ascending(ys) && j <= |ys|
    requires forall k :: j <= k < |ys| ==> Less(x, ys[k])
    requires j > 0 ==> !Less(x, ys[j - 1])
    ensures Ascending(ys[..j] + [x] + ys[j..])
  {
    var zs := ys[..j] + [x] + ys[j..];
    forall k | 0 <= k < j ensures ys[k] == x || Less(ys[k], x) {
      LessTotal(ys[j - 1], x);
      if k < j - 1 && ys[k] != ys[j - 1] && ys[j - 1] != x {
        LessTransitive(ys[k], ys[j - 1], x);
      }
    }
    forall a, b | 0 <= a < b < |zs| ensures zs[a] == zs[b] || Less(zs[a], zs[b]) {
      if b == j {
        assert zs[a] == ys[a];
      } else if a == j {
        assert zs[b] == ys[b - 1];
      } else {
        assert zs[a] == ys[if a < j then a else a - 1] && zs[b] == ys[if b < j then b else b - 1];
      }
    }
  }

  /** The first of an ascending list is the least of its elements. */
  lemma FirstIsLeast(xs: seq<string>)
    requires Ascending(xs) && xs != []
    ensures IsLeast(xs[0], Elements(xs))
  {
  }
}
