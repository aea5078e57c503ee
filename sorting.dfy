/**
 * The stable sort behind `Array.prototype.sort((a, b) => b.score - a.score)`
 * and behind the catalog's `sort({ 'popularity.viewCount': -1 })`: it orders
 * by a real-valued key, largest first, and keeps equal keys in input order.
 */
module Sorting {

  /** The keys of `s` never increase from left to right. */
  ghost predicate SortedDesc<T>(s: seq<T>, key: T -> real) {
    forall i, j :: 0 <= i < j < |s| ==> key(s[i]) >= key(s[j])
  }

  /** Puts `x` in front of the first element whose key is not larger than its own. */
  function Insert<T>(x: T, s: seq<T>, key: T -> real): (r: seq<T>)
    ensures |r| == |s| + 1
    ensures multiset(r) == multiset(s) + multiset{x}
  {
    if s == [] || key(s[0]) <= key(x) then [x] + s
    else
      assert s == [s[0]] + s[1..];
      [s[0]] + Insert(x, s[1..], key)
  }

  /** Insertion sort from the back; an earlier element is inserted in front of every later equal one. */
  function SortDesc<T>(s: seq<T>, key: T -> real): (r: seq<T>)
    ensures |r| == |s|
    ensures multiset(r) == multiset(s)
  {
    if s == [] then []
    else
      assert s == [s[0]] + s[1..];
      Insert(s[0], SortDesc(s[1..], key), key)
  }

  /** Prepending an element whose key is at least the head's keeps a sorted sequence sorted. */
  lemma ConsSorted<T>(h: T, t: seq<T>, key: T -> real)
    requires SortedDesc(t, key)
    requires t != [] ==> key(h) >= key(t[0])
    ensures SortedDesc([h] + t, key)
  {
    var r := [h] + t;
    forall i, j | 0 <= i < j < |r| ensures key(r[i]) >= key(r[j]) {
      if i == 0 {
        assert r[j] == t[j - 1];
        if j > 1 {
          assert key(t[0]) >= key(t[j - 1]);
        }
      } else {
        assert r[i] == t[i - 1] && r[j] == t[j - 1];
      }
    }
  }

  lemma {:induction false} InsertSorted<T>(x: T, s: seq<T>, key: T -> real)
    requires SortedDesc(s, key)
    ensures SortedDesc(Insert(x, s, key), key)
  {
    if s == [] || key(s[0]) <= key(x) {
      ConsSorted(x, s, key);
    } else {
      var rest := s[1..];
      assert SortedDesc(rest, key) by {
        forall i, j | 0 <= i < j < |rest| ensures key(rest[i]) >= key(rest[j]) {
          assert rest[i] == s[i + 1] && rest[j] == s[j + 1];
        }
      }
      InsertSorted(x, rest, key);
      var tail := Insert(x, rest, key);
      assert tail[0] == x || (rest != [] && tail[0] == rest[0]);
      if rest != [] {
        assert key(s[0]) >= key(s[1]);
      }
      ConsSorted(s[0], tail, key);
    }
  }

  /** The sort returns a permutation of its input ordered by key, largest first. */
  lemma {:induction false} SortDescSorted<T>(s: seq<T>, key: T -> real)
    ensures SortedDesc(SortDesc(s, key), key)
  {
    if s != [] {
      SortDescSorted(s[1..], key);
      InsertSorted(s[0], SortDesc(s[1..], key), key);
    }
  }

  /** Equal keys keep their order: a sequence already in order comes back unchanged. */
  lemma {:induction false} SortDescKeepsSorted<T>(s: seq<T>, key: T -> real)
    requires SortedDesc(s, key)
    ensures SortDesc(s, key) == s
  {
    if s != [] {
      assert SortedDesc(s[1..], key) by {
        forall i, j | 0 <= i < j < |s[1..]| ensures key(s[1..][i]) >= key(s[1..][j]) {
          assert s[1..][i] == s[i + 1] && s[1..][j] == s[j + 1];
        }
      }
      SortDescKeepsSorted(s[1..], key);
      assert s == [s[0]] + s[1..];
    }
  }

  /** A prefix of a sequence sorted by key is itself sorted by key. */
  lemma PrefixSorted<T>(s: seq<T>, n: nat, key: T -> real)
    requires SortedDesc(s, key) && n <= |s|
    ensures SortedDesc(s[..n], key)
  {
  }

  /** `s.slice(0, n)`: the first `n` elements, or all of them when there are fewer. */
  function Take<T>(s: seq<T>, n: nat): (r: seq<T>)
    ensures |r| == if n < |s| then n else |s|
    ensures r <= s
  {
    if n < |s| then s[..n] else s
  }

  lemma TakeMultiset<T>(s: seq<T>, n: nat)
    ensures multiset(Take(s, n)) <= multiset(s)
  {
    if n < |s| {
      assert s == s[..n] + s[n..];
    }
  }

  /** Cutting a sorted sequence after `n` elements drops nothing that outranks a kept element. */
  lemma TakeKeepsLargest<T>(s: seq<T>, n: nat, key: T -> real)
    requires SortedDesc(s, key)
    ensures forall x, y :: x in multiset(s) - multiset(Take(s, n)) && y in Take(s, n) ==> key(x) <= key(y)
  {
    if n < |s| {
      DroppedSuffix(s, n);
      forall x, y | x in s[n..] && y in s[..n] ensures key(x) <= key(y) {
        var i :| 0 <= i < n && s[i] == y;
        var j :| n <= j < |s| && s[j] == x;
      }
    }
  }

  /** What `slice(0, n)` drops is the rest of the sequence. */
  lemma DroppedSuffix<T>(s: seq<T>, n: nat)
    requires n <= |s|
    ensures multiset(s) - multiset(s[..n]) == multiset(s[n..])
  {
    assert s == s[..n] + s[n..];
  }

  /**
   * `sort` then `slice(0, n)`: the result is sorted, drawn from `s`, and no
   * element of `s` left out has a larger key than a kept one.
   */
  lemma SortThenTake<T>(s: seq<T>, n: nat, key: T -> real)
    ensures SortedDesc(Take(SortDesc(s, key), n), key)
    ensures forall x :: x in Take(SortDesc(s, key), n) ==> x in s
    ensures forall x, y :: x in s && x !in Take(SortDesc(s, key), n) && y in Take(SortDesc(s, key), n) ==> key(x) <= key(y)
  {
    var sorted := SortDesc(s, key);
    var r := Take(sorted, n);
    SortDescSorted(s, key);
    if n < |sorted| {
      PrefixSorted(sorted, n, key);
    }
    TakeKeepsLargest(sorted, n, key);
    forall x | x in r ensures x in s {
      assert x in multiset(sorted);
    }
    forall x, y | x in s && x !in r && y in r ensures key(x) <= key(y) {
      assert x in multiset(sorted);
      assert x !in multiset(r);
      assert x in multiset(sorted) - multiset(r);
    }
  }

  /** The sort neither adds nor drops an element. */
  lemma SortDescMembers<T>(s: seq<T>, key: T -> real)
    ensures forall x :: x in SortDesc(s, key) <==> x in s
  {
    var r := SortDesc(s, key);
    forall x ensures x in r <==> x in s {
      assert x in r <==> x in multiset(r);
      assert x in s <==> x in multiset(s);
    }
  }
}
