/**
 * Ordered reads: `select ... order by <column>` and `order by <column> desc limit 1`.
 *
 * The database orders by one integer column and nothing else, so among rows with
 * equal keys any order is a correct answer. A listing is therefore specified as
 * "sorted by the key and a permutation of the table"; `SortBy` computes one such
 * listing, and `KeysDetermined` shows that every correct listing has the same
 * sequence of keys, so only the order within a tie is left open.
 */
module Listing {
  import opened Common

  /** Non-decreasing in `key`. */
  predicate SortedBy<T>(s: seq<T>, key: T -> int) {
    forall i, j :: 0 <= i < j < |s| ==> key(s[i]) <= key(s[j])
  }

  /** A correct answer to `select * from table order by key asc`. */
  predicate IsListing<T(==)>(table: seq<T>, r: seq<T>, key: T -> int) {
    multiset(r) == multiset(table) && SortedBy(r, key)
  }

  /** The key column of `s`, row by row. */
  function Keys<T>(s: seq<T>, key: T -> int): seq<int> {
    seq(|s|, i requires 0 <= i < |s| => key(s[i]))
  }

  /** `x` placed into the sorted `s` before the first row with a larger-or-equal key. */
  function InsertSorted<T(==)>(x: T, s: seq<T>, key: T -> int): (r: seq<T>)
    requires SortedBy(s, key)
    ensures multiset(r) == multiset(s) + multiset{x}
    ensures SortedBy(r, key)
    ensures |r| == |s| + 1 && (r[0] == x || (s != [] && r[0] == s[0]))
  {
    if s == [] then [x]
    else if key(x) <= key(s[0]) then [x] + s
    else
      var rest := InsertSorted(x, s[1..], key);
      assert s == [s[0]] + s[1..];
      SortedCons(s[0], rest, key);
      [s[0]] + rest
  }

  /** A row whose key is at most the head's keeps a sorted sequence sorted. */
  lemma SortedCons<T>(h: T, t: seq<T>, key: T -> int)
    requires SortedBy(t, key) && (t != [] ==> key(h) <= key(t[0]))
    ensures SortedBy([h] + t, key)
  {
  }

  /** One listing of `s` by `key` (insertion sort). */
  function SortBy<T(==)>(s: seq<T>, key: T -> int): (r: seq<T>)
    ensures IsListing(s, r, key)
  {
    if s == [] then []
    else
      assert s == [s[0]] + s[1..];
      InsertSorted(s[0], SortBy(s[1..], key), key)
  }

  /** Removing one row from a sorted sequence leaves it sorted. */
  lemma SortedWithout<T>(b: seq<T>, j: nat, key: T -> int)
    requires SortedBy(b, key) && j < |b|
    ensures SortedBy(b[..j] + b[j + 1..], key)
  {
    var b' := b[..j] + b[j + 1..];
    forall p, q | 0 <= p < q < |b'| ensures key(b'[p]) <= key(b'[q]) {
      var p' := if p < j then p else p + 1;
      var q' := if q < j then q else q + 1;
      assert b'[p] == b[p'] && b'[q] == b[q'];
    }
  }

  /** Two sorted permutations of each other start with the same key: the least one. */
  lemma HeadKeysAgree<T>(a: seq<T>, b: seq<T>, key: T -> int)
    requires SortedBy(a, key) && SortedBy(b, key) && multiset(a) == multiset(b) && a != []
    ensures b != [] && key(a[0]) == key(b[0])
  {
    assert a[0] in multiset(b);
    var j :| 0 <= j < |b| && b[j] == a[0];
    assert b[0] in multiset(a);
    var i :| 0 <= i < |a| && a[i] == b[0];
    assert key(a[0]) <= key(a[i]) && key(b[0]) <= key(b[j]);
  }

  /** Taking the same row out of two permutations of each other leaves permutations. */
  lemma PermutationWithout<T>(a: seq<T>, b: seq<T>, j: nat)
    requires multiset(a) == multiset(b) && a != [] && j < |b| && b[j] == a[0]
    ensures multiset(b[..j] + b[j + 1..]) == multiset(a[1..])
  {
    assert b == b[..j] + [b[j]] + b[j + 1..];
    assert multiset(b) == multiset(b[..j]) + multiset{b[j]} + multiset(b[j + 1..]);
    assert a == [a[0]] + a[1..];
    assert multiset(a) == multiset{a[0]} + multiset(a[1..]);
    calc {
      multiset(a[1..]);
      multiset(a) - multiset{a[0]};
      multiset(b) - multiset{b[j]};
      multiset(b[..j]) + multiset(b[j + 1..]);
      multiset(b[..j] + b[j + 1..]);
    }
  }

  /** Every correct listing of a table has the same key sequence: two answers of the
      database can differ only in the order of rows with equal keys. */
  lemma {:induction false} KeysDetermined<T>(a: seq<T>, b: seq<T>, key: T -> int)
    requires SortedBy(a, key) && SortedBy(b, key) && multiset(a) == multiset(b)
    ensures Keys(a, key) == Keys(b, key)
    decreases |a|
  {
    if a == [] {
      assert |b| == |multiset(b)| == 0;
    } else {
      HeadKeysAgree(a, b, key);
      assert a[0] in multiset(b);
      var j :| 0 <= j < |b| && b[j] == a[0];
      var b' := b[..j] + b[j + 1..];
      PermutationWithout(a, b, j);
      SortedWithout(b, j, key);
      KeysDetermined(a[1..], b', key);
      KeysAfterRemoval(a, b, j, key);
    }
  }

  /** The inductive step of KeysDetermined: if `a` without its head and `b` without
      the copy of that head at `j` agree on keys, so do `a` and `b`, because every row
      of `b` before `j` ties with the head. */
  lemma KeysAfterRemoval<T>(a: seq<T>, b: seq<T>, j: nat, key: T -> int)
    requires SortedBy(b, key) && a != [] && j < |b| && b[j] == a[0] && |a| == |b|
    requires key(a[0]) == key(b[0])
    requires Keys(a[1..], key) == Keys(b[..j] + b[j + 1..], key)
    ensures Keys(a, key) == Keys(b, key)
  {
    var b' := b[..j] + b[j + 1..];
    forall k | 0 < k < |a| ensures key(a[k]) == key(b[k]) {
      assert Keys(a[1..], key)[k - 1] == Keys(b', key)[k - 1];
      assert key(a[k]) == key(a[1..][k - 1]) == key(b'[k - 1]);
      if k <= j {
        assert b'[k - 1] == b[k - 1];
        assert key(b[0]) <= key(b[k - 1]) <= key(b[j]);
        assert key(b[0]) <= key(b[k]) <= key(b[j]);
      } else {
        assert b'[k - 1] == b[k];
      }
    }
  }

  /** When no two rows of the table share a key, the listing is unique. */
  lemma ListingUniqueWithoutTies<T>(table: seq<T>, a: seq<T>, b: seq<T>, key: T -> int)
    requires IsListing(table, a, key) && IsListing(table, b, key)
    requires forall i, j :: 0 <= i < j < |table| ==> key(table[i]) != key(table[j])
    ensures a == b
  {
    KeysDetermined(a, b, key);
    assert |a| == |multiset(a)| == |multiset(b)| == |b|;
    forall k | 0 <= k < |a| ensures a[k] == b[k] {
      assert Keys(a, key)[k] == Keys(b, key)[k];
      assert a[k] in multiset(table) && b[k] in multiset(table);
      var i :| 0 <= i < |table| && table[i] == a[k];
      var j :| 0 <= j < |table| && table[j] == b[k];
    }
  }

  /** `s` back to front. */
  function Reversed<T>(s: seq<T>): (r: seq<T>)
    ensures |r| == |s| && forall i :: 0 <= i < |s| ==> r[i] == s[|s| - 1 - i]
  {
    if s == [] then [] else Reversed(s[1..]) + [s[0]]
  }

  lemma {:induction false} ReversedIsPermutation<T>(s: seq<T>)
    ensures multiset(Reversed(s)) == multiset(s)
  {
    if s != [] {
      ReversedIsPermutation(s[1..]);
      assert s == [s[0]] + s[1..];
    }
  }

  /** `order by key desc limit 1`: a row with the greatest key, or none when the table
      is empty. Among several rows with the greatest key the contract picks none. */
  function Latest<T(==)>(s: seq<T>, key: T -> int): (r: Option<T>)
    ensures r.None? <==> s == []
    ensures r.Some? ==> r.value in s && forall i :: 0 <= i < |s| ==> key(s[i]) <= key(r.value)
  {
    if s == [] then None
    else match Latest(s[1..], key)
      case None => Some(s[0])
      case Some(m) =>
        assert forall i :: 1 <= i < |s| ==> s[i] == s[1..][i - 1];
        if key(m) > key(s[0]) then Some(m) else Some(s[0])
  }

  /** A row whose key is strictly greater than every other row's is the one returned. */
  lemma LatestIsStrictMaximum<T>(s: seq<T>, key: T -> int, k: nat)
    requires k < |s| && forall i :: 0 <= i < |s| && i != k ==> key(s[i]) < key(s[k])
    ensures Latest(s, key) == Some(s[k])
  {
    var r := Latest(s, key);
    var i :| 0 <= i < |s| && s[i] == r.value;
    assert key(s[k]) <= key(s[i]);
  }
}
