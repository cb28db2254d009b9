/** Key-name lists: JavaScript's `indexOf` and the first-occurrence filter the
    plugin uses to remove duplicate key names, with the facts that pin the
    filter's result down completely. */
module KeyList {

  /** A key name as used by the host's input layer (`"control"`, `"ok"`, ...). */
  type KeyName = string

  /** `Array.prototype.indexOf`: the first position of `x` in `s`, or -1. */
  function IndexOf(s: seq<KeyName>, x: KeyName): (r: int)
    ensures -1 <= r < |s|
    ensures r == -1 <==> x !in s
    ensures 0 <= r ==> s[r] == x
    ensures forall j :: 0 <= j < r ==> s[j] != x
  {
    if |s| == 0 then -1
    else if s[0] == x then 0
    else
      var k := IndexOf(s[1..], x);
      if k == -1 then -1
      else k + 1
  }

  predicate NoDuplicates(s: seq<KeyName>) {
    forall i, j :: 0 <= i < j < |s| ==> s[i] != s[j]
  }

  /** `r` lists its names in the order in which they first occur in `s`. */
  predicate InFirstOccurrenceOrder(r: seq<KeyName>, s: seq<KeyName>) {
    forall i, j :: 0 <= i < j < |r| ==> IndexOf(s, r[i]) < IndexOf(s, r[j])
  }

  /** The filter `self.indexOf(x) === i` run over the positions `0 .. n-1` of
      `s`: position `i` is kept exactly when it is the first occurrence of its
      name. */
  function KeepFirstOccurrences(s: seq<KeyName>, n: nat): (r: seq<KeyName>)
    requires n <= |s|
    ensures NoDuplicates(r)
    ensures forall x :: x in r <==> x in s[..n]
    ensures forall k :: 0 <= k < |r| ==> 0 <= IndexOf(s, r[k]) < n
    ensures InFirstOccurrenceOrder(r, s)
  {
    if n == 0 then []
    else
      var kept := KeepFirstOccurrences(s, n - 1);
      assert s[..n] == s[..n - 1] + [s[n - 1]];
      if IndexOf(s, s[n - 1]) == n - 1 then kept + [s[n - 1]] else kept
  }

  /** The de-duplication step of the key-list loader. */
  function Unique(s: seq<KeyName>): (r: seq<KeyName>)
    ensures NoDuplicates(r)
    ensures forall x :: x in r <==> x in s
    ensures InFirstOccurrenceOrder(r, s)
  {
    assert s[..|s|] == s;
    KeepFirstOccurrences(s, |s|)
  }

  /** On a list without duplicates every position is the first occurrence of
      its name, so the filter keeps every prefix intact. */
  lemma {:induction false} KeepAllWhenDistinct(s: seq<KeyName>, n: nat)
    requires NoDuplicates(s)
    requires n <= |s|
    ensures KeepFirstOccurrences(s, n) == s[..n]
  {
    if n > 0 {
      KeepAllWhenDistinct(s, n - 1);
      var k := IndexOf(s, s[n - 1]);
      assert s[k] == s[n - 1];
      assert k == n - 1;
      assert s[..n] == s[..n - 1] + [s[n - 1]];
    }
  }

  /** De-duplicating a list that has no duplicates returns it unchanged. */
  lemma UniqueOfDistinct(s: seq<KeyName>)
    requires NoDuplicates(s)
    ensures Unique(s) == s
  {
    KeepAllWhenDistinct(s, |s|);
    assert s[..|s|] == s;
  }

  /** De-duplication is idempotent. */
  lemma UniqueIdempotent(s: seq<KeyName>)
    ensures Unique(Unique(s)) == Unique(s)
  {
    UniqueOfDistinct(Unique(s));
  }

  /** In a list in first-occurrence order of `s` the head comes first in `s`,
      and the tail holds exactly the other names. */
  lemma HeadComesFirst(s: seq<KeyName>, a: seq<KeyName>, x: KeyName)
    requires InFirstOccurrenceOrder(a, s)
    requires |a| > 0
    ensures x in a ==> IndexOf(s, a[0]) <= IndexOf(s, x)
    ensures x in a[1..] <==> x in a && x != a[0]
  {
    if x in a[1..] {
      var k :| 0 <= k < |a| - 1 && a[1..][k] == x;
      assert IndexOf(s, a[0]) < IndexOf(s, a[k + 1]);
    }
    if x in a {
      var k :| 0 <= k < |a| && a[k] == x;
      if k > 0 {
        assert IndexOf(s, a[0]) < IndexOf(s, a[k]);
        assert x == a[1..][k - 1];
      }
    }
  }

  /** Lists holding the same names are empty together. */
  lemma SameNamesSameEmptiness(a: seq<KeyName>, b: seq<KeyName>)
    requires forall x :: x in a <==> x in b
    ensures |a| == 0 <==> |b| == 0
  {
    if |a| > 0 {
      assert a[0] in b;
    }
    if |b| > 0 {
      assert b[0] in a;
    }
  }

  /** Two lists over the names of `s` that hold the same names, each in
      first-occurrence order of `s`, are the same list. */
  lemma {:induction false} OrderedListsEqual(s: seq<KeyName>, a: seq<KeyName>, b: seq<KeyName>)
    requires forall x :: x in a <==> x in b
    requires forall x :: x in a ==> x in s
    requires InFirstOccurrenceOrder(a, s) && InFirstOccurrenceOrder(b, s)
    ensures a == b
    decreases |a|
  {
    SameNamesSameEmptiness(a, b);
    if |a| != 0 {
      assert a[0] in b && b[0] in a;
      HeadComesFirst(s, a, b[0]);
      HeadComesFirst(s, b, a[0]);
      var k := IndexOf(s, a[0]);
      assert k == IndexOf(s, b[0]);
      assert a[0] == s[k] == b[0];
      forall x
        ensures x in a[1..] <==> x in b[1..]
      {
        HeadComesFirst(s, a, x);
        HeadComesFirst(s, b, x);
      }
      OrderedListsEqual(s, a[1..], b[1..]);
      assert a == [a[0]] + a[1..];
      assert b == [b[0]] + b[1..];
    }
  }

  /** The three properties of `Unique` determine it: any list holding exactly
      the names of `s`, in first-occurrence order, is `Unique(s)`. */
  lemma UniqueCharacterised(s: seq<KeyName>, r: seq<KeyName>)
    requires forall x :: x in r <==> x in s
    requires InFirstOccurrenceOrder(r, s)
    ensures r == Unique(s)
  {
    OrderedListsEqual(s, r, Unique(s));
  }
}
