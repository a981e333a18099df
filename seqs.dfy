/** The two query shapes of the document store, over a collection kept in
    insertion (natural) order: `findOne` yields the first document that
    satisfies a filter (the first position `IndexWhere` finds), `find` all
    of them in order. */
module Seqs {
  import opened Wrappers

  /** Position of the first element satisfying `p`. */
  function IndexWhere<T>(s: seq<T>, p: T -> bool): (r: Option<nat>)
    ensures r.Some? ==> r.value < |s| && p(s[r.value])
    ensures r.Some? ==> forall j :: 0 <= j < r.value ==> !p(s[j])
    ensures r.None? ==> forall j :: 0 <= j < |s| ==> !p(s[j])
  {
    if |s| == 0 then None
    else if p(s[0]) then Some(0)
    else match IndexWhere(s[1..], p)
      case None => None
      case Some(k) => Some(k + 1)
  }

  /** `r` is `s` with some elements left out and the rest in their order. */
  ghost predicate Subsequence<T>(r: seq<T>, s: seq<T>)
    decreases |s|
  {
    if r == [] then true
    else if s == [] then false
    else (r[0] == s[0] && Subsequence(r[1..], s[1..])) || Subsequence(r, s[1..])
  }

  /** `find`: every element satisfying `p`, in collection order. */
  function Where<T(!new)>(s: seq<T>, p: T -> bool): (r: seq<T>)
    ensures |r| <= |s|
    ensures forall x :: x in r <==> x in s && p(x)
    ensures Subsequence(r, s)
  {
    if s == [] then []
    else
      var rest := Where(s[1..], p);
      assert ([s[0]] + rest)[1..] == rest && [] + rest == rest;
      (if p(s[0]) then [s[0]] else []) + rest
  }

  /** `find` keeps collection order: on a concatenation it gives the
      matches of the first part followed by those of the second. */
  lemma {:induction false} WhereConcat<T(!new)>(a: seq<T>, b: seq<T>, p: T -> bool)
    ensures Where(a + b, p) == Where(a, p) + Where(b, p)
    decreases |a|
  {
    if a == [] {
      assert a + b == b;
    } else {
      assert (a + b)[0] == a[0];
      assert (a + b)[1..] == a[1..] + b;
      WhereConcat(a[1..], b, p);
    }
  }

  /** The sequence without its element at position `i`. */
  function RemoveAt<T>(s: seq<T>, i: nat): (r: seq<T>)
    requires i < |s|
    ensures |r| == |s| - 1
    ensures forall j :: 0 <= j < i ==> r[j] == s[j]
    ensures forall j :: i <= j < |r| ==> r[j] == s[j + 1]
  {
    s[..i] + s[i + 1..]
  }

  /** With distinct keys, removing position `i` removes exactly the
      element with that key and keeps every other one. */
  lemma RemoveAtKey<T, K>(s: seq<T>, i: nat, key: T -> K)
    requires i < |s|
    requires forall a, b :: 0 <= a < b < |s| ==> key(s[a]) != key(s[b])
    ensures forall x :: x in RemoveAt(s, i) <==> x in s && key(x) != key(s[i])
  {
    var r := RemoveAt(s, i);
    forall x ensures x in r <==> x in s && key(x) != key(s[i]) {
      if x in r {
        var j :| 0 <= j < |r| && r[j] == x;
        if j < i {
          assert s[j] == x;
        } else {
          assert s[j + 1] == x;
        }
      }
      if x in s && key(x) != key(s[i]) {
        var j :| 0 <= j < |s| && s[j] == x;
        if j < i {
          assert r[j] == x;
        } else {
          assert r[j - 1] == x;
        }
      }
    }
  }

  function Reverse<T>(s: seq<T>): (r: seq<T>)
    ensures |r| == |s|
    ensures forall i :: 0 <= i < |s| ==> r[i] == s[|s| - 1 - i]
  {
    if s == [] then [] else Reverse(s[1..]) + [s[0]]
  }
}
