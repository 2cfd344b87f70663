/**
 * The java.util.Vector operations the containers rely on, on sequences:
 * indexOf, remove by index and remove by element, with the facts that tie
 * removal of an element to filtering it out.
 */
module Vectors {
  /** The first position of x in s, or -1 (Vector.indexOf). */
  function IndexOf<T(==)>(s: seq<T>, x: T): (i: int)
    ensures -1 <= i < |s|
    ensures i == -1 <==> x !in s
    ensures i >= 0 ==> s[i] == x && x !in s[..i]
  {
    if s == [] then -1
    else if s[0] == x then 0
    else
      var j := IndexOf(s[1..], x);
      assert j >= 0 ==> s[1..][..j] == s[1..j + 1];
      if j == -1 then -1 else j + 1
  }

  /** s without its element at k (Vector.remove(int)). */
  function RemoveAt<T>(s: seq<T>, k: nat): seq<T>
    requires k < |s|
  {
    s[..k] + s[k + 1..]
  }

  /** s without the first occurrence of x, if any (Vector.remove(Object)). */
  function RemoveFirst<T(==)>(s: seq<T>, x: T): seq<T>
  {
    var i := IndexOf(s, x);
    if i == -1 then s else RemoveAt(s, i)
  }

  /** The elements of s that are not in d, in order. */
  function Without<T(==)>(s: seq<T>, d: set<T>): seq<T>
  {
    if s == [] then [] else (if s[0] in d then [] else [s[0]]) + Without(s[1..], d)
  }

  ghost predicate Distinct<T>(s: seq<T>)
  {
    forall i, j :: 0 <= i < j < |s| ==> s[i] != s[j]
  }

  lemma {:induction false} WithoutMembers<T>(s: seq<T>, d: set<T>, x: T)
    ensures x in Without(s, d) <==> x in s && x !in d
  {
    if s != [] {
      WithoutMembers(s[1..], d, x);
      assert s == [s[0]] + s[1..];
    }
  }

  lemma HeadNotInTail<T>(s: seq<T>)
    requires Distinct(s) && s != []
    ensures s[0] !in s[1..]
  {
    forall j | 0 <= j < |s[1..]|
      ensures s[1..][j] != s[0]
    {
      assert s[1..][j] == s[j + 1];
    }
  }

  lemma {:induction false} WithoutDistinct<T>(s: seq<T>, d: set<T>)
    requires Distinct(s)
    ensures Distinct(Without(s, d))
  {
    if s != [] {
      WithoutDistinct(s[1..], d);
      WithoutMembers(s[1..], d, s[0]);
      HeadNotInTail(s);
    }
  }

  /** In a list without repeats, removing the first occurrence of x removes x and keeps the rest in order. */
  lemma {:induction false} RemoveFirstWithout<T>(s: seq<T>, x: T)
    requires Distinct(s)
    ensures RemoveFirst(s, x) == Without(s, {x})
  {
    if s != [] {
      if s[0] == x {
        HeadNotInTail(s);
        NoneRemoved(s[1..], {x});
      } else {
        RemoveFirstWithout(s[1..], x);
        var j := IndexOf(s[1..], x);
        if j != -1 {
          assert RemoveAt(s, j + 1) == [s[0]] + RemoveAt(s[1..], j);
        }
      }
    }
  }

  lemma {:induction false} NoneRemoved<T>(s: seq<T>, d: set<T>)
    requires forall k :: 0 <= k < |s| ==> s[k] !in d
    ensures Without(s, d) == s
  {
    if s != [] {
      NoneRemoved(s[1..], d);
      assert s == [s[0]] + s[1..];
    }
  }
}
