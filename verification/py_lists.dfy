/** The semantics of the Python list operations the card classes rely on:
    `list.index`, `list.pop(i)`, subscription with negative indices, and the
    "no element twice" property under which identity and value equality of
    cards coincide. */
module PyLists {
  import opened Wrappers

  /** No value occurs twice in `s`. */
  ghost predicate Unique<T(!new)>(s: seq<T>) {
    forall x :: multiset(s)[x] <= 1
  }

  /** `list.index(x)`: the first position that holds `x`. */
  function FirstIndex<T(==)>(s: seq<T>, x: T): (i: nat)
    requires x in s
    ensures i < |s| && s[i] == x
    ensures forall j :: 0 <= j < i ==> s[j] != x
  {
    if s[0] == x then 0 else 1 + FirstIndex(s[1..], x)
  }

  /** `list.pop(i)` for a valid non-negative `i`: the list without position `i`. */
  function RemoveAt<T>(s: seq<T>, i: nat): (r: seq<T>)
    requires i < |s|
    ensures |r| == |s| - 1
    ensures forall j :: 0 <= j < i ==> r[j] == s[j]
    ensures forall j :: i <= j < |r| ==> r[j] == s[j + 1]
    ensures multiset(r) + multiset{s[i]} == multiset(s)
  {
    assert s == s[..i] + [s[i]] + s[i + 1..];
    s[..i] + s[i + 1..]
  }

  /** Python subscription of a list of length `n` with index `i`: negative
      indices count from the end; anything outside `-n <= i < n` is an
      IndexError (None). */
  function PyIndex(n: nat, i: int): (r: Option<nat>)
    ensures r.Some? <==> -(n as int) <= i < n
    ensures r.Some? ==> r.value < n
    ensures r.Some? && 0 <= i ==> r.value == i
    ensures r.Some? && i < 0 ==> r.value + (-i) == n
  {
    if 0 <= i < n then Some(i)
    else if -(n as int) <= i < 0 then Some(n + i)
    else None
  }

  /** Removing the first occurrence of `x` from a sequence without
      duplicates leaves no `x` behind. */
  lemma RemoveFirstLeavesNone<T(!new)>(s: seq<T>, x: T)
    requires Unique(s) && x in s
    ensures x !in RemoveAt(s, FirstIndex(s, x))
  {
    var r := RemoveAt(s, FirstIndex(s, x));
    assert multiset(s)[x] <= 1;
    assert multiset(r)[x] + 1 == multiset(s)[x];
  }

  /** A sequence without duplicates has as many distinct elements as
      positions. */
  lemma {:induction false} UniqueElementCount<T(!new)>(s: seq<T>)
    requires Unique(s)
    ensures |set x | x in s| == |s|
  {
    if s != [] {
      var t := s[1..];
      assert s == [s[0]] + t;
      assert multiset(s) == multiset{s[0]} + multiset(t);
      assert Unique(t) by {
        forall y ensures multiset(t)[y] <= 1 {
          assert multiset(s)[y] <= 1;
        }
      }
      assert s[0] !in t by {
        assert multiset(s)[s[0]] <= 1;
      }
      UniqueElementCount(t);
      assert (set x | x in s) == {s[0]} + (set x | x in t);
    }
  }

  /** No sequence has more distinct elements than positions. */
  lemma {:induction false} ElementCountBound<T>(s: seq<T>)
    ensures |set x | x in s| <= |s|
  {
    if s != [] {
      var t := s[1..];
      assert s == [s[0]] + t;
      ElementCountBound(t);
      assert (set x | x in s) == {s[0]} + (set x | x in t);
    }
  }
}
