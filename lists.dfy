/**
 * The two array mutations the game performs, as functions on sequences:
 * `a.splice(i, 1)` and the guarded push `if (!a.includes(x)) a.push(x)`.
 */
module Lists {

  /** No element occurs twice. */
  predicate NoDup<T(==)>(s: seq<T>) {
    forall i, j :: 0 <= i < j < |s| ==> s[i] != s[j]
  }

  /** `s.splice(i, 1)`: drops the element at `i`, keeping all others in
      their order, so exactly one occurrence of `s[i]` goes away. */
  function RemoveAt<T>(s: seq<T>, i: nat): (r: seq<T>)
    requires i < |s|
    ensures |r| == |s| - 1
    ensures forall k :: 0 <= k < i ==> r[k] == s[k]
    ensures forall k :: i <= k < |r| ==> r[k] == s[k + 1]
    ensures multiset(r) + multiset{s[i]} == multiset(s)
  {
    assert s == s[..i] + [s[i]] + s[i + 1..];
    s[..i] + s[i + 1..]
  }

  /** `if (!s.includes(x)) s.push(x)`: afterwards `x` is present, nothing
      else was added, and a list without duplicates stays so. */
  function AddIfAbsent<T(==)>(s: seq<T>, x: T): (r: seq<T>)
    ensures x in r
    ensures |s| <= |r| && r[..|s|] == s
    ensures |r| == if x in s then |s| else |s| + 1
  {
    if x in s then s else s + [x]
  }

  /** A guarded push keeps a list free of duplicates. */
  lemma AddIfAbsentNoDup<T>(s: seq<T>, x: T)
    requires NoDup(s)
    ensures NoDup(AddIfAbsent(s, x))
  {
  }

  /** A second guarded push of the same element changes nothing. */
  lemma AddIfAbsentIdempotent<T>(s: seq<T>, x: T)
    ensures AddIfAbsent(AddIfAbsent(s, x), x) == AddIfAbsent(s, x)
  {
  }

  /** In a list without duplicates, an element that is present occurs
      exactly once. */
  lemma {:induction false} NoDupOccursOnce<T>(s: seq<T>, x: T)
    requires NoDup(s) && x in s
    ensures multiset(s)[x] == 1
  {
    assert s == [s[0]] + s[1..];
    if s[0] == x {
      assert x !in s[1..] by {
        forall k | 0 <= k < |s| - 1 ensures s[1..][k] != x {
          assert s[k + 1] != s[0];
        }
      }
      assert multiset(s[1..])[x] == 0;
    } else {
      NoDupOccursOnce(s[1..], x);
    }
  }
}
