/** The array updates the handlers apply to id lists (followers, following,
    likedBlogs, likes): `$addToSet`, `push` and
    `$pull` / `filter`. */
module ArrayOps {
  import opened Types

  /** No element occurs twice. */
  predicate NoDup(s: seq<Id>)
  {
    forall i, j :: 0 <= i < j < |s| ==> s[i] != s[j]
  }

  /** Mongo `$addToSet`: append `x` unless it is already present. */
  function AddToSet(s: seq<Id>, x: Id): (r: seq<Id>)
    ensures forall y :: y in r <==> y in s || y == x
    ensures x in s ==> r == s
    ensures |r| <= |s| + 1
    ensures NoDup(s) ==> NoDup(r)
  {
    if x in s then s else s + [x]
  }

  /** Mongo `$pull` and `Array.filter(y => y != x)`: drop every occurrence of
      `x`, keep the other elements in their order. */
  function Pull(s: seq<Id>, x: Id): (r: seq<Id>)
    ensures forall y :: y in r <==> y in s && y != x
    ensures x !in s ==> r == s
    ensures |r| <= |s|
    ensures NoDup(s) ==> NoDup(r)
    ensures multiset(r) == multiset(s)[x := 0]
  {
    if s == [] then []
    else if s[0] == x then
      assert s == [s[0]] + s[1..];
      Pull(s[1..], x)
    else
      NoDupTail(s);
      NoDupCons(s[0], Pull(s[1..], x));
      assert s == [s[0]] + s[1..];
      [s[0]] + Pull(s[1..], x)
  }

  lemma NoDupTail(s: seq<Id>)
    requires s != []
    ensures NoDup(s) ==> NoDup(s[1..]) && s[0] !in s[1..]
  {
  }

  lemma NoDupCons(a: Id, r: seq<Id>)
    ensures NoDup(r) && a !in r ==> NoDup([a] + r)
  {
    if NoDup(r) && a !in r {
      forall i, j | 0 <= i < j < |[a] + r| ensures ([a] + r)[i] != ([a] + r)[j] {
        if i > 0 {
          assert ([a] + r)[i] == r[i - 1] && ([a] + r)[j] == r[j - 1];
        } else {
          assert ([a] + r)[j] == r[j - 1];
        }
      }
    }
  }

  /** `$pull` works element by element, so it distributes over concatenation. */
  lemma {:induction false} PullConcat(a: seq<Id>, b: seq<Id>, x: Id)
    ensures Pull(a + b, x) == Pull(a, x) + Pull(b, x)
  {
    if a == [] {
      assert a + b == b;
    } else {
      assert (a + b)[1..] == a[1..] + b;
      PullConcat(a[1..], b, x);
    }
  }

  /** Pushing an absent element and then pulling it restores the list exactly. */
  lemma PullAfterPush(s: seq<Id>, x: Id)
    requires x !in s
    ensures Pull(s + [x], x) == s
  {
    PullConcat(s, [x], x);
    assert Pull([x], x) == [];
  }

  /** Pulling `x` out of `a + [x] + b` leaves the others in their original
      order, whatever surrounds the removed element. */
  lemma PullKeepsOrder(a: seq<Id>, b: seq<Id>, x: Id)
    requires x !in a && x !in b
    ensures Pull(a + [x] + b, x) == a + b
  {
    PullConcat(a + [x], b, x);
    PullAfterPush(a, x);
  }
}
