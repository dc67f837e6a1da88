/** The session list update performed after a confirmed remote delete:
    `prev.filter(s => s !== id)`. */
module Registry {
  import opened ChatTypes

  /** Keeps, in their original order, the session ids different from `id`. */
  function Without(s: seq<SessionId>, id: SessionId): (r: seq<SessionId>)
    ensures forall x :: x in r <==> x in s && x != id
    ensures |r| <= |s|
  {
    if s == [] then []
    else (if s[0] == id then [] else [s[0]]) + Without(s[1..], id)
  }

  /** No id occurs twice. */
  predicate Distinct(s: seq<SessionId>)
  {
    forall i, j :: 0 <= i < j < |s| ==> s[i] != s[j]
  }

  /** The filter works element by element and keeps the relative order: it
      distributes over concatenation. */
  lemma {:induction false} WithoutConcat(a: seq<SessionId>, b: seq<SessionId>, id: SessionId)
    ensures Without(a + b, id) == Without(a, id) + Without(b, id)
  {
    if a == [] {
      assert a + b == b;
    } else {
      assert (a + b)[1..] == a[1..] + b;
      WithoutConcat(a[1..], b, id);
    }
  }

  /** Every occurrence of `id` is removed and every other id keeps its
      number of occurrences. */
  lemma {:induction false} WithoutCounts(s: seq<SessionId>, id: SessionId)
    ensures multiset(Without(s, id)) == multiset(s)[id := 0]
  {
    if s != [] {
      WithoutCounts(s[1..], id);
      assert s == [s[0]] + s[1..];
    }
  }

  /** Deleting an id the list does not hold leaves the list as it was. */
  lemma {:induction false} WithoutAbsent(s: seq<SessionId>, id: SessionId)
    requires id !in s
    ensures Without(s, id) == s
  {
    if s != [] {
      WithoutAbsent(s[1..], id);
      assert s == [s[0]] + s[1..];
    }
  }

  /** A list without duplicates stays without duplicates, and then exactly
      one element goes when the id was present. */
  lemma {:induction false} WithoutDistinct(s: seq<SessionId>, id: SessionId)
    requires Distinct(s)
    ensures Distinct(Without(s, id))
    ensures |Without(s, id)| == if id in s then |s| - 1 else |s|
  {
    if s != [] {
      var tail := s[1..];
      assert Distinct(tail) by {
        forall i, j | 0 <= i < j < |tail| ensures tail[i] != tail[j] {
          assert tail[i] == s[i + 1] && tail[j] == s[j + 1];
        }
      }
      assert s[0] !in tail;
      WithoutDistinct(tail, id);
      var rest := Without(tail, id);
      if s[0] != id {
        DistinctCons(s[0], rest);
        assert id in s <==> id in tail;
      }
    }
  }

  /** Putting an id in front of a list without duplicates that does not hold
      it gives a list without duplicates. */
  lemma DistinctCons(x: SessionId, s: seq<SessionId>)
    requires Distinct(s) && x !in s
    ensures Distinct([x] + s)
  {
  }
}
