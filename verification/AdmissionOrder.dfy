/**
 The order in which one admission call considers its candidates: longest accumulated
 wait first, equal waits in ascending key order (src/agents/admission.ts).
 */
module AdmissionOrder {

  type Id = string
  type Waits = map<Id, nat>

  // ---------- the comparator ----------

  /** The comparison a < b || a == b on strings, character by character. */
  predicate KeyLe(a: string, b: string) {
    a == [] || (b != [] && (a[0] < b[0] || (a[0] == b[0] && KeyLe(a[1..], b[1..]))))
  }

  lemma {:induction false} KeyLeReflexive(a: string)
    ensures KeyLe(a, a)
  {
    if a != [] {
      KeyLeReflexive(a[1..]);
    }
  }

  lemma {:induction false} KeyLeTotal(a: string, b: string)
    ensures KeyLe(a, b) || KeyLe(b, a)
  {
    if a != [] && b != [] {
      KeyLeTotal(a[1..], b[1..]);
    }
  }

  lemma {:induction false} KeyLeAntisymmetric(a: string, b: string)
    requires KeyLe(a, b) && KeyLe(b, a)
    ensures a == b
  {
    if a != [] && b != [] {
      KeyLeAntisymmetric(a[1..], b[1..]);
      assert a == [a[0]] + a[1..] && b == [b[0]] + b[1..];
    }
  }

  lemma {:induction false} KeyLeTransitive(a: string, b: string, c: string)
    requires KeyLe(a, b) && KeyLe(b, c)
    ensures KeyLe(a, c)
  {
    if a != [] && a[0] == b[0] == c[0] {
      KeyLeTransitive(a[1..], b[1..], c[1..]);
    }
  }

  function WaitOf(waits: Waits, id: Id): nat {
    if id in waits then waits[id] else 0
  }

  /** a may stand before b: a has waited longer, or as long and has the smaller key. */
  predicate Precedes(waits: Waits, a: Id, b: Id) {
    WaitOf(waits, a) > WaitOf(waits, b)
    || (WaitOf(waits, a) == WaitOf(waits, b) && KeyLe(a, b))
  }

  lemma PrecedesTotal(waits: Waits, a: Id, b: Id)
    ensures Precedes(waits, a, b) || Precedes(waits, b, a)
  {
    KeyLeTotal(a, b);
  }

  lemma PrecedesAntisymmetric(waits: Waits, a: Id, b: Id)
    requires Precedes(waits, a, b) && Precedes(waits, b, a)
    ensures a == b
  {
    KeyLeAntisymmetric(a, b);
  }

  lemma PrecedesTransitive(waits: Waits, a: Id, b: Id, c: Id)
    requires Precedes(waits, a, b) && Precedes(waits, b, c)
    ensures Precedes(waits, a, c)
  {
    if WaitOf(waits, a) == WaitOf(waits, b) == WaitOf(waits, c) {
      KeyLeTransitive(a, b, c);
    }
  }

  // ---------- the sort ----------

  ghost predicate Ordered(ids: seq<Id>, waits: Waits) {
    forall i, j :: 0 <= i < j < |ids| ==> Precedes(waits, ids[i], ids[j])
  }

  function Insert(id: Id, ids: seq<Id>, waits: Waits): seq<Id> {
    if ids == [] || Precedes(waits, id, ids[0]) then [id] + ids
    else [ids[0]] + Insert(id, ids[1..], waits)
  }

  /** The source's `[...candidates].sort(comparator)`. */
  function OrderByWait(candidates: seq<Id>, waits: Waits): seq<Id> {
    if candidates == [] then []
    else Insert(candidates[0], OrderByWait(candidates[1..], waits), waits)
  }

  lemma {:induction false} InsertKeepsCounts(id: Id, ids: seq<Id>, waits: Waits)
    ensures multiset(Insert(id, ids, waits)) == multiset(ids) + multiset{id}
  {
    if ids != [] && !Precedes(waits, id, ids[0]) {
      InsertKeepsCounts(id, ids[1..], waits);
      assert ids == [ids[0]] + ids[1..];
    }
  }

  lemma {:induction false} InsertSorts(id: Id, ids: seq<Id>, waits: Waits)
    requires Ordered(ids, waits)
    ensures Ordered(Insert(id, ids, waits), waits)
  {
    if ids == [] {
    } else if Precedes(waits, id, ids[0]) {
      forall k | 0 <= k < |ids| ensures Precedes(waits, id, ids[k]) {
        if k > 0 { PrecedesTransitive(waits, id, ids[0], ids[k]); }
      }
    } else {
      PrecedesTotal(waits, id, ids[0]);
      var rest := Insert(id, ids[1..], waits);
      InsertSorts(id, ids[1..], waits);
      InsertKeepsCounts(id, ids[1..], waits);
      hide Precedes, KeyLe;
      forall k | 0 <= k < |rest| ensures Precedes(waits, ids[0], rest[k]) {
        assert rest[k] in multiset(rest);
        assert rest[k] == id || rest[k] in ids[1..];
      }
    }
  }

  /** The sort returns the same candidates, each as often as it was offered, in order. */
  lemma {:induction false} OrderByWaitSorts(candidates: seq<Id>, waits: Waits)
    ensures Ordered(OrderByWait(candidates, waits), waits)
    ensures multiset(OrderByWait(candidates, waits)) == multiset(candidates)
  {
    if candidates != [] {
      OrderByWaitSorts(candidates[1..], waits);
      var rest := OrderByWait(candidates[1..], waits);
      InsertSorts(candidates[0], rest, waits);
      InsertKeepsCounts(candidates[0], rest, waits);
      assert candidates == [candidates[0]] + candidates[1..];
    }
  }

  lemma OrderByWaitMembers(candidates: seq<Id>, waits: Waits)
    ensures forall id :: id in OrderByWait(candidates, waits) <==> id in candidates
    ensures |OrderByWait(candidates, waits)| == |candidates|
  {
    OrderByWaitSorts(candidates, waits);
    var ordered := OrderByWait(candidates, waits);
    forall id ensures id in ordered <==> id in candidates {
      assert id in ordered <==> id in multiset(ordered);
      assert id in candidates <==> id in multiset(candidates);
    }
    assert |multiset(ordered)| == |multiset(candidates)|;
  }

  lemma FirstPrecedes(a: seq<Id>, id: Id, waits: Waits)
    requires Ordered(a, waits) && id in a
    ensures Precedes(waits, a[0], id)
  {
    KeyLeReflexive(id);
  }

  /** No other arrangement is in order: equal waits leave the sort no choice. */
  lemma {:induction false} OrderIsUnique(a: seq<Id>, b: seq<Id>, waits: Waits)
    requires multiset(a) == multiset(b)
    requires Ordered(a, waits) && Ordered(b, waits)
    ensures a == b
  {
    assert |a| == |multiset(a)| == |multiset(b)| == |b|;
    if a != [] {
      assert b[0] in a && a[0] in b by {
        assert b[0] in multiset(b) && a[0] in multiset(a);
      }
      FirstPrecedes(a, b[0], waits);
      FirstPrecedes(b, a[0], waits);
      PrecedesAntisymmetric(waits, a[0], b[0]);
      TailMultiset(a);
      TailMultiset(b);
      OrderIsUnique(a[1..], b[1..], waits);
      assert a == [a[0]] + a[1..] && b == [b[0]] + b[1..];
    }
  }

  lemma TailMultiset(a: seq<Id>)
    requires a != []
    ensures multiset(a[1..]) == multiset(a) - multiset{a[0]}
  {
    assert a == [a[0]] + a[1..];
  }

  /** With every wait equal the arrangement is the plain key order, as before aging existed. */
  lemma EqualWaitsKeepKeyOrder(candidates: seq<Id>, waits: Waits)
    requires forall a, b :: a in candidates && b in candidates ==> WaitOf(waits, a) == WaitOf(waits, b)
    requires forall i, j :: 0 <= i < j < |candidates| ==> KeyLe(candidates[i], candidates[j])
    ensures OrderByWait(candidates, waits) == candidates
  {
    OrderByWaitSorts(candidates, waits);
    OrderIsUnique(OrderByWait(candidates, waits), candidates, waits);
  }
}
