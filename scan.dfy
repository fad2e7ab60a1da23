/** The running-minimum scan shared by the best-time search and the global sampler: start
    from an initial candidate and replace it only on a strictly lower price, so the first
    minimum in scan order wins ties. */
module Scan {

  /** One candidate price: the price, the hour it applies at, and whatever else the scan keeps
      with it (the user id in the sampler, nothing in the best-time search). */
  datatype Quote<U> = Quote(price: int, hour: int, tag: U)

  /** The best candidate after scanning qs in order, starting from init. */
  function Cheapest<U>(init: Quote<U>, qs: seq<Quote<U>>): (q: Quote<U>)
    ensures q.price <= init.price
    ensures forall j :: 0 <= j < |qs| ==> q.price <= qs[j].price
    ensures q == init || q in qs
    decreases |qs|
  {
    if qs == [] then init
    else
      var prefix := qs[..|qs| - 1];
      var best := Cheapest(init, prefix);
      assert forall j :: 0 <= j < |prefix| ==> prefix[j] == qs[j];
      if qs[|qs| - 1].price < best.price then qs[|qs| - 1] else best
  }

  /** q is the minimum of init followed by qs, and the first one in that order: it is init
      when nothing in qs is strictly cheaper, and otherwise the first element of qs that is
      strictly cheaper than everything before it. */
  ghost predicate IsFirstMinimum<U>(init: Quote<U>, qs: seq<Quote<U>>, q: Quote<U>)
  {
    && q.price <= init.price
    && (forall j :: 0 <= j < |qs| ==> q.price <= qs[j].price)
    && ((q == init && forall j :: 0 <= j < |qs| ==> init.price <= qs[j].price)
        || exists k :: 0 <= k < |qs| && q == qs[k] && q.price < init.price
                       && forall j :: 0 <= j < k ==> q.price < qs[j].price)
  }

  lemma {:induction false} CheapestIsFirstMinimum<U>(init: Quote<U>, qs: seq<Quote<U>>)
    ensures IsFirstMinimum(init, qs, Cheapest(init, qs))
    decreases |qs|
  {
    if qs != [] {
      var n := |qs| - 1;
      var prefix := qs[..n];
      assert forall j :: 0 <= j < n ==> prefix[j] == qs[j];
      CheapestIsFirstMinimum(init, prefix);
      var best := Cheapest(init, prefix);
      if qs[n].price < best.price {
        assert forall j :: 0 <= j < n ==> qs[n].price < qs[j].price;
      } else if best != init {
        var k :| 0 <= k < n && best == prefix[k] && best.price < init.price
                 && forall j :: 0 <= j < k ==> best.price < prefix[j].price;
        assert best == qs[k];
      }
    }
  }

  /** At most one candidate is the first minimum, so IsFirstMinimum specifies the scan completely. */
  lemma FirstMinimumIsUnique<U>(init: Quote<U>, qs: seq<Quote<U>>, q1: Quote<U>, q2: Quote<U>)
    requires IsFirstMinimum(init, qs, q1) && IsFirstMinimum(init, qs, q2)
    ensures q1 == q2
  {
    if q1 != init && q2 != init {
      var k1 :| 0 <= k1 < |qs| && q1 == qs[k1] && q1.price < init.price
                && forall j :: 0 <= j < k1 ==> q1.price < qs[j].price;
      var k2 :| 0 <= k2 < |qs| && q2 == qs[k2] && q2.price < init.price
                && forall j :: 0 <= j < k2 ==> q2.price < qs[j].price;
      assert k1 == k2;
    }
  }

  /** Scanning one more candidate: it replaces the best so far only when strictly cheaper. */
  lemma CheapestAppend<U>(init: Quote<U>, qs: seq<Quote<U>>, q: Quote<U>)
    ensures Cheapest(init, qs + [q])
         == if q.price < Cheapest(init, qs).price then q else Cheapest(init, qs)
  {
    assert (qs + [q])[..|qs|] == qs;
  }

}
