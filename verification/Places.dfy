/** Picking some places of a list, in order. */
module Places {

  /** A strictly increasing list of places below n. */
  ghost predicate InOrder(places: seq<nat>, n: nat) {
    && (forall p | 0 <= p < |places| :: places[p] < n)
    && (forall p, q | 0 <= p < q < |places| :: places[p] < places[q])
  }

  lemma InOrderThen(places: seq<nat>, n: nat)
    requires InOrder(places, n)
    ensures InOrder(places, n + 1) && InOrder(places + [n], n + 1)
  {
  }
}
