/** How the engines store vertex weights. Both engines exist in two
    copies that differ here: the current one keeps `Option<Vec<f64>>`, the
    earlier one a vector kept zero-filled when unweighted plus a separate
    `weighted` flag. */
module WeightStore {
  import opened Base

  /** `Optional(w)`: weighted exactly when `w` is `Some`. `Flagged(ws, on)`:
      the earlier layout, weighted exactly when `on`. */
  datatype Weights = Optional(w: Option<seq<real>>) | Flagged(ws: seq<real>, on: bool)

  /** Whether a weight store makes the structure weighted. */
  predicate WeightedStore(ws: Weights) {
    match ws
    case Optional(w) => w.Some?
    case Flagged(_, on) => on
  }

  /** The weight `height` subtracts; indexing the stored weights panics past
      their end. */
  function WeightOf(ws: Weights, i: nat): (r: Result<real>)
    ensures r.Err? ==> r.IsPanic()
    ensures ws == Optional(None) ==> r == Ok(0.0)
    ensures ws.Optional? && ws.w.Some? ==> (r.Ok? <==> i < |ws.w.value|)
    ensures ws.Flagged? ==> (r.Ok? <==> i < |ws.ws|)
  {
    match ws
    case Optional(None) => Ok(0.0)
    case Optional(Some(w)) => if i < |w| then Ok(w[i]) else Crash("index out of bounds: weights")
    case Flagged(w, _) => if i < |w| then Ok(w[i]) else Crash("index out of bounds: weights")
  }

  function Zeros(n: nat): (r: seq<real>)
    ensures |r| == n && forall k :: 0 <= k < n ==> r[k] == 0.0
  {
    seq(n, _ => 0.0)
  }

  /** The weight store after `insert_vertex` pushed the weight of a new
      vertex: nothing is kept for an unweighted `Optional` store, and a
      missing weight counts as zero. */
  function PushWeight(ws: Weights, weight: Option<real>): (r: Weights)
    ensures r.Optional? <==> ws.Optional?
    ensures ws == Optional(None) ==> r == ws
    ensures ws.Optional? && ws.w.Some? ==> r == Optional(Some(ws.w.value + [weight.GetOr(0.0)]))
    ensures ws.Flagged? ==> r == Flagged(ws.ws + [weight.GetOr(0.0)], ws.on)
  {
    match ws
    case Optional(None) => ws
    case Optional(Some(w)) => Optional(Some(w + [weight.GetOr(0.0)]))
    case Flagged(w, on) => Flagged(w + [weight.GetOr(0.0)], on)
  }

  /** The weight store after `insert_vertices`: the `Optional` store is
      replaced by the batch's weights; the earlier copy stores the batch's
      weights or zeros for the batch, and once weighted stays weighted. */
  function BatchWeights(ws: Weights, weights: Option<seq<real>>, n: nat): (r: Weights)
    ensures r.Optional? <==> ws.Optional?
    ensures ws.Optional? ==> r == Optional(weights)
    ensures WeightedStore(r) <==> weights.Some? || (ws.Flagged? && ws.on)
    ensures ws.Flagged? && weights.None? ==> r == Flagged(Zeros(n), ws.on)
  {
    match ws
    case Optional(_) => Optional(weights)
    case Flagged(_, on) => Flagged(if weights.Some? then weights.value else Zeros(n), on || weights.Some?)
  }
}
