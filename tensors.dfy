/**
 * Dense tensors as values: a shape and the elements in row-major order,
 * with the shape bookkeeping the sampler and the measurement operators use
 * (`unsqueeze(0)`, `squeeze(0)`, rank-3 promotion and batch-1 squeezing).
 */
module Tensors {

  /** The number of elements of a tensor of this shape. */
  function Product(shape: seq<nat>): nat {
    if shape == [] then 1 else shape[0] * Product(shape[1..])
  }

  datatype Tensor = Tensor(shape: seq<nat>, data: seq<real>) {
    predicate Valid() {
      |data| == Product(shape)
    }

    function Rank(): nat {
      |shape|
    }
  }

  lemma ProductCons(d: nat, shape: seq<nat>)
    ensures Product([d] + shape) == d * Product(shape)
  {
    assert ([d] + shape)[1..] == shape;
  }

  /** `t.unsqueeze(0)`: a new leading dimension of size 1, the same elements. */
  function Unsqueeze0(t: Tensor): (r: Tensor)
    ensures r.shape == [1] + t.shape && r.data == t.data
    ensures r.Valid() <==> t.Valid()
  {
    ProductCons(1, t.shape);
    Tensor([1] + t.shape, t.data)
  }

  /** `t.squeeze(0)`: drops a leading dimension of size 1; any other tensor is returned as it is. */
  function Squeeze0(t: Tensor): (r: Tensor)
    ensures r.data == t.data
    ensures |t.shape| > 0 && t.shape[0] == 1 ==> [1] + r.shape == t.shape
    ensures !(|t.shape| > 0 && t.shape[0] == 1) ==> r == t
    ensures t.Valid() ==> r.Valid()
  {
    if |t.shape| > 0 && t.shape[0] == 1 then
      ProductCons(1, t.shape[1..]);
      assert [1] + t.shape[1..] == t.shape;
      Tensor(t.shape[1..], t.data)
    else
      t
  }

  /** `if len(t.shape) == 3: t = t.unsqueeze(0)`: an unbatched image gets a batch of one. */
  function Promote(t: Tensor): (r: Tensor)
    ensures r.data == t.data
    ensures t.Rank() == 3 ==> r.shape == [1] + t.shape
    ensures t.Rank() != 3 ==> r == t
    ensures r.Valid() <==> t.Valid()
  {
    if t.Rank() == 3 then Unsqueeze0(t) else t
  }

  /** `t.squeeze(0) if len(t.shape) == 4 and t.shape[0] == 1 else t` */
  function Demote(t: Tensor): (r: Tensor)
    ensures r.data == t.data
    ensures t.Rank() == 4 && t.shape[0] == 1 ==> r.shape == t.shape[1..]
    ensures !(t.Rank() == 4 && t.shape[0] == 1) ==> r == t
    ensures t.Valid() ==> r.Valid()
  {
    if t.Rank() == 4 && t.shape[0] == 1 then Squeeze0(t) else t
  }

  /** `if len(t.shape) != 4: t = t.unsqueeze(0)`, the sampler's normalisation of measurements. */
  function Batch4(t: Tensor): (r: Tensor)
    ensures r.data == t.data
    ensures t.Rank() != 4 ==> r.shape == [1] + t.shape
    ensures t.Rank() == 4 ==> r == t
    ensures r.Valid() <==> t.Valid()
  {
    if t.Rank() != 4 then Unsqueeze0(t) else t
  }

  /** An unbatched image comes back unchanged from promotion and squeezing,
      and a batch of one comes back from squeezing and promotion. */
  lemma PromoteDemoteRoundTrip(t: Tensor)
    ensures t.Rank() == 3 ==> Demote(Promote(t)) == t
    ensures t.Rank() == 4 && t.shape[0] == 1 ==> Promote(Demote(t)) == t
  {
    if t.Rank() == 3 {
      assert ([1] + t.shape)[1..] == t.shape;
    }
    if t.Rank() == 4 && t.shape[0] == 1 {
      assert [1] + t.shape[1..] == t.shape;
    }
  }

  /** Elementwise `a - b` over equal-length element lists. */
  function Diff(a: seq<real>, b: seq<real>): (r: seq<real>)
    requires |a| == |b|
    ensures |r| == |a| && forall i :: 0 <= i < |a| ==> r[i] == a[i] - b[i]
  {
    seq(|a|, i requires 0 <= i < |a| => a[i] - b[i])
  }

  /** A tensor whose elements are all zero. */
  predicate AllZero(v: seq<real>) {
    forall i :: 0 <= i < |v| ==> v[i] == 0.0
  }
}
