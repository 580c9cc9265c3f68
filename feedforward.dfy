/** The arithmetic both evaluation paths share, stated on values: a neuron
    adds its bias and then each input times its weight, in input order, and
    passes the total through the activation function; a layer does this for
    each of its neurons; a net does it layer after layer.

    The activation is the logistic function 1 / (1 + e^-x) in the source.
    Dafny's reals have no exponential, so every member that applies it takes
    it as the parameter `sigmoid`; what is proved holds for every choice. */
module FeedForward {

  /** What a neuron contributes to the computation: its bias and the weights
      of its inputs, in input order. */
  datatype NeuronParams = NeuronParams(bias: real, weights: seq<real>)

  /** The running total of a neuron after its first k inputs: the bias
      first, then xs[i] * ws[i] added for i = 0, 1, ..., k - 1 in that order. */
  function PartialSum(bias: real, xs: seq<real>, ws: seq<real>, k: nat): real
    requires k <= |xs| == |ws|
  {
    if k == 0 then bias else PartialSum(bias, xs, ws, k - 1) + xs[k - 1] * ws[k - 1]
  }

  /** The running total of a neuron over all of its inputs. */
  function WeightedSum(bias: real, xs: seq<real>, ws: seq<real>): real
    requires |xs| == |ws|
  {
    PartialSum(bias, xs, ws, |xs|)
  }

  /** Reference definition of the inner product, summed from the front. */
  function Dot(xs: seq<real>, ws: seq<real>): real
    requires |xs| == |ws|
  {
    if |xs| == 0 then 0.0 else xs[0] * ws[0] + Dot(xs[1..], ws[1..])
  }

  lemma {:induction false} DotSnoc(xs: seq<real>, ws: seq<real>)
    requires |xs| == |ws| > 0
    ensures Dot(xs, ws) == Dot(xs[..|xs| - 1], ws[..|ws| - 1]) + xs[|xs| - 1] * ws[|ws| - 1]
  {
    if |xs| > 1 {
      DotSnoc(xs[1..], ws[1..]);
      assert xs[1..][..|xs| - 2] == xs[..|xs| - 1][1..];
      assert ws[1..][..|ws| - 2] == ws[..|ws| - 1][1..];
    }
  }

  /** The accumulation order changes nothing over the reals: the running
      total after k inputs is the bias plus the inner product of the first k
      inputs and weights. */
  lemma {:induction false} PartialSumIsBiasPlusDot(bias: real, xs: seq<real>, ws: seq<real>, k: nat)
    requires k <= |xs| == |ws|
    ensures PartialSum(bias, xs, ws, k) == bias + Dot(xs[..k], ws[..k])
  {
    if k > 0 {
      PartialSumIsBiasPlusDot(bias, xs, ws, k - 1);
      DotSnoc(xs[..k], ws[..k]);
      assert xs[..k][..k - 1] == xs[..k - 1];
      assert ws[..k][..k - 1] == ws[..k - 1];
    }
  }

  lemma WeightedSumIsBiasPlusDot(bias: real, xs: seq<real>, ws: seq<real>)
    requires |xs| == |ws|
    ensures WeightedSum(bias, xs, ws) == bias + Dot(xs, ws)
  {
    PartialSumIsBiasPlusDot(bias, xs, ws, |xs|);
    assert xs[..|xs|] == xs && ws[..|ws|] == ws;
  }

  /** A neuron's activation for the inputs xs. */
  function Activate(sigmoid: real -> real, n: NeuronParams, xs: seq<real>): real
    requires |n.weights| == |xs|
  {
    sigmoid(WeightedSum(n.bias, xs, n.weights))
  }

  /** Every neuron of the layer has one weight per value in its input. */
  predicate LayerFits(width: nat, layer: seq<NeuronParams>)
  {
    forall j :: 0 <= j < |layer| ==> |layer[j].weights| == width
  }

  /** The outputs of one layer: neuron j's activation, in neuron order. */
  function LayerOutput(sigmoid: real -> real, layer: seq<NeuronParams>, xs: seq<real>): seq<real>
    requires LayerFits(|xs|, layer)
  {
    seq(|layer|, j requires 0 <= j < |layer| => Activate(sigmoid, layer[j], xs))
  }

  /** A sequence holding each neuron's activation, in neuron order, is the
      layer's output. */
  lemma {:induction false} LayerOutputOfEach(sigmoid: real -> real, layer: seq<NeuronParams>, xs: seq<real>, ys: seq<real>)
    requires LayerFits(|xs|, layer) && |ys| == |layer|
    requires forall j :: 0 <= j < |layer| ==> ys[j] == Activate(sigmoid, layer[j], xs)
    ensures ys == LayerOutput(sigmoid, layer, xs)
  {
  }

  /** The layers fit an input of the given width: layer 0 reads the input,
      every later layer reads the layer before it. */
  predicate Fits(width: nat, layers: seq<seq<NeuronParams>>)
  {
    forall k {:trigger LayerFits(InputWidth(width, layers, k), layers[k])} ::
      0 <= k < |layers| ==> LayerFits(InputWidth(width, layers, k), layers[k])
  }

  /** How many values layer k reads. */
  function InputWidth(width: nat, layers: seq<seq<NeuronParams>>, k: nat): nat
    requires k < |layers|
  {
    if k == 0 then width else |layers[k - 1]|
  }

  lemma {:induction false} FitsPrefix(width: nat, layers: seq<seq<NeuronParams>>, k: nat)
    requires Fits(width, layers) && k <= |layers|
    ensures Fits(width, layers[..k])
  {
    forall m | 0 <= m < k
      ensures LayerFits(InputWidth(width, layers[..k], m), layers[..k][m])
    {
      assert LayerFits(InputWidth(width, layers, m), layers[m]);
    }
  }

  /** A strict left-to-right pass: each layer reads the outputs of the one
      before it. With no layers the input is returned unchanged. */
  function Forward(sigmoid: real -> real, xs: seq<real>, layers: seq<seq<NeuronParams>>): (ys: seq<real>)
    requires Fits(|xs|, layers)
    ensures |ys| == if layers == [] then |xs| else |layers[|layers| - 1]|
  {
    if layers == [] then xs
    else
      var n := |layers|;
      FitsPrefix(|xs|, layers, n - 1);
      assert LayerFits(InputWidth(|xs|, layers, n - 1), layers[n - 1]);
      LayerOutput(sigmoid, layers[n - 1], Forward(sigmoid, xs, layers[..n - 1]))
  }

  /** Adding a layer at the end applies that layer to the previous result. */
  lemma {:induction false} ForwardStep(sigmoid: real -> real, xs: seq<real>, layers: seq<seq<NeuronParams>>, k: nat)
    requires Fits(|xs|, layers) && k < |layers|
    ensures Fits(|xs|, layers[..k]) && Fits(|xs|, layers[..k + 1])
    ensures LayerFits(|Forward(sigmoid, xs, layers[..k])|, layers[k])
    ensures Forward(sigmoid, xs, layers[..k + 1]) == LayerOutput(sigmoid, layers[k], Forward(sigmoid, xs, layers[..k]))
  {
    FitsPrefix(|xs|, layers, k);
    FitsPrefix(|xs|, layers, k + 1);
    assert layers[..k + 1][..k] == layers[..k];
    assert LayerFits(InputWidth(|xs|, layers, k), layers[k]);
  }
}
