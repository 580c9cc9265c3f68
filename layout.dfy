/** The two layouts in which the parameters of a net travel as flat vectors,
    and the counts that size them.

    Graph form (the vector-loading constructor): one vector holding, for every
    layer after the first, for every neuron in order, the bias followed by one
    weight per neuron of the previous layer.

    Flat form (ThinkFast): two vectors, all biases layer by layer and neuron by
    neuron, and all weights layer by layer, neuron by neuron, input by input.
    There the layer sizes start after the input layer, whose width is the
    length of the input vector. */
module Layout {
  import opened FeedForward

  predicate Positive(s: seq<int>)
  {
    forall k :: 0 <= k < |s| ==> s[k] >= 1
  }

  lemma {:induction false} PositivePrefix(s: seq<int>, k: nat)
    requires Positive(s) && k <= |s|
    ensures Positive(s[..k])
  {
    forall m | 0 <= m < k ensures s[..k][m] >= 1 {
      assert s[..k][m] == s[m];
    }
  }

  // Three facts about slicing, stated once so that the proofs below can call
  // them instead of rediscovering them.

  lemma {:induction false} TakeDrop<T>(s: seq<T>, k: nat)
    requires k <= |s|
    ensures s == s[..k] + s[k..]
  {
  }

  lemma {:induction false} FrontLast<T>(s: seq<T>)
    requires s != []
    ensures s == s[..|s| - 1] + [s[|s| - 1]]
  {
  }

  lemma {:induction false} AppendTakeDrop<T>(x: seq<T>, y: seq<T>)
    ensures (x + y)[..|x|] == x && (x + y)[|x|..] == y
  {
  }

  lemma {:induction false} TakeAll<T>(s: seq<T>)
    ensures s[..|s|] == s
  {
  }

  lemma {:induction false} TakeTake<T>(s: seq<T>, a: nat, b: nat)
    requires b <= a <= |s|
    ensures s[..a][..b] == s[..b]
  {
  }

  lemma {:induction false} DropOfTake<T>(s: seq<T>, a: nat, b: nat)
    requires b <= a <= |s|
    ensures s[..a][b..] == s[b..a]
  {
  }

  lemma {:induction false} TakeOfAppend<T>(x: seq<T>, y: seq<T>, k: nat)
    requires k <= |x|
    ensures (x + y)[..k] == x[..k]
  {
  }

  lemma {:induction false} TakeOfSnoc<T>(front: seq<T>, last: T)
    ensures (front + [last])[..|front|] == front && (front + [last])[|front|] == last
  {
  }

  /** The sum of the layer sizes, as LINQ's Sum computes it: one bias per
      neuron, so at least one per layer. */
  function Sum(s: seq<int>): (r: int)
    ensures Positive(s) ==> r >= |s|
  {
    if s == [] then 0
    else
      PositivePrefixIf(s);
      Sum(s[..|s| - 1]) + s[|s| - 1]
  }

  lemma {:induction false} PositivePrefixIf(s: seq<int>)
    requires s != []
    ensures Positive(s) ==> Positive(s[..|s| - 1])
  {
    if Positive(s) { PositivePrefix(s, |s| - 1); }
  }

  /** How many values layer k of the flat form reads: the input vector for
      k = 0, the previous layer otherwise. */
  function Width(inputCount: int, sizes: seq<int>, k: int): int
    requires 0 <= k < |sizes|
  {
    if k == 0 then inputCount else sizes[k - 1]
  }

  /** The number of weights ThinkFast needs: each layer's size times the width
      of what it reads. */
  function ExpectedWeights(inputCount: int, sizes: seq<int>): (r: int)
    ensures inputCount >= 0 && Positive(sizes) ==> r >= 0
  {
    if sizes == [] then 0
    else
      var n := |sizes| - 1;
      PositivePrefixIf(sizes);
      ExpectedWeights(inputCount, sizes[..n]) + sizes[n] * Width(inputCount, sizes, n)
  }

  /** The length the vector-loading constructor demands: for every layer but
      the first, one bias per neuron plus one weight per neuron and neuron of
      the previous layer. */
  function RequiredInitializationCount(t: seq<int>): (r: int)
    ensures Positive(t) ==> r >= 0
  {
    if |t| <= 1 then 0
    else
      var n := |t| - 1;
      PositivePrefixIf(t);
      RequiredInitializationCount(t[..n]) + t[n] + t[n] * t[n - 1]
  }

  /** The single vector is exactly as long as the two flat vectors together,
      for the flat form whose input width is the first layer and whose layer
      sizes are the remaining ones. */
  lemma {:induction false} RequiredCountSplits(t: seq<int>)
    requires |t| >= 1
    ensures RequiredInitializationCount(t) == Sum(t[1..]) + ExpectedWeights(t[0], t[1..])
  {
    if |t| > 1 {
      var n := |t| - 1;
      RequiredCountSplits(t[..n]);
      assert t[..n][1..] == t[1..][..n - 1];
      assert t[..n][0] == t[0];
      assert Width(t[0], t[1..], n - 1) == t[n - 1];
    }
  }

  /** The count up to layer k + 1 is the count up to layer k plus layer k's
      runs of a bias and its weights. */
  lemma {:induction false} RequiredCountPrefix(t: seq<int>, k: nat)
    requires Positive(t) && 1 <= k < |t|
    ensures RequiredInitializationCount(t[..k + 1]) == RequiredInitializationCount(t[..k]) + Runs(t[k], 1 + t[k - 1])
    ensures RequiredInitializationCount(t[..k]) >= 0
  {
    PositivePrefix(t, k + 1);
    RequiredCountSnoc(t[..k + 1]);
    assert t[..k + 1][..k] == t[..k];
  }

  /** The values layers k, k + 1, ... take from the single vector: for
      each of their neurons a bias and one weight per neuron of the layer
      before. */
  function RequiredFrom(t: seq<int>, k: nat): nat
    requires Positive(t) && 1 <= k <= |t|
    decreases |t| - k
  {
    if k == |t| then 0 else Runs(t[k], 1 + t[k - 1]) + RequiredFrom(t, k + 1)
  }

  /** The count up to layer k and the count from layer k make up the whole. */
  lemma {:induction false} RequiredCountSplitsAt(t: seq<int>, k: nat)
    requires Positive(t) && 1 <= k <= |t|
    ensures RequiredInitializationCount(t[..k]) + RequiredFrom(t, k) == RequiredInitializationCount(t)
    decreases |t| - k
  {
    if k == |t| {
      assert t[..k] == t;
    } else {
      RequiredCountPrefix(t, k);
      RequiredCountSplitsAt(t, k + 1);
    }
  }

  /** The whole count is the count from layer 1. */
  lemma RequiredCountFromStart(t: seq<int>)
    requires Positive(t) && 1 <= |t|
    ensures RequiredFrom(t, 1) == RequiredInitializationCount(t)
  {
    RequiredCountSplitsAt(t, 1);
  }

  /** The neuron counts of a parameter set, layer by layer. */
  function Shape(layers: seq<seq<NeuronParams>>): (s: seq<int>)
    ensures |s| == |layers| && forall k :: 0 <= k < |layers| ==> s[k] == |layers[k]|
  {
    seq(|layers|, k requires 0 <= k < |layers| => |layers[k]|)
  }

  lemma {:induction false} ShapePrefix(layers: seq<seq<NeuronParams>>, k: nat)
    requires k <= |layers|
    ensures Shape(layers[..k]) == Shape(layers)[..k]
  {
  }

  /** `count` consecutive runs of `width` slots: count * width, written so
      that each run adds `width`. */
  function Runs(count: nat, width: nat): nat
  {
    if count == 0 then 0 else Runs(count - 1, width) + width
  }

  lemma {:induction false} RunsIsProduct(count: nat, width: nat)
    ensures Runs(count, width) == count * width
  {
    if count > 0 { RunsIsProduct(count - 1, width); }
  }

  lemma {:induction false} RunsMono(a: nat, b: nat, width: nat)
    requires a <= b
    ensures Runs(a, width) <= Runs(b, width)
  {
    if a < b { RunsMono(a, b - 1, width); }
  }

  /** The last layer's share of the weight count. */
  lemma {:induction false} ExpectedWeightsSnoc(inputCount: nat, sizes: seq<int>)
    requires Positive(sizes) && sizes != []
    ensures Positive(sizes[..|sizes| - 1])
    ensures ExpectedWeights(inputCount, sizes)
         == ExpectedWeights(inputCount, sizes[..|sizes| - 1]) + Runs(sizes[|sizes| - 1], Width(inputCount, sizes, |sizes| - 1))
  {
    PositivePrefix(sizes, |sizes| - 1);
    RunsIsProduct(sizes[|sizes| - 1], Width(inputCount, sizes, |sizes| - 1));
  }

  /** The last layer's share of the single-vector count. */
  lemma {:induction false} RequiredCountSnoc(t: seq<int>)
    requires Positive(t) && |t| >= 2
    ensures Positive(t[..|t| - 1])
    ensures RequiredInitializationCount(t)
         == RequiredInitializationCount(t[..|t| - 1]) + Runs(t[|t| - 1], 1 + t[|t| - 2])
  {
    var n := |t| - 1;
    PositivePrefix(t, n);
    var count, width := t[n], t[n - 1];
    RunsOfBiasAndWeights(count, width);
    assert RequiredInitializationCount(t) == RequiredInitializationCount(t[..n]) + count + count * width;
  }

  /** `count` runs of one bias and `width` weights hold count biases and
      count * width weights. */
  lemma {:induction false} RunsOfBiasAndWeights(count: nat, width: nat)
    ensures Runs(count, 1 + width) == count + count * width
  {
    if count > 0 {
      RunsOfBiasAndWeights(count - 1, width);
      assert (count - 1) * width + width == count * width;
    }
  }

  // ---------------------------------------------------------------------
  // Flat form: separate bias and weight vectors.

  /** One layer's share of the flat vectors: neuron j takes bs[j] and the
      j-th run of `width` weights. */
  function SplitLayer(width: nat, bs: seq<real>, ws: seq<real>): (layer: seq<NeuronParams>)
    requires |ws| == Runs(|bs|, width)
    ensures |layer| == |bs| && LayerFits(width, layer)
    decreases |bs|
  {
    if bs == [] then []
    else
      var n := |bs| - 1;
      SplitLayer(width, bs[..n], ws[..Runs(n, width)]) + [NeuronParams(bs[n], ws[Runs(n, width)..])]
  }

  /** The parameters ThinkFast reads, layer by layer: the biases and weights
      of layer k start where those of layer k - 1 end. */
  function SplitFlat(inputCount: nat, sizes: seq<int>, biases: seq<real>, weights: seq<real>): (layers: seq<seq<NeuronParams>>)
    requires Positive(sizes)
    requires |biases| == Sum(sizes) && |weights| == ExpectedWeights(inputCount, sizes)
    ensures Shape(layers) == sizes && Fits(inputCount, layers)
  {
    if sizes == [] then []
    else
      var n := |sizes| - 1;
      ExpectedWeightsSnoc(inputCount, sizes);
      var b0 := Sum(sizes[..n]);
      var w0 := ExpectedWeights(inputCount, sizes[..n]);
      var front := SplitFlat(inputCount, sizes[..n], biases[..b0], weights[..w0]);
      var last := SplitLayer(Width(inputCount, sizes, n), biases[b0..], weights[w0..]);
      FitsSnoc(inputCount, front, last);
      ShapeSnoc(front, last);
      front + [last]
  }

  lemma {:induction false} SplitFlatSnoc(inputCount: nat, sizes: seq<int>, biases: seq<real>, weights: seq<real>)
    requires Positive(sizes) && sizes != []
    requires |biases| == Sum(sizes) && |weights| == ExpectedWeights(inputCount, sizes)
    ensures Positive(sizes[..|sizes| - 1])
    ensures ExpectedWeights(inputCount, sizes)
         == ExpectedWeights(inputCount, sizes[..|sizes| - 1]) + Runs(sizes[|sizes| - 1], Width(inputCount, sizes, |sizes| - 1))
    ensures
      var n := |sizes| - 1;
      var b0, w0 := Sum(sizes[..n]), ExpectedWeights(inputCount, sizes[..n]);
      SplitFlat(inputCount, sizes, biases, weights)
      == SplitFlat(inputCount, sizes[..n], biases[..b0], weights[..w0])
         + [SplitLayer(Width(inputCount, sizes, n), biases[b0..], weights[w0..])]
  {
    ExpectedWeightsSnoc(inputCount, sizes);
  }

  /** Appending a layer that reads the last one keeps the layers fitting. */
  lemma {:induction false} FitsSnoc(width: nat, front: seq<seq<NeuronParams>>, last: seq<NeuronParams>)
    requires Fits(width, front)
    requires LayerFits(if front == [] then width else |front[|front| - 1]|, last)
    ensures Fits(width, front + [last])
  {
    var all := front + [last];
    forall k | 0 <= k < |all| ensures LayerFits(InputWidth(width, all, k), all[k]) {
      if k < |front| {
        assert LayerFits(InputWidth(width, front, k), front[k]);
      }
    }
  }

  lemma {:induction false} ShapeSnoc(front: seq<seq<NeuronParams>>, last: seq<NeuronParams>)
    ensures Shape(front + [last]) == Shape(front) + [|last|]
  {
  }

  /** The biases of one layer, in neuron order. */
  function LayerBiases(layer: seq<NeuronParams>): seq<real>
  {
    seq(|layer|, j requires 0 <= j < |layer| => layer[j].bias)
  }

  /** The weights of one layer, neuron after neuron. */
  function LayerWeights(layer: seq<NeuronParams>): seq<real>
  {
    if layer == [] then [] else LayerWeights(layer[..|layer| - 1]) + layer[|layer| - 1].weights
  }

  /** All biases of a parameter set, as ThinkFast expects them. */
  function FlatBiases(layers: seq<seq<NeuronParams>>): seq<real>
  {
    if layers == [] then [] else FlatBiases(layers[..|layers| - 1]) + LayerBiases(layers[|layers| - 1])
  }

  /** All weights of a parameter set, as ThinkFast expects them. */
  function FlatWeights(layers: seq<seq<NeuronParams>>): seq<real>
  {
    if layers == [] then [] else FlatWeights(layers[..|layers| - 1]) + LayerWeights(layers[|layers| - 1])
  }

  lemma {:induction false} FlatBiasesSnoc(front: seq<seq<NeuronParams>>, last: seq<NeuronParams>)
    ensures FlatBiases(front + [last]) == FlatBiases(front) + LayerBiases(last)
  {
    TakeOfSnoc(front, last);
  }

  lemma {:induction false} FlatWeightsSnoc(front: seq<seq<NeuronParams>>, last: seq<NeuronParams>)
    ensures FlatWeights(front + [last]) == FlatWeights(front) + LayerWeights(last)
  {
    TakeOfSnoc(front, last);
  }

  lemma {:induction false} LayerWeightsLength(width: nat, layer: seq<NeuronParams>)
    requires LayerFits(width, layer)
    ensures |LayerWeights(layer)| == Runs(|layer|, width)
  {
    if layer != [] {
      LayerWeightsLength(width, layer[..|layer| - 1]);
    }
  }

  /** Splitting the flat vectors of a layer gives back the layer. */
  lemma {:induction false} SplitLayerOfFlat(width: nat, layer: seq<NeuronParams>)
    requires LayerFits(width, layer)
    ensures |LayerWeights(layer)| == Runs(|LayerBiases(layer)|, width)
    ensures SplitLayer(width, LayerBiases(layer), LayerWeights(layer)) == layer
  {
    LayerWeightsLength(width, layer);
    if layer != [] {
      var n := |layer| - 1;
      var bs, ws := LayerBiases(layer), LayerWeights(layer);
      SplitLayerOfFlat(width, layer[..n]);
      LayerWeightsLength(width, layer[..n]);
      assert bs[..n] == LayerBiases(layer[..n]);
      AppendTakeDrop(LayerWeights(layer[..n]), layer[n].weights);
      FrontLast(layer);
    }
  }

  /** Flattening the split of a layer gives back the two vectors. */
  lemma {:induction false} FlatOfSplitLayer(width: nat, bs: seq<real>, ws: seq<real>)
    requires |ws| == Runs(|bs|, width)
    ensures LayerBiases(SplitLayer(width, bs, ws)) == bs
    ensures LayerWeights(SplitLayer(width, bs, ws)) == ws
  {
    if bs != [] {
      var n := |bs| - 1;
      FlatOfSplitLayer(width, bs[..n], ws[..Runs(n, width)]);
      var layer := SplitLayer(width, bs, ws);
      TakeOfSnoc(SplitLayer(width, bs[..n], ws[..Runs(n, width)]), NeuronParams(bs[n], ws[Runs(n, width)..]));
      FrontLast(bs);
      TakeDrop(ws, Runs(n, width));
    }
  }

  /** Where neuron j of a flat layer finds its parameters: bias j, and the
      j-th run of `width` weights. */
  lemma {:induction false} SplitLayerAt(width: nat, bs: seq<real>, ws: seq<real>, j: nat)
    requires |ws| == Runs(|bs|, width) && j < |bs|
    ensures (j + 1) * width <= |ws|
    ensures SplitLayer(width, bs, ws)[j] == NeuronParams(bs[j], ws[j * width..(j + 1) * width])
  {
    SplitLayerRunAt(width, bs, ws, j);
    RunsIsProduct(j, width);
    RunsIsProduct(j + 1, width);
  }

  lemma {:induction false} SplitLayerRunAt(width: nat, bs: seq<real>, ws: seq<real>, j: nat)
    requires |ws| == Runs(|bs|, width) && j < |bs|
    ensures Runs(j + 1, width) <= |ws|
    ensures SplitLayer(width, bs, ws)[j] == NeuronParams(bs[j], ws[Runs(j, width)..Runs(j + 1, width)])
  {
    var n := |bs| - 1;
    RunsMono(j + 1, n + 1, width);
    if j < n {
      SplitLayerRunAt(width, bs[..n], ws[..Runs(n, width)], j);
      RunsMono(j + 1, n, width);
      assert ws[..Runs(n, width)][Runs(j, width)..Runs(j + 1, width)] == ws[Runs(j, width)..Runs(j + 1, width)];
    }
  }

  /** Neuron j of the layer cut from the flat vectors at a bias cursor and a
      weight cursor: the j-th bias after the one cursor and the j-th run of
      `width` weights after the other. */
  lemma {:induction false} SplitLayerNeuron(width: nat, biases: seq<real>, weights: seq<real>, biasStart: nat, weightStart: nat, count: nat, j: nat)
    requires biasStart + count <= |biases| && weightStart + Runs(count, width) <= |weights| && j < count
    ensures weightStart + Runs(j, width) + width == weightStart + Runs(j + 1, width) <= |weights|
    ensures SplitLayer(width, biases[biasStart..biasStart + count], weights[weightStart..weightStart + Runs(count, width)])[j]
         == NeuronParams(biases[biasStart + j], weights[weightStart + Runs(j, width)..weightStart + Runs(j, width) + width])
  {
    var bs, ws := biases[biasStart..biasStart + count], weights[weightStart..weightStart + Runs(count, width)];
    SplitLayerRunAt(width, bs, ws, j);
    assert ws[Runs(j, width)..Runs(j + 1, width)] == weights[weightStart + Runs(j, width)..weightStart + Runs(j + 1, width)];
  }

  /** The flat vectors of a parameter set are as long as ThinkFast checks. */
  lemma {:induction false} FlatLengths(inputCount: nat, layers: seq<seq<NeuronParams>>)
    requires Fits(inputCount, layers)
    ensures |FlatBiases(layers)| == Sum(Shape(layers))
    ensures |FlatWeights(layers)| == ExpectedWeights(inputCount, Shape(layers))
  {
    if layers != [] {
      var n := |layers| - 1;
      FitsPrefix(inputCount, layers, n);
      FlatLengths(inputCount, layers[..n]);
      ShapePrefix(layers, n);
      var width := InputWidth(inputCount, layers, n);
      assert LayerFits(width, layers[n]);
      LayerWeightsLength(width, layers[n]);
      RunsIsProduct(|layers[n]|, width);
      assert Width(inputCount, Shape(layers), n) == width;
    }
  }

  /** Splitting the flat vectors of a parameter set gives back the set. */
  lemma {:induction false} SplitFlatOfFlat(inputCount: nat, layers: seq<seq<NeuronParams>>)
    requires Fits(inputCount, layers) && Positive(Shape(layers))
    ensures |FlatBiases(layers)| == Sum(Shape(layers))
    ensures |FlatWeights(layers)| == ExpectedWeights(inputCount, Shape(layers))
    ensures SplitFlat(inputCount, Shape(layers), FlatBiases(layers), FlatWeights(layers)) == layers
  {
    FlatLengths(inputCount, layers);
    if layers != [] {
      var n := |layers| - 1;
      FitsPrefix(inputCount, layers, n);
      ShapePrefix(layers, n);
      PositivePrefix(Shape(layers), n);
      SplitFlatOfFlat(inputCount, layers[..n]);
      FrontLast(layers);
      SplitFlatOfFlatStep(inputCount, layers[..n], layers[n]);
    }
  }

  /** The inductive step of SplitFlatOfFlat: one more layer at the end. */
  lemma {:induction false} SplitFlatOfFlatStep(inputCount: nat, front: seq<seq<NeuronParams>>, last: seq<NeuronParams>)
    requires Fits(inputCount, front + [last]) && Positive(Shape(front + [last]))
    requires Fits(inputCount, front) && Positive(Shape(front))
    requires |FlatBiases(front)| == Sum(Shape(front))
    requires |FlatWeights(front)| == ExpectedWeights(inputCount, Shape(front))
    requires SplitFlat(inputCount, Shape(front), FlatBiases(front), FlatWeights(front)) == front
    ensures |FlatBiases(front + [last])| == Sum(Shape(front + [last]))
    ensures |FlatWeights(front + [last])| == ExpectedWeights(inputCount, Shape(front + [last]))
    ensures SplitFlat(inputCount, Shape(front + [last]), FlatBiases(front + [last]), FlatWeights(front + [last])) == front + [last]
  {
    var layers := front + [last];
    var n := |front|;
    FlatLengths(inputCount, layers);
    var sizes, bs, ws := Shape(layers), FlatBiases(layers), FlatWeights(layers);
    ShapeSnoc(front, last);
    FlatBiasesSnoc(front, last);
    FlatWeightsSnoc(front, last);
    TakeOfSnoc(Shape(front), |last|);
    AppendTakeDrop(FlatBiases(front), LayerBiases(last));
    AppendTakeDrop(FlatWeights(front), LayerWeights(last));
    SplitFlatSnoc(inputCount, sizes, bs, ws);
    var width := InputWidth(inputCount, layers, n);
    assert LayerFits(width, layers[n]);
    assert Width(inputCount, sizes, n) == width;
    SplitLayerOfFlat(width, last);
  }

  /** Flattening the split of the flat vectors gives back the vectors. */
  lemma {:induction false} FlatOfSplitFlat(inputCount: nat, sizes: seq<int>, biases: seq<real>, weights: seq<real>)
    requires Positive(sizes)
    requires |biases| == Sum(sizes) && |weights| == ExpectedWeights(inputCount, sizes)
    ensures FlatBiases(SplitFlat(inputCount, sizes, biases, weights)) == biases
    ensures FlatWeights(SplitFlat(inputCount, sizes, biases, weights)) == weights
  {
    FlatBiasesOfSplitFlat(inputCount, sizes, biases, weights);
    FlatWeightsOfSplitFlat(inputCount, sizes, biases, weights);
  }

  lemma {:induction false} FlatBiasesOfSplitFlat(inputCount: nat, sizes: seq<int>, biases: seq<real>, weights: seq<real>)
    requires Positive(sizes)
    requires |biases| == Sum(sizes) && |weights| == ExpectedWeights(inputCount, sizes)
    ensures FlatBiases(SplitFlat(inputCount, sizes, biases, weights)) == biases
  {
    if sizes != [] {
      var n := |sizes| - 1;
      SplitFlatSnoc(inputCount, sizes, biases, weights);
      var b0 := Sum(sizes[..n]);
      var w0 := ExpectedWeights(inputCount, sizes[..n]);
      var front := SplitFlat(inputCount, sizes[..n], biases[..b0], weights[..w0]);
      var last := SplitLayer(Width(inputCount, sizes, n), biases[b0..], weights[w0..]);
      FlatBiasesOfSplitFlat(inputCount, sizes[..n], biases[..b0], weights[..w0]);
      FlatOfSplitLayer(Width(inputCount, sizes, n), biases[b0..], weights[w0..]);
      FlatBiasesSnoc(front, last);
      TakeDrop(biases, b0);
    }
  }

  lemma {:induction false} FlatWeightsOfSplitFlat(inputCount: nat, sizes: seq<int>, biases: seq<real>, weights: seq<real>)
    requires Positive(sizes)
    requires |biases| == Sum(sizes) && |weights| == ExpectedWeights(inputCount, sizes)
    ensures FlatWeights(SplitFlat(inputCount, sizes, biases, weights)) == weights
  {
    if sizes != [] {
      var n := |sizes| - 1;
      SplitFlatSnoc(inputCount, sizes, biases, weights);
      var b0 := Sum(sizes[..n]);
      var w0 := ExpectedWeights(inputCount, sizes[..n]);
      var front := SplitFlat(inputCount, sizes[..n], biases[..b0], weights[..w0]);
      var last := SplitLayer(Width(inputCount, sizes, n), biases[b0..], weights[w0..]);
      FlatWeightsOfSplitFlat(inputCount, sizes[..n], biases[..b0], weights[..w0]);
      FlatOfSplitLayer(Width(inputCount, sizes, n), biases[b0..], weights[w0..]);
      FlatWeightsSnoc(front, last);
      TakeDrop(weights, w0);
    }
  }

  /** The first k layers of the split come from the first k layer sizes and
      the stretches of the flat vectors those layers account for. */
  lemma {:induction false} SplitFlatPrefix(inputCount: nat, sizes: seq<int>, biases: seq<real>, weights: seq<real>, k: nat)
    requires Positive(sizes) && k <= |sizes|
    requires |biases| == Sum(sizes) && |weights| == ExpectedWeights(inputCount, sizes)
    ensures Positive(sizes[..k])
    ensures Sum(sizes[..k]) <= |biases| && ExpectedWeights(inputCount, sizes[..k]) <= |weights|
    ensures SplitFlat(inputCount, sizes, biases, weights)[..k]
         == SplitFlat(inputCount, sizes[..k], biases[..Sum(sizes[..k])], weights[..ExpectedWeights(inputCount, sizes[..k])])
    decreases |sizes| - k
  {
    PositivePrefix(sizes, k);
    if k == |sizes| {
      TakeAll(sizes);
      TakeAll(biases);
      TakeAll(weights);
    } else {
      var n := |sizes| - 1;
      SplitFlatSnoc(inputCount, sizes, biases, weights);
      var b0, w0 := Sum(sizes[..n]), ExpectedWeights(inputCount, sizes[..n]);
      var front := SplitFlat(inputCount, sizes[..n], biases[..b0], weights[..w0]);
      var last := SplitLayer(Width(inputCount, sizes, n), biases[b0..], weights[w0..]);
      assert |front| == n;
      TakeOfAppend(front, [last], k);
      SplitFlatPrefix(inputCount, sizes[..n], biases[..b0], weights[..w0], k);
      TakeTake(sizes, n, k);
      TakeTake(biases, b0, Sum(sizes[..k]));
      TakeTake(weights, w0, ExpectedWeights(inputCount, sizes[..k]));
    }
  }

  /** Where layer k of the split finds its parameters: the biases and the
      weights that follow those of layers 0 to k - 1, as many as layer k
      has neurons and weights. */
  lemma {:induction false} SplitFlatAt(inputCount: nat, sizes: seq<int>, biases: seq<real>, weights: seq<real>, k: nat)
    requires Positive(sizes) && k < |sizes|
    requires |biases| == Sum(sizes) && |weights| == ExpectedWeights(inputCount, sizes)
    ensures Sum(sizes[..k + 1]) == Sum(sizes[..k]) + sizes[k] <= |biases|
    ensures ExpectedWeights(inputCount, sizes[..k + 1])
         == ExpectedWeights(inputCount, sizes[..k]) + Runs(sizes[k], Width(inputCount, sizes, k)) <= |weights|
    ensures SplitFlat(inputCount, sizes, biases, weights)[k]
         == SplitLayer(Width(inputCount, sizes, k),
                       biases[Sum(sizes[..k])..Sum(sizes[..k + 1])],
                       weights[ExpectedWeights(inputCount, sizes[..k])..ExpectedWeights(inputCount, sizes[..k + 1])])
  {
    SplitFlatPrefix(inputCount, sizes, biases, weights, k + 1);
    var s := sizes[..k + 1];
    var b1, w1 := Sum(s), ExpectedWeights(inputCount, s);
    var bs, ws := biases[..b1], weights[..w1];
    SplitFlatSnoc(inputCount, s, bs, ws);
    TakeTake(sizes, k + 1, k);
    assert Width(inputCount, s, k) == Width(inputCount, sizes, k);
    var b0, w0 := Sum(sizes[..k]), ExpectedWeights(inputCount, sizes[..k]);
    TakeTake(biases, b1, b0);
    TakeTake(weights, w1, w0);
    DropOfTake(biases, b1, b0);
    DropOfTake(weights, w1, w0);
    var front := SplitFlat(inputCount, sizes[..k], biases[..b0], weights[..w0]);
    var last := SplitLayer(Width(inputCount, sizes, k), biases[b0..b1], weights[w0..w1]);
    assert SplitFlat(inputCount, s, bs, ws) == front + [last];
    assert |front| == k;
    TakeOfSnoc(front, last);
    var whole := SplitFlat(inputCount, sizes, biases, weights);
    assert whole[k] == whole[..k + 1][k];
  }

  // ---------------------------------------------------------------------
  // Graph form: one vector, bias then weights for each neuron.

  /** One layer's share of the single vector: `count` runs of a bias followed
      by `width` weights. */
  function SplitVectorLayer(count: nat, width: nat, vs: seq<real>): (layer: seq<NeuronParams>)
    requires |vs| == Runs(count, 1 + width)
    ensures |layer| == count && LayerFits(width, layer)
  {
    if count == 0 then []
    else
      var start := Runs(count - 1, 1 + width);
      SplitVectorLayer(count - 1, width, vs[..start]) + [NeuronParams(vs[start], vs[start + 1..])]
  }

  /** The parameters the vector-loading constructor assigns, for every layer
      after the first. */
  function ParamsFromVector(t: seq<int>, v: seq<real>): (layers: seq<seq<NeuronParams>>)
    requires |t| >= 1 && Positive(t) && |v| == RequiredInitializationCount(t)
    ensures Shape(layers) == t[1..] && Fits(t[0], layers)
  {
    if |t| == 1 then []
    else
      var n := |t| - 1;
      RequiredCountSnoc(t);
      var start := RequiredInitializationCount(t[..n]);
      var front := ParamsFromVector(t[..n], v[..start]);
      var last := SplitVectorLayer(t[n], t[n - 1], v[start..]);
      assert t[..n][1..] + [t[n]] == t[1..];
      assert t[..n][0] == t[0];
      FitsSnoc(t[0], front, last);
      ShapeSnoc(front, last);
      front + [last]
  }

  lemma {:induction false} ParamsFromVectorSnoc(t: seq<int>, v: seq<real>)
    requires |t| >= 2 && Positive(t) && |v| == RequiredInitializationCount(t)
    ensures Positive(t[..|t| - 1])
    ensures RequiredInitializationCount(t)
         == RequiredInitializationCount(t[..|t| - 1]) + Runs(t[|t| - 1], 1 + t[|t| - 2])
    ensures
      var start := RequiredInitializationCount(t[..|t| - 1]);
      ParamsFromVector(t, v)
      == ParamsFromVector(t[..|t| - 1], v[..start]) + [SplitVectorLayer(t[|t| - 1], t[|t| - 2], v[start..])]
  {
    RequiredCountSnoc(t);
  }

  /** Bias and weights of each neuron of a layer, neuron after neuron. */
  function InterleaveLayer(layer: seq<NeuronParams>): seq<real>
  {
    if layer == [] then []
    else
      var n := |layer| - 1;
      InterleaveLayer(layer[..n]) + [layer[n].bias] + layer[n].weights
  }

  /** The single vector the graph form loads, for a parameter set of the
      layers after the first. */
  function Interleave(layers: seq<seq<NeuronParams>>): seq<real>
  {
    if layers == [] then [] else Interleave(layers[..|layers| - 1]) + InterleaveLayer(layers[|layers| - 1])
  }

  lemma {:induction false} InterleaveSnoc(front: seq<seq<NeuronParams>>, last: seq<NeuronParams>)
    ensures Interleave(front + [last]) == Interleave(front) + InterleaveLayer(last)
  {
    TakeOfSnoc(front, last);
  }

  lemma {:induction false} InterleaveLayerLength(width: nat, layer: seq<NeuronParams>)
    requires LayerFits(width, layer)
    ensures |InterleaveLayer(layer)| == Runs(|layer|, 1 + width)
  {
    if layer != [] {
      InterleaveLayerLength(width, layer[..|layer| - 1]);
    }
  }

  /** Where neuron j of a layer finds its bias and weights in the single
      vector: the bias at j * (1 + width), the weights in the next `width` slots. */
  lemma {:induction false} SplitVectorLayerAt(count: nat, width: nat, vs: seq<real>, j: nat)
    requires |vs| == Runs(count, 1 + width) && j < count
    ensures (j + 1) * (1 + width) <= |vs|
    ensures SplitVectorLayer(count, width, vs)[j]
         == NeuronParams(vs[j * (1 + width)], vs[j * (1 + width) + 1..(j + 1) * (1 + width)])
  {
    SplitVectorLayerRunAt(count, width, vs, j);
    RunsIsProduct(j, 1 + width);
    RunsIsProduct(j + 1, 1 + width);
  }

  lemma {:induction false} SplitVectorLayerRunAt(count: nat, width: nat, vs: seq<real>, j: nat)
    requires |vs| == Runs(count, 1 + width) && j < count
    ensures Runs(j + 1, 1 + width) <= |vs|
    ensures SplitVectorLayer(count, width, vs)[j]
         == NeuronParams(vs[Runs(j, 1 + width)], vs[Runs(j, 1 + width) + 1..Runs(j + 1, 1 + width)])
  {
    var n := count - 1;
    RunsMono(j + 1, count, 1 + width);
    if j < n {
      var start := Runs(n, 1 + width);
      SplitVectorLayerRunAt(n, width, vs[..start], j);
      RunsMono(j + 1, n, 1 + width);
      assert vs[..start][Runs(j, 1 + width)] == vs[Runs(j, 1 + width)];
      assert vs[..start][Runs(j, 1 + width) + 1..Runs(j + 1, 1 + width)]
          == vs[Runs(j, 1 + width) + 1..Runs(j + 1, 1 + width)];
    }
  }

  /** Interleaving the split of a vector layer gives back its slice. */
  lemma {:induction false} InterleaveOfSplitVectorLayer(count: nat, width: nat, vs: seq<real>)
    requires |vs| == Runs(count, 1 + width)
    ensures InterleaveLayer(SplitVectorLayer(count, width, vs)) == vs
  {
    if count > 0 {
      var n := count - 1;
      var start := Runs(n, 1 + width);
      var layer := SplitVectorLayer(count, width, vs);
      InterleaveOfSplitVectorLayer(n, width, vs[..start]);
      assert layer[..n] == SplitVectorLayer(n, width, vs[..start]);
      assert vs == vs[..start] + [vs[start]] + vs[start + 1..];
    }
  }

  /** Neuron j of a layer split from the stretch of v that starts at
      `start` takes the value at its run's start as bias and the rest of
      the run as weights. */
  lemma SplitVectorLayerRunIn(count: nat, width: nat, v: seq<real>, start: nat, j: nat, at: nat)
    requires start + Runs(count, 1 + width) <= |v| && j < count && at == start + Runs(j, 1 + width)
    ensures Runs(j + 1, 1 + width) == Runs(j, 1 + width) + 1 + width <= Runs(count, 1 + width)
    ensures SplitVectorLayer(count, width, v[start..start + Runs(count, 1 + width)])[j]
         == NeuronParams(v[at], v[at + 1..at + 1 + width])
  {
    var vs := v[start..start + Runs(count, 1 + width)];
    SplitVectorLayerRunAt(count, width, vs, j);
    var a := Runs(j, 1 + width);
    RunsMono(j + 1, count, 1 + width);
    assert forall k :: 0 <= k < |vs| ==> vs[k] == v[start + k];
    assert vs[a + 1..Runs(j + 1, 1 + width)] == v[at + 1..at + 1 + width];
  }

  /** Entry c of q is the run of 1 + width values of v after the first c
      runs from `start`, its bias first and then its weights. */
  ghost predicate LaidAt(q: seq<NeuronParams>, v: seq<real>, start: nat, width: nat, c: nat)
  {
    c < |q| && start + Runs(c + 1, 1 + width) <= |v|
    && q[c] == NeuronParams(v[start + Runs(c, 1 + width)], v[start + Runs(c, 1 + width) + 1..start + Runs(c + 1, 1 + width)])
  }

  /** q is laid out in v from `start`, entry after entry. */
  ghost predicate LaidOut(q: seq<NeuronParams>, v: seq<real>, start: nat, width: nat)
  {
    forall c :: 0 <= c < |q| ==> LaidAt(q, v, start, width, c)
  }

  /** The layer split from a stretch of v is laid out in v. */
  lemma SplitVectorLayerLaidOut(count: nat, width: nat, v: seq<real>, start: nat)
    requires start + Runs(count, 1 + width) <= |v|
    ensures LaidOut(SplitVectorLayer(count, width, v[start..start + Runs(count, 1 + width)]), v, start, width)
  {
    var q := SplitVectorLayer(count, width, v[start..start + Runs(count, 1 + width)]);
    forall c | 0 <= c < |q| ensures LaidAt(q, v, start, width, c) {
      SplitVectorLayerRunIn(count, width, v, start, c, start + Runs(c, 1 + width));
    }
  }

  /** Splitting the next stretch of a vector into a layer extends an
      interleaving that gave the vector up to `start`. */
  lemma InterleaveExtends(done: seq<seq<NeuronParams>>, v: seq<real>, start: nat, count: nat, width: nat)
    requires start + Runs(count, 1 + width) <= |v| && Interleave(done) == v[..start]
    ensures Interleave(done + [SplitVectorLayer(count, width, v[start..start + Runs(count, 1 + width)])])
         == v[..start + Runs(count, 1 + width)]
  {
    var end := start + Runs(count, 1 + width);
    InterleaveOfSplitVectorLayer(count, width, v[start..end]);
    InterleaveSnoc(done, SplitVectorLayer(count, width, v[start..end]));
    assert v[..end] == v[..start] + v[start..end];
  }
  /** Layer i of topology t takes the stretch of v that starts where the
      layers before it end: split into t[i] runs of 1 + t[i - 1] values,
      it extends the interleaving, and what follows it is the count the
      later layers take. */
  lemma NextStretch(t: seq<int>, i: nat, v: seq<real>, next: nat, done: seq<seq<NeuronParams>>)
    returns (q: seq<NeuronParams>, after: nat)
    requires Positive(t) && 1 <= i < |t| && next + RequiredFrom(t, i) == |v| && Interleave(done) == v[..next]
    ensures |q| == t[i] && after == next + Runs(t[i], 1 + t[i - 1])
    ensures after + RequiredFrom(t, i + 1) == |v|
    ensures LaidOut(q, v, next, t[i - 1])
    ensures Interleave(done + [q]) == v[..after]
  {
    after := next + Runs(t[i], 1 + t[i - 1]);
    q := SplitVectorLayer(t[i], t[i - 1], v[next..after]);
    SplitVectorLayerLaidOut(t[i], t[i - 1], v, next);
    InterleaveExtends(done, v, next, t[i], t[i - 1]);
  }


  /** Splitting the interleaved layer gives back the layer. */
  lemma {:induction false} SplitVectorLayerOfInterleave(width: nat, layer: seq<NeuronParams>)
    requires LayerFits(width, layer)
    ensures |InterleaveLayer(layer)| == Runs(|layer|, 1 + width)
    ensures SplitVectorLayer(|layer|, width, InterleaveLayer(layer)) == layer
  {
    InterleaveLayerLength(width, layer);
    if layer != [] {
      var n := |layer| - 1;
      var vs := InterleaveLayer(layer);
      SplitVectorLayerOfInterleave(width, layer[..n]);
      var start := Runs(n, 1 + width);
      assert vs[..start] == InterleaveLayer(layer[..n]);
      assert vs[start] == layer[n].bias;
      assert vs[start + 1..] == layer[n].weights;
      assert layer == layer[..n] + [layer[n]];
    }
  }

  /** The vector the constructor loads is the interleaving of what it assigns. */
  lemma {:induction false} InterleaveOfParamsFromVector(t: seq<int>, v: seq<real>)
    requires |t| >= 1 && Positive(t) && |v| == RequiredInitializationCount(t)
    ensures Interleave(ParamsFromVector(t, v)) == v
  {
    if |t| > 1 {
      var n := |t| - 1;
      ParamsFromVectorSnoc(t, v);
      var start := RequiredInitializationCount(t[..n]);
      var front := ParamsFromVector(t[..n], v[..start]);
      var last := SplitVectorLayer(t[n], t[n - 1], v[start..]);
      InterleaveOfParamsFromVector(t[..n], v[..start]);
      InterleaveOfSplitVectorLayer(t[n], t[n - 1], v[start..]);
      InterleaveSnoc(front, last);
      TakeDrop(v, start);
    }
  }

  lemma {:induction false} PositiveCons(inputCount: nat, layers: seq<seq<NeuronParams>>)
    requires inputCount >= 1 && Positive(Shape(layers))
    ensures Positive([inputCount] + Shape(layers))
  {
    var t := [inputCount] + Shape(layers);
    forall k | 0 <= k < |t| ensures t[k] >= 1 {
      if k > 0 { assert t[k] == Shape(layers)[k - 1]; }
    }
  }

  /** The interleaving of a parameter set is as long as the constructor checks. */
  lemma {:induction false} InterleaveLength(inputCount: nat, layers: seq<seq<NeuronParams>>)
    requires inputCount >= 1 && Fits(inputCount, layers) && Positive(Shape(layers))
    ensures Positive([inputCount] + Shape(layers))
    ensures |Interleave(layers)| == RequiredInitializationCount([inputCount] + Shape(layers))
  {
    PositiveCons(inputCount, layers);
    if layers != [] {
      var n := |layers| - 1;
      var t := [inputCount] + Shape(layers);
      FitsPrefix(inputCount, layers, n);
      ShapePrefix(layers, n);
      PositivePrefix(Shape(layers), n);
      InterleaveLength(inputCount, layers[..n]);
      assert t[..n + 1] == [inputCount] + Shape(layers[..n]);
      var width := InputWidth(inputCount, layers, n);
      assert LayerFits(width, layers[n]);
      InterleaveLayerLength(width, layers[n]);
      RequiredCountSnoc(t);
    }
  }

  /** Loading the interleaving of a parameter set assigns that set. */
  /** A parameter set shaped as topology t's layers after the first, and
      fitting t's input width, is what ParamsFromVector reads back from its
      interleaving. */
  lemma ParamsFromVectorOfTopology(t: seq<int>, layers: seq<seq<NeuronParams>>)
    requires |t| >= 1 && Positive(t) && Fits(t[0], layers) && Shape(layers) == t[1..]
    ensures |Interleave(layers)| == RequiredInitializationCount(t)
    ensures ParamsFromVector(t, Interleave(layers)) == layers
  {
    assert t == [t[0]] + t[1..];
    assert Positive(Shape(layers)) by {
      forall k | 0 <= k < |layers| ensures Shape(layers)[k] >= 1 {
        assert Shape(layers)[k] == t[k + 1];
      }
    }
    ParamsFromVectorOfInterleave(t[0], layers);
  }

  lemma {:induction false} ParamsFromVectorOfInterleave(inputCount: nat, layers: seq<seq<NeuronParams>>)
    requires inputCount >= 1 && Fits(inputCount, layers) && Positive(Shape(layers))
    ensures Positive([inputCount] + Shape(layers))
    ensures |Interleave(layers)| == RequiredInitializationCount([inputCount] + Shape(layers))
    ensures ParamsFromVector([inputCount] + Shape(layers), Interleave(layers)) == layers
  {
    InterleaveLength(inputCount, layers);
    if layers != [] {
      var n := |layers| - 1;
      FitsPrefix(inputCount, layers, n);
      ShapePrefix(layers, n);
      PositivePrefix(Shape(layers), n);
      ParamsFromVectorOfInterleave(inputCount, layers[..n]);
      FrontLast(layers);
      ParamsFromVectorOfInterleaveStep(inputCount, layers[..n], layers[n]);
    }
  }

  /** The inductive step of ParamsFromVectorOfInterleave: one more layer at the end. */
  lemma {:induction false} ParamsFromVectorOfInterleaveStep(inputCount: nat, front: seq<seq<NeuronParams>>, last: seq<NeuronParams>)
    requires inputCount >= 1 && Fits(inputCount, front + [last]) && Positive(Shape(front + [last]))
    requires Positive([inputCount] + Shape(front))
    requires |Interleave(front)| == RequiredInitializationCount([inputCount] + Shape(front))
    requires ParamsFromVector([inputCount] + Shape(front), Interleave(front)) == front
    ensures Positive([inputCount] + Shape(front + [last]))
    ensures |Interleave(front + [last])| == RequiredInitializationCount([inputCount] + Shape(front + [last]))
    ensures ParamsFromVector([inputCount] + Shape(front + [last]), Interleave(front + [last])) == front + [last]
  {
    var layers := front + [last];
    var n := |front|;
    InterleaveLength(inputCount, layers);
    var t', t := [inputCount] + Shape(front), [inputCount] + Shape(layers);
    ShapeSnoc(front, last);
    assert t == t' + [|last|];
    TakeOfSnoc(t', |last|);
    InterleaveSnoc(front, last);
    var v := Interleave(layers);
    AppendTakeDrop(Interleave(front), InterleaveLayer(last));
    var width := InputWidth(inputCount, layers, n);
    assert LayerFits(width, layers[n]);
    assert width == t[n];
    SplitVectorLayerOfInterleave(width, last);
    ParamsFromVectorSnoc(t, v);
  }

  /** The two flat vectors ThinkFast takes for the single vector the graph
      form loads: the biases and the weights pulled apart. */
  function Deinterleave(t: seq<int>, v: seq<real>): (bw: (seq<real>, seq<real>))
    requires |t| >= 1 && Positive(t) && |v| == RequiredInitializationCount(t)
    ensures |bw.0| == Sum(t[1..]) && |bw.1| == ExpectedWeights(t[0], t[1..])
    ensures Positive(t[1..]) && SplitFlat(t[0], t[1..], bw.0, bw.1) == ParamsFromVector(t, v)
  {
    var layers := ParamsFromVector(t, v);
    assert Positive(t[1..]) by {
      forall k | 0 <= k < |t| - 1 ensures t[1..][k] >= 1 { assert t[1..][k] == t[k + 1]; }
    }
    SplitFlatOfFlat(t[0], layers);
    (FlatBiases(layers), FlatWeights(layers))
  }
}
