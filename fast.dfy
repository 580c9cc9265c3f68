/** The inner loops of ThinkFast on the flat vectors: a neuron's running
    total read off the weight cursor, and one layer's outputs written into a
    freshly allocated buffer while the bias and weight cursors advance. */
module FastPath {
  import opened Errors
  import opened FeedForward
  import opened Layout

  /** The running total of one neuron: the bias, then each input times the
      weight under the cursor, the cursor moving one step per input. */
  method NeuronSum(xs: seq<real>, bias: real, weights: seq<real>, start: nat) returns (sum: real, next: nat)
    requires start + |xs| <= |weights|
    ensures next == start + |xs|
    ensures sum == WeightedSum(bias, xs, weights[start..next])
  {
    sum := bias;
    next := start;
    var inputIndex := 0;
    while inputIndex < |xs|
      invariant 0 <= inputIndex <= |xs| && next == start + inputIndex
      invariant sum == PartialSum(bias, xs, weights[start..start + |xs|], inputIndex)
    {
      var input := xs[inputIndex];
      var weight := weights[next];
      sum := sum + input * weight;
      next := next + 1;
      inputIndex := inputIndex + 1;
    }
  }

  /** One neuron of ThinkFast: the activation of its running total. */
  method NeuronOutput(sigmoid: real -> real, xs: seq<real>, bias: real, weights: seq<real>, start: nat) returns (output: real, next: nat)
    requires start + |xs| <= |weights|
    ensures next == start + |xs|
    ensures output == Activate(sigmoid, NeuronParams(bias, weights[start..next]), xs)
  {
    var sum;
    sum, next := NeuronSum(xs, bias, weights, start);
    output := sigmoid(sum);
  }

  /** One layer of ThinkFast: `count` neurons, neuron j taking the bias under
      the bias cursor and the next |xs| weights under the weight cursor, each
      output being the activation of its running total over xs. */
  method LayerOutputs(sigmoid: real -> real, xs: seq<real>, count: nat, biases: seq<real>, weights: seq<real>,
                      biasStart: nat, weightStart: nat)
    returns (outputs: array<real>, biasNext: nat, weightNext: nat)
    requires biasStart + count <= |biases| && weightStart + Runs(count, |xs|) <= |weights|
    ensures fresh(outputs) && outputs.Length == count
    ensures biasNext == biasStart + count && weightNext == weightStart + Runs(count, |xs|)
    ensures outputs[..] == LayerOutput(sigmoid, SplitLayer(|xs|, biases[biasStart..biasNext], weights[weightStart..weightNext]), xs)
  {
    ghost var layer := SplitLayer(|xs|, biases[biasStart..biasStart + count], weights[weightStart..weightStart + Runs(count, |xs|)]);
    outputs := new real[count];
    biasNext, weightNext := biasStart, weightStart;
    var neuronIndex := 0;
    while neuronIndex < count
      invariant 0 <= neuronIndex <= count
      invariant biasNext == biasStart + neuronIndex && weightNext == weightStart + Runs(neuronIndex, |xs|)
      invariant forall c :: 0 <= c < neuronIndex ==> outputs[c] == Activate(sigmoid, layer[c], xs)
    {
      SplitLayerNeuron(|xs|, biases, weights, biasStart, weightStart, count, neuronIndex);
      var output, next := NeuronOutput(sigmoid, xs, biases[biasNext], weights, weightNext);
      outputs[neuronIndex] := output;
      biasNext := biasNext + 1;
      weightNext := next;
      neuronIndex := neuronIndex + 1;
    }
    LayerOutputOfEach(sigmoid, layer, xs, outputs[..]);
  }

  /** The arguments ThinkFast runs on: inputs present and not empty, layer
      sizes present, not empty and all at least one, one bias per neuron,
      and one weight per neuron and value the neuron reads. */
  predicate Accepted(inputs: Option<seq<real>>, sizes: Option<seq<int>>, biases: Option<seq<real>>, weights: Option<seq<real>>)
  {
    && inputs.Some? && inputs.value != []
    && sizes.Some? && sizes.value != [] && Positive(sizes.value)
    && biases.Some? && |biases.value| == Sum(sizes.value)
    && weights.Some? && |weights.value| == ExpectedWeights(|inputs.value|, sizes.value)
  }

  /** The flat vectors pulled out of a net's single vector are accepted by
      ThinkFast, and they describe the parameters the net loads, for every
      net with at least two layers. */
  lemma DeinterleavedAccepted(t: seq<int>, v: seq<real>, x: seq<real>)
    requires |t| >= 2 && Positive(t) && |v| == RequiredInitializationCount(t) && |x| == t[0]
    ensures Accepted(Some(x), Some(t[1..]), Some(Deinterleave(t, v).0), Some(Deinterleave(t, v).1))
    ensures SplitFlat(|x|, t[1..], Deinterleave(t, v).0, Deinterleave(t, v).1) == ParamsFromVector(t, v)
  {
    assert x != [] && t[1..] != [];
  }

  /** Conversely, every accepted set of flat vectors is the split of a net's
      single vector: the net whose first layer is as wide as the inputs and
      whose later layers have the given sizes, loaded with the interleaving
      of the split. */
  lemma {:induction false} AcceptedInterleaves(x: seq<real>, sizes: seq<int>, biases: seq<real>, weights: seq<real>)
    requires Accepted(Some(x), Some(sizes), Some(biases), Some(weights))
    ensures Positive([|x|] + sizes)
    ensures |Interleave(SplitFlat(|x|, sizes, biases, weights))| == RequiredInitializationCount([|x|] + sizes)
    ensures ParamsFromVector([|x|] + sizes, Interleave(SplitFlat(|x|, sizes, biases, weights)))
         == SplitFlat(|x|, sizes, biases, weights)
    ensures Deinterleave([|x|] + sizes, Interleave(SplitFlat(|x|, sizes, biases, weights))) == (biases, weights)
  {
    var layers := SplitFlat(|x|, sizes, biases, weights);
    ParamsFromVectorOfInterleave(|x|, layers);
    FlatOfSplitFlat(|x|, sizes, biases, weights);
    assert ([|x|] + sizes)[1..] == sizes;
  }

  /** The layer loop of ThinkFast: each layer in turn reads the previous
      layer's buffer (the inputs for the first), and the bias and weight
      cursors run once through the flat vectors, ending exactly at their
      ends. */
  method LayerByLayer(sigmoid: real -> real, inputs: seq<real>, sizes: seq<int>, biases: seq<real>, weights: seq<real>)
    returns (outputs: seq<real>, biasIndex: nat, weightIndex: nat)
    requires Positive(sizes) && |biases| == Sum(sizes) && |weights| == ExpectedWeights(|inputs|, sizes)
    ensures outputs == Forward(sigmoid, inputs, SplitFlat(|inputs|, sizes, biases, weights))
    ensures sizes != [] ==> |outputs| == sizes[|sizes| - 1]
    ensures biasIndex == |biases| && weightIndex == |weights|
  {
    ghost var L := SplitFlat(|inputs|, sizes, biases, weights);
    var inputsToNextLayer := inputs;
    biasIndex, weightIndex := 0, 0;
    var layerIndex := 0;
    while layerIndex < |sizes|
      invariant 0 <= layerIndex <= |sizes|
      invariant biasIndex == Sum(sizes[..layerIndex]) && weightIndex == ExpectedWeights(|inputs|, sizes[..layerIndex])
      invariant Fits(|inputs|, L[..layerIndex]) && inputsToNextLayer == Forward(sigmoid, inputs, L[..layerIndex])
      invariant |inputsToNextLayer| == if layerIndex == 0 then |inputs| else sizes[layerIndex - 1]
    {
      SplitFlatAt(|inputs|, sizes, biases, weights, layerIndex);
      ForwardStep(sigmoid, inputs, L, layerIndex);
      var outputsFromLayer;
      outputsFromLayer, biasIndex, weightIndex :=
        LayerOutputs(sigmoid, inputsToNextLayer, sizes[layerIndex], biases, weights, biasIndex, weightIndex);
      inputsToNextLayer := outputsFromLayer[..];
      layerIndex := layerIndex + 1;
    }
    TakeAll(L);
    TakeAll(sizes);
    outputs := inputsToNextLayer;
  }
}
