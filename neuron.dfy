/** A neuron: a bias and two ordered lists of synapses, which the net
    appends to while it wires its layers. */
module Neurons {
  import opened FeedForward
  import opened Connections

  class Neuron {
    /** The synapses that provide input to this neuron. */
    var inputs: seq<Synapse>
    /** The synapses this neuron writes its activation to. */
    var outputs: seq<Synapse>
    /** The bias, added before any input. */
    var bias: real

    /** A fresh neuron: no inputs, no outputs, a random bias in [-1, 1). */
    constructor ()
      ensures inputs == [] && outputs == []
      ensures -1.0 <= bias < 1.0
    {
      inputs := [];
      outputs := [];
      var draw: real :| 0.0 <= draw < 1.0;
      bias := draw * 2.0 - 1.0;
    }

    /** The bias and input weights, as the arithmetic sees them. */
    function Params(): (p: NeuronParams)
      reads this`bias, this`inputs, inputs`weight
    {
      NeuronParams(bias, Weights(inputs))
    }

    /** True when no input synapse is also an output synapse. */
    ghost predicate Separated()
      reads this`inputs, this`outputs
    {
      forall a, b :: 0 <= a < |inputs| && 0 <= b < |outputs| ==> inputs[a] != outputs[b]
    }

    /** The weighted input: the bias plus each input's value times its
        weight, added in input order. Nothing changes. */
    method WeightedInput() returns (sum: real)
      ensures sum == WeightedSum(bias, Values(inputs), Weights(inputs))
    {
      ghost var xs := Values(inputs);
      ghost var ws := Weights(inputs);
      sum := bias;
      var k := 0;
      while k < |inputs|
        invariant 0 <= k <= |inputs|
        invariant sum == PartialSum(bias, xs, ws, k)
      {
        sum := sum + inputs[k].value * inputs[k].weight;
        k := k + 1;
      }
    }

    /** Writes one value to every output synapse, in output order. When no
        output is also an input, the inputs keep their values. */
    method Fire(activation: real)
      modifies outputs`value
      ensures forall b :: 0 <= b < |outputs| ==> outputs[b].value == activation
      ensures Separated() ==> forall a :: 0 <= a < |inputs| ==> inputs[a].value == old(inputs[a].value)
    {
      var b := 0;
      while b < |outputs|
        invariant 0 <= b <= |outputs|
        invariant forall m :: 0 <= m < b ==> outputs[m].value == activation
        invariant Separated() ==> forall a :: 0 <= a < |inputs| ==> inputs[a].value == old(inputs[a].value)
      {
        outputs[b].value := activation;
        b := b + 1;
      }
    }

    /** Applies the activation to the weighted input and writes the result
        to every output. Only the outputs' values change; the sum is complete
        before the first write, so an output that is also an input does not
        disturb it. */
    method Think(sigmoid: real -> real)
      modifies outputs`value
      ensures forall b :: 0 <= b < |outputs| ==>
        outputs[b].value == old(Activate(sigmoid, Params(), Values(inputs)))
      ensures Separated() ==> forall a :: 0 <= a < |inputs| ==> inputs[a].value == old(inputs[a].value)
    {
      var sum := WeightedInput();
      var activation := sigmoid(sum);
      Fire(activation);
    }
  }

  /** Thinking is idempotent when no output is also an input: a second call
      writes the values the first call wrote. */
  method ThinkTwice(n: Neuron, sigmoid: real -> real)
    requires n.Separated()
    modifies n.outputs`value
    ensures forall b :: 0 <= b < |n.outputs| ==>
      n.outputs[b].value == old(Activate(sigmoid, n.Params(), Values(n.inputs)))
  {
    n.Think(sigmoid);
    assert Values(n.inputs) == old(Values(n.inputs));
    n.Think(sigmoid);
  }
}
