/** A layer: an ordered list of neurons. It owns no synapses of its own;
    the net wires its neurons to the neighbouring layers. */
module Layers {
  import opened Errors
  import opened FeedForward
  import opened Connections
  import opened Neurons

  class Layer {
    /** The neurons of the layer, in the order the net wires and reads them. */
    var neurons: seq<Neuron>

    /** A layer of `numberOfNeurons` fresh, distinct and unwired neurons,
        or an ArgumentException on `numberOfNeurons` when it is below one. */
    static method Create(numberOfNeurons: int) returns (r: Result<Layer>)
      ensures numberOfNeurons < 1 <==> r.Failure?
      ensures r.Failure? ==> r.error == Argument("numberOfNeurons", NonPositiveNeurons)
      ensures r.Success? ==> fresh(r.value) && r.value.Unwired(numberOfNeurons)
      ensures r.Success? ==> forall j :: 0 <= j < |r.value.neurons| ==> fresh(r.value.neurons[j])
    {
      if numberOfNeurons < 1 {
        return Failure(Argument("numberOfNeurons", NonPositiveNeurons));
      }
      var layer := new Layer;
      layer.neurons := [];
      var remaining := numberOfNeurons;
      while remaining > 0
        invariant 0 <= remaining <= numberOfNeurons
        invariant fresh(layer)
        invariant |layer.neurons| == numberOfNeurons - remaining
        invariant forall j :: 0 <= j < |layer.neurons| ==> fresh(layer.neurons[j])
        invariant layer.Unwired(|layer.neurons|)
      {
        var neuron := new Neuron();
        layer.neurons := layer.neurons + [neuron];
        remaining := remaining - 1;
      }
      return Success(layer);
    }

    /** The parameterless constructor: a layer of one neuron. */
    static method CreateDefault() returns (layer: Layer)
      ensures fresh(layer) && layer.Unwired(1)
      ensures fresh(layer.neurons[0])
    {
      var r := Create(1);
      layer := r.value;
    }

    /** `count` distinct neurons, none of them wired yet. */
    ghost predicate Unwired(count: int)
      reads this, neurons
    {
      |neurons| == count
      && (forall j, k :: 0 <= j < k < |neurons| ==> neurons[j] != neurons[k])
      && forall j :: 0 <= j < |neurons| ==> neurons[j].inputs == [] && neurons[j].outputs == []
    }

    /** Every synapse some neuron of the layer writes to. */
    ghost function Outputs(): set<Synapse>
      reads this, neurons
    {
      set j, b | 0 <= j < |neurons| && 0 <= b < |neurons[j].outputs| :: neurons[j].outputs[b]
    }

    /** No neuron of the layer reads a synapse that a neuron of the layer
        writes, and no two neurons write the same synapse. */
    ghost predicate Independent()
      reads this, neurons
    {
      (forall j, k, a, b ::
         0 <= j < |neurons| && 0 <= k < |neurons| && 0 <= a < |neurons[j].inputs| && 0 <= b < |neurons[k].outputs|
         ==> neurons[j].inputs[a] != neurons[k].outputs[b])
      && forall j, k, b, c ::
         0 <= j < |neurons| && 0 <= k < |neurons| && j != k && 0 <= b < |neurons[j].outputs| && 0 <= c < |neurons[k].outputs|
         ==> neurons[j].outputs[b] != neurons[k].outputs[c]
    }

    /** Lets each neuron think, in list order. Each output then holds its
        neuron's activation of the values its inputs held before the call,
        and the inputs keep their values. */
    method Think(sigmoid: real -> real)
      requires Independent()
      modifies Outputs()`value
      ensures forall j, b :: 0 <= j < |neurons| && 0 <= b < |neurons[j].outputs| ==>
        neurons[j].outputs[b].value == old(Activate(sigmoid, neurons[j].Params(), Values(neurons[j].inputs)))
      ensures forall j, a :: 0 <= j < |neurons| && 0 <= a < |neurons[j].inputs| ==>
        neurons[j].inputs[a].value == old(neurons[j].inputs[a].value)
    {
      var j := 0;
      while j < |neurons|
        invariant 0 <= j <= |neurons|
        invariant forall k, b :: 0 <= k < j && 0 <= b < |neurons[k].outputs| ==>
          neurons[k].outputs[b].value == old(Activate(sigmoid, neurons[k].Params(), Values(neurons[k].inputs)))
      {
        assert neurons[j].Separated();
        neurons[j].Think(sigmoid);
        j := j + 1;
      }
    }
  }
}
