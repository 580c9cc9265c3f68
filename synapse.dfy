/** A synapse: the connection between two neurons. It is a heap object
    with two independent fields; the producing neuron's Outputs and the
    consuming neuron's Inputs hold the same reference, so a Value written by
    one is the Value the other reads. */
module Connections {

  class Synapse {
    /** The weight of the connection. */
    var weight: real
    /** The last value passed through the connection. */
    var value: real

    /** A fresh synapse with a random weight in [-1, 1): a draw in [0, 1),
        doubled, minus one. The value keeps its default, zero. */
    constructor ()
      ensures -1.0 <= weight < 1.0
      ensures value == 0.0
    {
      var draw: real :| 0.0 <= draw < 1.0;
      weight := draw * 2.0 - 1.0;
      value := 0.0;
    }
  }

  /** The values carried by a list of synapses, in list order. */
  function Values(ss: seq<Synapse>): (vs: seq<real>)
    reads ss`value
    ensures |vs| == |ss| && forall k {:trigger vs[k]} :: 0 <= k < |ss| ==> vs[k] == ss[k].value
  {
    if ss == [] then [] else Values(ss[..|ss| - 1]) + [ss[|ss| - 1].value]
  }

  /** The weights of a list of synapses, in list order. */
  function Weights(ss: seq<Synapse>): (ws: seq<real>)
    reads ss`weight
    ensures |ws| == |ss| && forall k {:trigger ws[k]} :: 0 <= k < |ss| ==> ws[k] == ss[k].weight
  {
    if ss == [] then [] else Weights(ss[..|ss| - 1]) + [ss[|ss| - 1].weight]
  }
}
