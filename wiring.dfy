/** The structure the net's constructor builds out of layers and synapses,
    and the steps that build it: every neuron of a layer gets one fresh
    synapse to every neuron of the next layer, the same object added to the
    producer's outputs and the consumer's inputs, and every neuron of the last
    layer gets one more output that nobody reads. */
module Wiring {
  import opened Connections
  import opened Neurons
  import opened Layers
  import opened Layout

  /** Every neuron of `previous` feeds every neuron of `current`: output c of
      neuron p is the very synapse that is input p of neuron c. */
  ghost predicate Linked(previous: Layer, current: Layer)
    reads previous`neurons, current`neurons, previous.neurons`outputs, current.neurons`inputs
  {
    (forall p :: 0 <= p < |previous.neurons| ==> |previous.neurons[p].outputs| == |current.neurons|)
    && (forall c :: 0 <= c < |current.neurons| ==> |current.neurons[c].inputs| == |previous.neurons|)
    && forall p, c ::
         0 <= p < |previous.neurons| && 0 <= c < |current.neurons|
         ==> previous.neurons[p].outputs[c] == current.neurons[c].inputs[p]
  }

  /** Layer k is linked to layer k + 1. */
  ghost predicate LinkedAt(ls: seq<Layer>, k: int)
    requires 0 <= k < |ls| - 1
    reads ls`neurons, ls[k].neurons`outputs, ls[k + 1].neurons`inputs
  {
    Linked(ls[k], ls[k + 1])
  }

  /** Every neuron of the layer has exactly one output. */
  ghost predicate Terminal(layer: Layer)
    reads layer`neurons, layer.neurons`outputs
  {
    forall p :: 0 <= p < |layer.neurons| ==> |layer.neurons[p].outputs| == 1
  }

  /** No neuron appears twice among the layers: neuron p of layer i is
      recorded at (i, p). */
  ghost predicate Placed(ls: seq<Layer>, place: map<Neuron, (int, int)>)
    reads ls`neurons
  {
    forall i, p {:trigger ls[i].neurons[p]} :: 0 <= i < |ls| && 0 <= p < |ls[i].neurons|
      ==> ls[i].neurons[p] in place && place[ls[i].neurons[p]] == (i, p)
  }

  /** No synapse appears twice as an output of the first n layers: output c
      of neuron p of layer i is recorded at (i, p, c). */
  ghost predicate Slotted(ls: seq<Layer>, place: map<Neuron, (int, int)>, slot: map<Synapse, (int, int, int)>, n: int)
    reads ls`neurons, place.Keys`outputs
    requires Placed(ls, place)
  {
    forall i, p, c {:trigger ls[i].neurons[p].outputs[c]} :: 0 <= i < n && i < |ls| && 0 <= p < |ls[i].neurons| && 0 <= c < |ls[i].neurons[p].outputs|
      ==> ls[i].neurons[p].outputs[c] in slot && slot[ls[i].neurons[p].outputs[c]] == (i, p, c)
  }

  /** The number of neurons in each of the given layers. */
  ghost function Sizes(ls: seq<Layer>): (t: seq<int>)
    reads ls`neurons
    ensures |t| == |ls| && forall i :: 0 <= i < |ls| ==> t[i] == |ls[i].neurons|
  {
    if ls == [] then [] else Sizes(ls[..|ls| - 1]) + [|ls[|ls| - 1].neurons|]
  }

  /** What the net's constructor builds: at least one layer, every neuron
      and every output synapse in its own place, no inputs on the first
      layer, each layer linked to the next, one terminal output on each
      neuron of the last layer. */
  ghost predicate Wired(ls: seq<Layer>, place: map<Neuron, (int, int)>, slot: map<Synapse, (int, int, int)>)
    reads ls`neurons, place.Keys`inputs, place.Keys`outputs
  {
    |ls| >= 1
    && Placed(ls, place)
    && Slotted(ls, place, slot, |ls|)
    && (forall p :: 0 <= p < |ls[0].neurons| ==> ls[0].neurons[p].inputs == [])
    && (forall k :: 0 <= k < |ls| - 1 ==> LinkedAt(ls, k))
    && Terminal(ls[|ls| - 1])
  }

  /** The neurons placed in layer i. */
  ghost function Row(place: map<Neuron, (int, int)>, i: int): set<Neuron>
  {
    set n | n in place && place[n].0 == i
  }

  /** The output synapses of layer i, which are the inputs of layer i + 1. */
  ghost function Band(slot: map<Synapse, (int, int, int)>, i: int): set<Synapse>
  {
    set s | s in slot && slot[s].0 == i
  }

  /** Connects `source`, neuron p of layer i - 1, to each of `targets`,
      the neurons of layer i, in turn: a fresh synapse is appended to the
      source's outputs and to the target's inputs, and recorded in the map as
      output c of neuron p of layer i - 1. */
  method ConnectNeuron(source: Neuron, targets: seq<Neuron>, ghost place: map<Neuron, (int, int)>, ghost i: int, ghost p: int,
                       ghost slot0: map<Synapse, (int, int, int)>)
    returns (ghost news: seq<Synapse>, ghost slot: map<Synapse, (int, int, int)>)
    requires forall c :: 0 <= c < |targets| ==> targets[c] in place && place[targets[c]] == (i, c)
    modifies source`outputs, targets`inputs
    ensures |news| == |targets| && source.outputs == old(source.outputs) + news
    ensures forall c :: 0 <= c < |news| ==> fresh(news[c])
    ensures forall c :: 0 <= c < |targets| ==> targets[c].inputs == old(targets[c].inputs) + [news[c]]
    ensures forall c :: 0 <= c < |news| ==> news[c] in slot && slot[news[c]] == (i - 1, p, c)
    ensures forall s :: s in slot0 ==> s in slot && slot[s] == slot0[s]
    ensures forall s :: s in slot ==> s in slot0 || fresh(s)
  {
    news, slot := [], slot0;
    var c := 0;
    while c < |targets|
      invariant 0 <= c <= |targets| && |news| == c
      invariant source.outputs == old(source.outputs) + news
      invariant forall d :: 0 <= d < c ==> fresh(news[d])
      invariant forall d :: 0 <= d < c ==> targets[d].inputs == old(targets[d].inputs) + [news[d]]
      invariant forall d :: c <= d < |targets| ==> targets[d].inputs == old(targets[d].inputs)
      invariant forall d :: 0 <= d < c ==> news[d] in slot && slot[news[d]] == (i - 1, p, d)
      invariant forall s :: s in slot0 ==> s in slot && slot[s] == slot0[s]
      invariant forall s :: s in slot ==> s in slot0 || fresh(s)
    {
      var synapse := new Synapse();
      targets[c].inputs := targets[c].inputs + [synapse];
      source.outputs := source.outputs + [synapse];
      news, slot := news + [synapse], slot[synapse := (i - 1, p, c)];
      c := c + 1;
    }
  }

  /** Connects every neuron of `previous` (layer i - 1) to every neuron of
      `current` (layer i), previous neuron by previous neuron, when neither
      side is wired yet, and records every new synapse in the map. */
  method ConnectLayers(previous: Layer, current: Layer, ghost place: map<Neuron, (int, int)>, ghost i: int,
                       ghost slot0: map<Synapse, (int, int, int)>)
    returns (ghost slot: map<Synapse, (int, int, int)>)
    requires forall p :: 0 <= p < |previous.neurons| ==> previous.neurons[p] in place && place[previous.neurons[p]] == (i - 1, p)
    requires forall c :: 0 <= c < |current.neurons| ==> current.neurons[c] in place && place[current.neurons[c]] == (i, c)
    requires forall p :: 0 <= p < |previous.neurons| ==> previous.neurons[p].outputs == []
    requires forall c :: 0 <= c < |current.neurons| ==> current.neurons[c].inputs == []
    modifies Row(place, i - 1)`outputs, Row(place, i)`inputs
    ensures Linked(previous, current)
    ensures forall p, c :: 0 <= p < |previous.neurons| && 0 <= c < |current.neurons| ==>
      previous.neurons[p].outputs[c] in slot && slot[previous.neurons[p].outputs[c]] == (i - 1, p, c)
    ensures forall s :: s in slot0 ==> s in slot && slot[s] == slot0[s]
    ensures forall s :: s in slot ==> s in slot0 || fresh(s)
  {
    var ps, cs := previous.neurons, current.neurons;
    slot := slot0;
    var p := 0;
    while p < |ps|
      invariant 0 <= p <= |ps|
      invariant forall q :: 0 <= q < p ==> |ps[q].outputs| == |cs|
      invariant forall q :: p <= q < |ps| ==> ps[q].outputs == []
      invariant forall c :: 0 <= c < |cs| ==> |cs[c].inputs| == p
      invariant forall q, c :: 0 <= q < p && 0 <= c < |cs| ==> ps[q].outputs[c] == cs[c].inputs[q]
      invariant forall q, c :: 0 <= q < p && 0 <= c < |cs| ==> ps[q].outputs[c] in slot && slot[ps[q].outputs[c]] == (i - 1, q, c)
      invariant forall s :: s in slot0 ==> s in slot && slot[s] == slot0[s]
      invariant forall s :: s in slot ==> s in slot0 || fresh(s)
    {
      ghost var news;
      label before:
      news, slot := ConnectNeuron(ps[p], cs, place, i, p, slot);
      forall q, c | 0 <= q <= p && 0 <= c < |cs|
        ensures ps[q].outputs[c] in slot && slot[ps[q].outputs[c]] == (i - 1, q, c)
      {
        if q < p {
          assert place[ps[q]] != place[ps[p]];
          assert ps[q].outputs == old@before(ps[q].outputs);
        }
      }
      p := p + 1;
    }
  }

  /** Gives every neuron of the layer, layer i, which has no outputs yet, one
      fresh output synapse and records it in the map as that neuron's output 0. */
  method Terminate(layer: Layer, ghost place: map<Neuron, (int, int)>, ghost i: int, ghost slot0: map<Synapse, (int, int, int)>)
    returns (ghost slot: map<Synapse, (int, int, int)>)
    requires forall p :: 0 <= p < |layer.neurons| ==> layer.neurons[p] in place && place[layer.neurons[p]] == (i, p)
    requires forall p :: 0 <= p < |layer.neurons| ==> layer.neurons[p].outputs == []
    modifies Row(place, i)`outputs
    ensures forall p :: 0 <= p < |layer.neurons| ==> |layer.neurons[p].outputs| == 1
    ensures forall p :: 0 <= p < |layer.neurons| ==> fresh(layer.neurons[p].outputs[0])
    ensures forall p :: 0 <= p < |layer.neurons| ==>
      layer.neurons[p].outputs[0] in slot && slot[layer.neurons[p].outputs[0]] == (i, p, 0)
    ensures forall s :: s in slot0 ==> s in slot && slot[s] == slot0[s]
    ensures forall s :: s in slot ==> s in slot0 || fresh(s)
  {
    var ns := layer.neurons;
    slot := slot0;
    var p := 0;
    while p < |ns|
      invariant 0 <= p <= |ns|
      invariant forall q :: 0 <= q < p ==> |ns[q].outputs| == 1
      invariant forall q :: 0 <= q < p ==> fresh(ns[q].outputs[0])
      invariant forall q :: p <= q < |ns| ==> ns[q].outputs == []
      invariant forall q :: 0 <= q < p ==> ns[q].outputs[0] in slot && slot[ns[q].outputs[0]] == (i, q, 0)
      invariant forall s :: s in slot0 ==> s in slot && slot[s] == slot0[s]
      invariant forall s :: s in slot ==> s in slot0 || fresh(s)
    {
      var synapse := new Synapse();
      slot := slot[synapse := (i, p, 0)];
      ns[p].outputs := ns[p].outputs + [synapse];
      p := p + 1;
    }
  }

  /** The position map extended with neuron j of `ns` at (k, j), for
      distinct neurons. */
  ghost function Enroll(place: map<Neuron, (int, int)>, ns: seq<Neuron>, k: int): (r: map<Neuron, (int, int)>)
    requires forall j, l :: 0 <= j < l < |ns| ==> ns[j] != ns[l]
    ensures forall j :: 0 <= j < |ns| ==> ns[j] in r && r[ns[j]] == (k, j)
    ensures forall n :: n in place && n !in ns ==> n in r && r[n] == place[n]
    ensures forall n :: n in r ==> n in place || n in ns
  {
    if ns == [] then place
    else Enroll(place, ns[..|ns| - 1], k)[ns[|ns| - 1] := (k, |ns| - 1)]
  }

  /** Placing a further layer of distinct neurons, none placed yet, after
      the placed ones keeps every neuron in its place. */
  lemma PlacedSnoc(ls: seq<Layer>, place: map<Neuron, (int, int)>, layer: Layer)
    requires Placed(ls, place)
    requires forall j, l :: 0 <= j < l < |layer.neurons| ==> layer.neurons[j] != layer.neurons[l]
    requires forall n :: n in place ==> n !in layer.neurons
    ensures Placed(ls + [layer], Enroll(place, layer.neurons, |ls|))
  {
    var all, r := ls + [layer], Enroll(place, layer.neurons, |ls|);
    forall i, p | 0 <= i < |all| && 0 <= p < |all[i].neurons|
      ensures all[i].neurons[p] in r && r[all[i].neurons[p]] == (i, p)
    {
      if i < |ls| {
        assert all[i] == ls[i];
      }
    }
  }

  /** No neuron of the layers has an input or an output yet. */
  ghost predicate Blank(ls: seq<Layer>)
    reads ls`neurons, set k, p | 0 <= k < |ls| && 0 <= p < |ls[k].neurons| :: ls[k].neurons[p]
  {
    forall k, p :: 0 <= k < |ls| && 0 <= p < |ls[k].neurons| ==> ls[k].neurons[p].inputs == [] && ls[k].neurons[p].outputs == []
  }

  /** A fresh layer of n fresh, distinct, unwired neurons, placed after the
      given layers. */
  method AddLayer(ls: seq<Layer>, ghost place: map<Neuron, (int, int)>, n: int)
    returns (layer: Layer, ghost place': map<Neuron, (int, int)>)
    requires n >= 1 && Placed(ls, place) && Blank(ls)
    ensures fresh(layer) && |layer.neurons| == n
    ensures Placed(ls + [layer], place') && Blank(ls + [layer])
    ensures forall m :: m in place' ==> m in place || fresh(m)
  {
    var r := Layer.Create(n);
    layer := r.value;
    PlacedSnoc(ls, place, layer);
    place' := Enroll(place, layer.neurons, |ls|);
  }

  /** One fresh layer per entry of t, with that many fresh, distinct,
      unwired neurons, and the map that records where each neuron sits. */
  method CreateLayers(t: seq<int>) returns (ls: seq<Layer>, ghost place: map<Neuron, (int, int)>)
    requires Positive(t)
    ensures Sizes(ls) == t
    ensures Placed(ls, place)
    ensures forall k, p :: 0 <= k < |ls| && 0 <= p < |ls[k].neurons| ==> ls[k].neurons[p].inputs == [] && ls[k].neurons[p].outputs == []
    ensures forall k :: 0 <= k < |ls| ==> fresh(ls[k])
    ensures forall n :: n in place ==> fresh(n)
  {
    ls, place := [], map[];
    var k := 0;
    while k < |t|
      invariant 0 <= k <= |t| && |ls| == k
      invariant forall m :: 0 <= m < k ==> |ls[m].neurons| == t[m]
      invariant Placed(ls, place) && Blank(ls)
      invariant forall m :: 0 <= m < k ==> fresh(ls[m])
      invariant forall n :: n in place ==> fresh(n)
    {
      var layer;
      layer, place := AddLayer(ls, place, t[k]);
      ghost var front := ls;
      ls := ls + [layer];
      assert forall m :: 0 <= m < k ==> ls[m] == front[m];
      k := k + 1;
    }
    assert Sizes(ls) == t;
  }

  /** Wires layer i - 1 to layer i when the layers before are wired and the
      rest are not, keeping what holds of the layers before. */
  method Wire(ls: seq<Layer>, ghost place: map<Neuron, (int, int)>, i: int, ghost slot0: map<Synapse, (int, int, int)>)
    returns (ghost slot: map<Synapse, (int, int, int)>)
    requires 1 <= i < |ls| && Placed(ls, place) && Slotted(ls, place, slot0, i - 1)
    requires forall k, p :: i <= k < |ls| && 0 <= p < |ls[k].neurons| ==> ls[k].neurons[p].inputs == []
    requires forall k, p :: i - 1 <= k < |ls| && 0 <= p < |ls[k].neurons| ==> ls[k].neurons[p].outputs == []
    requires forall k :: 0 <= k < i - 1 ==> LinkedAt(ls, k)
    modifies Row(place, i - 1)`outputs, Row(place, i)`inputs
    ensures Placed(ls, place) && Slotted(ls, place, slot, i)
    ensures forall k, p :: i + 1 <= k < |ls| && 0 <= p < |ls[k].neurons| ==> ls[k].neurons[p].inputs == []
    ensures forall k, p :: i <= k < |ls| && 0 <= p < |ls[k].neurons| ==> ls[k].neurons[p].outputs == []
    ensures forall k :: 0 <= k < i ==> LinkedAt(ls, k)
    ensures forall s :: s in slot0 ==> s in slot && slot[s] == slot0[s]
    ensures forall s :: s in slot ==> s in slot0 || fresh(s)
  {
    slot := ConnectLayers(ls[i - 1], ls[i], place, i, slot0);
    forall k | 0 <= k < i - 1 ensures LinkedAt(ls, k) {
      assert old(LinkedAt(ls, k));
    }
    forall k, p | i <= k < |ls| && 0 <= p < |ls[k].neurons| ensures ls[k].neurons[p].outputs == [] {
      assert place[ls[k].neurons[p]] == (k, p);
    }
    forall k, p | i + 1 <= k < |ls| && 0 <= p < |ls[k].neurons| ensures ls[k].neurons[p].inputs == [] {
      assert place[ls[k].neurons[p]] == (k, p);
    }
  }

  /** Gives the last layer its terminal outputs once every layer is wired. */
  method Finish(ls: seq<Layer>, ghost place: map<Neuron, (int, int)>, ghost slot0: map<Synapse, (int, int, int)>)
    returns (ghost slot: map<Synapse, (int, int, int)>)
    requires |ls| >= 1 && Placed(ls, place) && Slotted(ls, place, slot0, |ls| - 1)
    requires forall k, p :: k == |ls| - 1 && 0 <= p < |ls[k].neurons| ==> ls[k].neurons[p].outputs == []
    requires forall k :: 0 <= k < |ls| - 1 ==> LinkedAt(ls, k)
    modifies Row(place, |ls| - 1)`outputs
    ensures Placed(ls, place) && Slotted(ls, place, slot, |ls|)
    ensures forall k :: 0 <= k < |ls| - 1 ==> LinkedAt(ls, k)
    ensures Terminal(ls[|ls| - 1])
    ensures forall s :: s in slot0 ==> s in slot && slot[s] == slot0[s]
    ensures forall s :: s in slot ==> s in slot0 || fresh(s)
  {
    slot := Terminate(ls[|ls| - 1], place, |ls| - 1, slot0);
    forall k | 0 <= k < |ls| - 1 ensures LinkedAt(ls, k) {
      assert old(LinkedAt(ls, k));
    }
  }

  /** Wires fresh, unwired layers as the net's constructor does: every
      neuron of each layer to every neuron of the next, then one terminal
      output on every neuron of the last layer. The map records every output
      synapse by its position. */
  method Build(ls: seq<Layer>, ghost place: map<Neuron, (int, int)>) returns (ghost slot: map<Synapse, (int, int, int)>)
    requires |ls| >= 1 && Placed(ls, place)
    requires forall k, p :: 0 <= k < |ls| && 0 <= p < |ls[k].neurons| ==> ls[k].neurons[p].inputs == [] && ls[k].neurons[p].outputs == []
    modifies place.Keys`inputs, place.Keys`outputs
    ensures Wired(ls, place, slot)
    ensures forall s :: s in slot ==> fresh(s)
  {
    slot := map[];
    var i := 1;
    while i < |ls|
      invariant 1 <= i <= |ls|
      invariant Slotted(ls, place, slot, i - 1)
      invariant forall k, p :: i <= k < |ls| && 0 <= p < |ls[k].neurons| ==> ls[k].neurons[p].inputs == []
      invariant forall k, p :: i - 1 <= k < |ls| && 0 <= p < |ls[k].neurons| ==> ls[k].neurons[p].outputs == []
      invariant forall p :: 0 <= p < |ls[0].neurons| ==> ls[0].neurons[p].inputs == []
      invariant forall k :: 0 <= k < i - 1 ==> LinkedAt(ls, k)
      invariant forall s :: s in slot ==> fresh(s)
    {
      slot := Wire(ls, place, i, slot);
      i := i + 1;
    }
    slot := Finish(ls, place, slot);
  }
}
