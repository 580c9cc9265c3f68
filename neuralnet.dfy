/** The net: an ordered list of layers, every adjacent pair fully connected
    through shared synapses, and the two ways of running it - Think on the
    object graph and ThinkFast on flat arrays. */
module Networks {
  import opened Errors
  import opened FeedForward
  import opened Layout
  import opened Connections
  import opened Neurons
  import opened Layers
  import opened Wiring
  import opened FastPath

  /** Every output of neuron p of the layer holds ys[p]. */
  ghost predicate Carries(layer: Layer, ys: seq<real>)
    reads layer`neurons, layer.neurons`outputs, OutputSet(layer.neurons)`value
  {
    |ys| == |layer.neurons|
    && forall p, c ::
         0 <= p < |layer.neurons| && 0 <= c < |layer.neurons[p].outputs|
         ==> layer.neurons[p].outputs[c].value == ys[p]
  }

  /** The layer carries the pass of x through the first k layers of ps. */
  ghost predicate Reached(sigmoid: real -> real, x: seq<real>, ps: seq<seq<NeuronParams>>, layer: Layer, k: int)
    reads layer`neurons, layer.neurons`outputs, OutputSet(layer.neurons)`value
  {
    0 <= k <= |ps| && Fits(|x|, ps[..k]) && Carries(layer, Forward(sigmoid, x, ps[..k]))
  }

  /** Every input synapse of the given neurons. */
  ghost function InputSet(ns: seq<Neuron>): set<Synapse>
    reads ns`inputs
  {
    set j, a | 0 <= j < |ns| && 0 <= a < |ns[j].inputs| :: ns[j].inputs[a]
  }

  /** The parameters of the given neurons, in order. */
  ghost function LayerParams(ns: seq<Neuron>): (ps: seq<NeuronParams>)
    reads ns`bias, ns`inputs, InputSet(ns)`weight
    ensures |ps| == |ns| && forall j :: 0 <= j < |ns| ==> ps[j] == ns[j].Params()
  {
    if ns == [] then []
    else
      var n := |ns| - 1;
      assert InputSet(ns[..n]) <= InputSet(ns) by {
        forall s | s in InputSet(ns[..n]) ensures s in InputSet(ns) {
          var j, a :| 0 <= j < n && 0 <= a < |ns[..n][j].inputs| && s == ns[..n][j].inputs[a];
          assert s == ns[j].inputs[a];
        }
      }
      LayerParams(ns[..n]) + [ns[n].Params()]
  }

  /** Every output synapse of the given neurons. */
  ghost function OutputSet(ns: seq<Neuron>): set<Synapse>
    reads ns`outputs
  {
    set j, b | 0 <= j < |ns| && 0 <= b < |ns[j].outputs| :: ns[j].outputs[b]
  }

  /** What Think returns: the value of every output of every neuron, neuron
      after neuron and output after output. */
  function Collect(ns: seq<Neuron>): (vs: seq<real>)
    reads ns`outputs, OutputSet(ns)`value
  {
    if ns == [] then []
    else
      var n := |ns| - 1;
      assert OutputSet(ns[..n]) <= OutputSet(ns) by {
        forall s | s in OutputSet(ns[..n]) ensures s in OutputSet(ns) {
          var j, b :| 0 <= j < n && 0 <= b < |ns[..n][j].outputs| && s == ns[..n][j].outputs[b];
          assert s == ns[j].outputs[b];
        }
      }
      Collect(ns[..n]) + Values(ns[n].outputs)
  }

  /** The query yields the value of every output of every neuron, and no
      other value. */
  lemma {:induction false} CollectGathers(ns: seq<Neuron>)
    ensures Gathers(ns, Collect(ns))
  {
    if ns != [] {
      var n := |ns| - 1;
      CollectGathers(ns[..n]);
      CollectSnoc(ns, Collect(ns[..n]), Values(ns[n].outputs));
    }
  }

  /** Every output value of ns is among vs, and every entry of vs is one. */
  ghost predicate Gathers(ns: seq<Neuron>, vs: seq<real>)
    reads ns`outputs, OutputSet(ns)`value
  {
    (forall j, b :: 0 <= j < |ns| && 0 <= b < |ns[j].outputs| ==> ns[j].outputs[b].value in vs)
    && forall k :: 0 <= k < |vs| ==> IsOutputValue(ns, vs[k])
  }

  /** x is the value of some output of some neuron of ns. */
  ghost predicate IsOutputValue(ns: seq<Neuron>, x: real)
    reads ns`outputs, OutputSet(ns)`value
  {
    exists j, b :: 0 <= j < |ns| && 0 <= b < |ns[j].outputs| && x == ns[j].outputs[b].value
  }

  /** Gathering the neurons before the last and then the last one's outputs
      gathers them all. */
  lemma CollectSnoc(ns: seq<Neuron>, front: seq<real>, last: seq<real>)
    requires ns != [] && last == Values(ns[|ns| - 1].outputs)
    requires Gathers(ns[..|ns| - 1], front)
    ensures Gathers(ns, front + last)
  {
    var n, vs := |ns| - 1, front + last;
    forall j, b | 0 <= j < |ns| && 0 <= b < |ns[j].outputs| ensures ns[j].outputs[b].value in vs {
      if j < n {
        assert ns[..n][j] == ns[j];
        assert ns[..n][j].outputs[b].value in front;
      } else {
        assert vs[|front| + b] == ns[j].outputs[b].value;
      }
    }
    forall k | 0 <= k < |vs| ensures IsOutputValue(ns, vs[k]) {
      if k < |front| {
        assert vs[k] == front[k] && IsOutputValue(ns[..n], front[k]);
        var j, b :| 0 <= j < n && 0 <= b < |ns[..n][j].outputs| && front[k] == ns[..n][j].outputs[b].value;
        assert ns[..n][j] == ns[j];
      } else {
        var b := k - |front|;
        assert vs[k] == ns[n].outputs[b].value;
      }
    }
  }

  /** When every neuron has exactly one output, holding ys[j], the query
      yields ys: one value per neuron, in neuron order. */
  lemma {:induction false} CollectOneEach(ns: seq<Neuron>, ys: seq<real>)
    requires |ys| == |ns|
    requires forall j :: 0 <= j < |ns| ==> |ns[j].outputs| == 1 && ns[j].outputs[0].value == ys[j]
    ensures Collect(ns) == ys
  {
    if ns != [] {
      var n := |ns| - 1;
      CollectOneEach(ns[..n], ys[..n]);
      assert Values(ns[n].outputs) == [ys[n]];
      FrontLast(ys);
    }
  }

  /** Puts the raw inputs on the outputs of the given neurons, input p on
      every output of neuron p. */
  method Present(ns: seq<Neuron>, x: seq<real>)
    requires |x| == |ns|
    requires forall j, k, b, c ::
      0 <= j < |ns| && 0 <= k < |ns| && j != k && 0 <= b < |ns[j].outputs| && 0 <= c < |ns[k].outputs|
      ==> ns[j].outputs[b] != ns[k].outputs[c]
    modifies OutputSet(ns)`value
    ensures forall p, c :: 0 <= p < |ns| && 0 <= c < |ns[p].outputs| ==> ns[p].outputs[c].value == x[p]
  {
    var i := 0;
    while i < |x|
      invariant 0 <= i <= |x|
      invariant forall p, c :: 0 <= p < i && 0 <= c < |ns[p].outputs| ==> ns[p].outputs[c].value == x[p]
    {
      ns[i].Fire(x[i]);
      i := i + 1;
    }
  }

  /** The count the vector-loading constructor demands, summed layer by
      layer from the second: each layer's size, plus its size times the size
      of the layer before it. */
  method CountInitialization(t: seq<int>) returns (required: int)
    ensures required == RequiredInitializationCount(t)
  {
    required := 0;
    var i := 1;
    while i < |t|
      invariant 1 <= i && (t != [] ==> i <= |t|)
      invariant t == [] ==> required == 0
      invariant i <= |t| ==> required == RequiredInitializationCount(t[..i])
    {
      assert t[..i + 1][..i] == t[..i];
      required := required + t[i];
      required := required + t[i] * t[i - 1];
      i := i + 1;
    }
    if t != [] {
      assert t[..i] == t;
    }
  }

  /** The biases of the neurons, in order. */
  function Biases(ns: seq<Neuron>): (bs: seq<real>)
    reads ns`bias
    ensures |bs| == |ns| && forall k {:trigger bs[k]} :: 0 <= k < |ns| ==> bs[k] == ns[k].bias
  {
    if ns == [] then [] else Biases(ns[..|ns| - 1]) + [ns[|ns| - 1].bias]
  }

  /** Gives the neuron v[start] as its bias and the values after it as its
      input weights, in input order, and returns the index after the last
      value taken. */
  method LoadNeuron(n: Neuron, v: seq<real>, start: int) returns (next: int)
    requires 0 <= start && start + 1 + |n.inputs| <= |v|
    requires forall a, b :: 0 <= a < b < |n.inputs| ==> n.inputs[a] != n.inputs[b]
    modifies n`bias, n.inputs`weight
    ensures next == start + 1 + |n.inputs|
    ensures n.Params() == NeuronParams(v[start], v[start + 1..next])
    ensures Bears(n, NeuronParams(v[start], v[start + 1..next]))
  {
    n.bias := v[start];
    next := start + 1;
    var a := 0;
    while a < |n.inputs|
      invariant 0 <= a <= |n.inputs| && next == start + 1 + a
      invariant n.bias == v[start]
      invariant forall b :: 0 <= b < a ==> n.inputs[b].weight == v[start + 1 + b]
    {
      n.inputs[a].weight := v[next];
      next := next + 1;
      a := a + 1;
    }
    assert Weights(n.inputs) == v[start + 1..next];
    BearsParams(n, NeuronParams(v[start], v[start + 1..next]));
  }

  /** The neuron's bias and input weights are those of q: Params() == q
      stated field by field, which survives writes to other neurons. */
  ghost predicate Bears(n: Neuron, q: NeuronParams)
    reads n`bias, n`inputs, n.inputs`weight
  {
    n.bias == q.bias && |n.inputs| == |q.weights|
    && forall p :: 0 <= p < |n.inputs| ==> n.inputs[p].weight == q.weights[p]
  }

  /** Neuron n, fed by w neurons, keeps the bias of q, which has w weights. */
  ghost predicate CarriesBias(n: Neuron, q: NeuronParams, w: int)
    reads n`bias
  {
    |q.weights| == w && n.bias == q.bias
  }

  /** Synapse s, output c of neuron p, keeps input weight p of neuron c of d. */
  ghost predicate CarriesWeight(s: Synapse, d: seq<NeuronParams>, p: int, c: int)
    reads s`weight
  {
    0 <= c < |d| && 0 <= p < |d[c].weights| && s.weight == d[c].weights[p]
  }

  lemma BearsParams(n: Neuron, q: NeuronParams)
    ensures Bears(n, q) <==> n.Params() == q
  {
    if Bears(n, q) {
      assert Weights(n.inputs) == q.weights;
    }
  }

  /** The neurons ns of layer i: each sits at its index and has w inputs,
      input p of neuron c being recorded as output c of neuron p of layer
      i - 1. */
  ghost predicate Indexed(ns: seq<Neuron>, w: nat, i: int, place: map<Neuron, (int, int)>, slot: map<Synapse, (int, int, int)>)
    reads ns`inputs
  {
    (forall c :: 0 <= c < |ns| ==> ns[c] in place && place[ns[c]] == (i, c))
    && (forall c :: 0 <= c < |ns| ==> |ns[c].inputs| == w)
    && forall c, p :: 0 <= c < |ns| && 0 <= p < |ns[c].inputs| ==>
      ns[c].inputs[p] in slot && slot[ns[c].inputs[p]] == (i - 1, p, c)
  }

  /** The first c neurons of ns bear their entries of q. */
  ghost predicate BearsUpTo(ns: seq<Neuron>, q: seq<NeuronParams>, c: int)
    requires 0 <= c <= |ns| && |ns| == |q|
    reads ns`bias, ns`inputs, set d, p | 0 <= d < |ns| && 0 <= p < |ns[d].inputs| :: ns[d].inputs[p]`weight
  {
    forall d :: 0 <= d < c ==> Bears(ns[d], q[d])
  }

  /** Loads neuron c of ns from the run of v that starts at `next`, which
      holds q[c]; the neurons before it keep bearing their entries of q. */
  method LoadAt(ns: seq<Neuron>, w: nat, v: seq<real>, c: nat, next: int, ghost q: seq<NeuronParams>,
                ghost i: int, ghost place: map<Neuron, (int, int)>, ghost slot: map<Synapse, (int, int, int)>)
    returns (after: int)
    requires Indexed(ns, w, i, place, slot) && c < |ns| == |q|
    requires 0 <= next && next + 1 + w <= |v| && q[c] == NeuronParams(v[next], v[next + 1..next + 1 + w])
    requires BearsUpTo(ns, q, c)
    modifies Row(place, i)`bias, Band(slot, i - 1)`weight
    ensures after == next + 1 + w
    ensures Indexed(ns, w, i, place, slot) && BearsUpTo(ns, q, c + 1)
  {
    assert ns[c] in Row(place, i);
    assert forall p :: 0 <= p < |ns[c].inputs| ==> ns[c].inputs[p] in Band(slot, i - 1);
    label before:
    after := LoadNeuron(ns[c], v, next);
    forall d | 0 <= d < c ensures Bears(ns[d], q[d]) {
      assert old@before(Bears(ns[d], q[d]));
      assert place[ns[d]] != place[ns[c]];
    }
  }

  /** Loads the neurons ns of layer i from v, neuron after neuron, starting
      at `start`: each neuron takes one value as its bias and then one weight
      per input, w of them. Returns the index after the last value taken;
      only the biases of layer i and the weights of its inputs change. */
  method LoadLayer(ns: seq<Neuron>, w: nat, v: seq<real>, start: nat, ghost q: seq<NeuronParams>,
                   ghost i: int, ghost place: map<Neuron, (int, int)>, ghost slot: map<Synapse, (int, int, int)>)
    returns (next: int)
    requires Indexed(ns, w, i, place, slot) && |q| == |ns|
    requires start + Runs(|ns|, 1 + w) <= |v| && LaidOut(q, v, start, w)
    modifies Row(place, i)`bias, Band(slot, i - 1)`weight
    ensures next == start + Runs(|ns|, 1 + w)
    ensures BearsUpTo(ns, q, |ns|)
  {
    next := start;
    var c := 0;
    while c < |ns|
      invariant 0 <= c <= |ns| && next == start + Runs(c, 1 + w)
      invariant Indexed(ns, w, i, place, slot) && BearsUpTo(ns, q, c)
    {
      assert LaidAt(q, v, start, w, c);
      assert Runs(c + 1, 1 + w) == Runs(c, 1 + w) + 1 + w;
      next := LoadAt(ns, w, v, c, next, q, i, place, slot);
      c := c + 1;
    }
  }

  /** The structure of a net as plain values: N[m] the neurons of layer m,
      S[m][p] the outputs of neuron p of layer m, every neuron and every
      output at its recorded place. */
  ghost predicate Grid(N: seq<seq<Neuron>>, S: seq<seq<seq<Synapse>>>, place: map<Neuron, (int, int)>, slot: map<Synapse, (int, int, int)>)
  {
    |S| == |N|
    && (forall m :: 0 <= m < |N| ==> |S[m]| == |N[m]|)
    && (forall m, c :: 0 <= m < |N| && 0 <= c < |N[m]| ==> N[m][c] in place && place[N[m][c]] == (m, c))
    && forall m, p, c :: 0 <= m < |S| && 0 <= p < |S[m]| && 0 <= c < |S[m][p]| ==>
         S[m][p][c] in slot && slot[S[m][p][c]] == (m, p, c)
  }

  /** Neuron c of layer i has one input per neuron of layer i - 1, input p
      being output c of neuron p of layer i - 1. */
  ghost predicate Fed(N: seq<seq<Neuron>>, S: seq<seq<seq<Synapse>>>, i: int, place: map<Neuron, (int, int)>, slot: map<Synapse, (int, int, int)>)
    requires 1 <= i < |N| && |S| == |N|
    reads N[i]`inputs
  {
    var outs := S[i - 1];
    Indexed(N[i], |N[i - 1]|, i, place, slot)
    && (forall p :: 0 <= p < |outs| ==> |outs[p]| == |N[i]|)
    && (forall c :: 0 <= c < |N[i]| ==> |N[i][c].inputs| == |outs|)
    && forall c, p :: 0 <= c < |N[i]| && 0 <= p < |outs| ==> N[i][c].inputs[p] == outs[p][c]
  }

  /** N and S are the structure of a net of topology t. */
  ghost predicate Shaped(t: seq<int>, N: seq<seq<Neuron>>, S: seq<seq<seq<Synapse>>>, place: map<Neuron, (int, int)>, slot: map<Synapse, (int, int, int)>)
  {
    Positive(t) && |t| == |N| && (forall m :: 0 <= m < |N| ==> t[m] == |N[m]|) && Grid(N, S, place, slot)
  }

  /** Layers 1 to i - 1 of the snapshot carry `done`. */
  ghost predicate Carried(N: seq<seq<Neuron>>, S: seq<seq<seq<Synapse>>>, done: seq<seq<NeuronParams>>, i: int)
    reads *
  {
    |done| == i - 1 && i <= |N|
    && (forall m :: 1 <= m < i ==> |done[m - 1]| == |N[m]|)
    && (forall m, c :: 1 <= m < i && 0 <= c < |N[m]| ==> CarriesBias(N[m][c], done[m - 1][c], |N[m - 1]|))
    && forall m, p, c :: 0 <= m < i - 1 && m < |S| && 0 <= p < |S[m]| && 0 <= c < |S[m][p]| ==>
         CarriesWeight(S[m][p][c], done[m], p, c)
  }

  /** Loads layer i, the neurons ns fed by w neurons, from v at `next`:
      layers 1 .. i - 1 already carry `done`, which v interleaves up to
      `next`; afterwards layer i carries the next stretch of v as well. */
  method LoadStep(ns: seq<Neuron>, w: nat, v: seq<real>, i: int, next: nat, ghost t: seq<int>,
                  ghost N: seq<seq<Neuron>>, ghost S: seq<seq<seq<Synapse>>>,
                  ghost place: map<Neuron, (int, int)>, ghost slot: map<Synapse, (int, int, int)>,
                  ghost done: seq<seq<NeuronParams>>)
    returns (after: nat, ghost done': seq<seq<NeuronParams>>)
    requires Shaped(t, N, S, place, slot) && 1 <= i < |N| && ns == N[i] && w == |N[i - 1]|
    requires Fed(N, S, i, place, slot)
    requires next + RequiredFrom(t, i) == |v| && Interleave(done) == v[..next] && Carried(N, S, done, i)
    modifies Row(place, i)`bias, Band(slot, i - 1)`weight
    ensures after + RequiredFrom(t, i + 1) == |v| && Interleave(done') == v[..after] && Carried(N, S, done', i + 1)
    ensures Biases(N[0]) == old(Biases(N[0]))
  {
    assert forall c :: 0 <= c < |N[0]| ==> N[0][c] !in Row(place, i);
    ghost var q, end := NextStretch(t, i, v, next, done);
    after := LoadLayer(ns, w, v, next, q, i, place, slot);
    done' := done + [q];
    forall m | 1 <= m <= i ensures |done'[m - 1]| == |N[m]| {
    }
    forall m, c | 1 <= m <= i && 0 <= c < |N[m]| ensures CarriesBias(N[m][c], done'[m - 1][c], |N[m - 1]|) {
      if m < i {
        assert old(CarriesBias(N[m][c], done[m - 1][c], |N[m - 1]|));
        assert N[m][c] !in Row(place, i);
      } else {
        assert Bears(ns[c], q[c]);
      }
    }
    forall m, p, c | 0 <= m < i && m < |S| && 0 <= p < |S[m]| && 0 <= c < |S[m][p]| ensures CarriesWeight(S[m][p][c], done'[m], p, c) {
      if m < i - 1 {
        assert old(CarriesWeight(S[m][p][c], done[m], p, c));
        assert S[m][p][c] !in Band(slot, i - 1);
      } else {
        assert Bears(ns[c], q[c]);
      }
    }
  }

  /** Loads v into the layers ls after the first, in layer order: the
      stretch of each layer goes to its neurons, each neuron taking its bias
      and then one weight per input. Afterwards the layers carry `done`,
      which v interleaves. */
  method LoadLayers(ls: seq<Layer>, v: seq<real>, ghost t: seq<int>, ghost N: seq<seq<Neuron>>, ghost S: seq<seq<seq<Synapse>>>,
                    ghost place: map<Neuron, (int, int)>, ghost slot: map<Synapse, (int, int, int)>)
    returns (ghost done: seq<seq<NeuronParams>>)
    requires Shaped(t, N, S, place, slot) && |t| >= 1 && |v| == RequiredInitializationCount(t)
    requires |N| == |ls| && forall m :: 0 <= m < |N| ==> ls[m].neurons == N[m]
    requires forall i :: 1 <= i < |N| ==> Fed(N, S, i, place, slot)
    modifies place.Keys`bias, slot.Keys`weight
    ensures Interleave(done) == v && Carried(N, S, done, |N|)
    ensures Biases(N[0]) == old(Biases(N[0]))
  {
    RequiredCountFromStart(t);
    done := [];
    var next: nat := 0;
    var i := 1;
    while i < |ls|
      invariant 1 <= i <= |ls|
      invariant next + RequiredFrom(t, i) == |v| && Interleave(done) == v[..next] && Carried(N, S, done, i)
      invariant Biases(N[0]) == old(Biases(N[0]))
    {
      assert Row(place, i) <= place.Keys && Band(slot, i - 1) <= slot.Keys;
      assert Fed(N, S, i, place, slot);
      next, done := LoadStep(ls[i].neurons, |ls[i - 1].neurons|, v, i, next, t, N, S, place, slot, done);
      i := i + 1;
    }
  }

  /** The two ways of running a net agree. The net built from topology t
      and loaded from the vector v thinks, on inputs as wide as its first
      layer, the feed-forward pass over the parameters v assigns; with two
      or more layers ThinkFast, given v's biases and weights pulled apart,
      returns the same outputs. A net of one layer passes its inputs through
      unchanged, whereas ThinkFast refuses to run without a layer after the
      input layer. */
  method ThinkBothWays(sigmoid: real -> real, t: seq<int>, v: seq<real>, x: seq<real>)
    returns (slow: Result<seq<real>>, fast: Result<seq<real>>)
    requires |t| >= 1 && Positive(t) && |v| == RequiredInitializationCount(t) && |x| == t[0]
    ensures slow == Success(Forward(sigmoid, x, ParamsFromVector(t, v)))
    ensures |t| >= 2 ==> fast == slow
    ensures |t| == 1 ==> slow == Success(x) && fast == Failure(Argument("neuronsPerLayerAfterInputLayer", NoLayerSizes))
  {
    slow := ThinkLoaded(sigmoid, t, v, x);
    var bw := Deinterleave(t, v);
    if |t| >= 2 {
      DeinterleavedAccepted(t, v, x);
    }
    fast := NeuralNet.ThinkFast(sigmoid, Some(x), Some(t[1..]), Some(bw.0), Some(bw.1));
  }

  /** Think on the net built from topology t and loaded from the vector v. */
  method ThinkLoaded(sigmoid: real -> real, t: seq<int>, v: seq<real>, x: seq<real>) returns (slow: Result<seq<real>>)
    requires |t| >= 1 && Positive(t) && |v| == RequiredInitializationCount(t) && |x| == t[0]
    ensures slow == Success(Forward(sigmoid, x, ParamsFromVector(t, v)))
  {
    var net := Built(t, v);
    slow := net.Think(sigmoid, Some(x));
  }

  /** The net the vector-loading constructor builds from arguments it accepts. */
  method Built(t: seq<int>, v: seq<real>) returns (net: NeuralNet)
    requires |t| >= 1 && Positive(t) && |v| == RequiredInitializationCount(t)
    ensures fresh(net) && net.Valid() && |net.layers[0].neurons| == t[0]
    ensures net.Params() == ParamsFromVector(t, v)
    ensures forall s :: s in net.slot ==> fresh(s)
  {
    var created := NeuralNet.CreateWithParameters(Some(t), Some(v));
    net := created.value;
  }

  class NeuralNet {
    /** The layers, input layer first. */
    var layers: seq<Layer>
    /** Bookkeeping for the proofs: where each neuron sits, as (layer, index). */
    ghost var place: map<Neuron, (int, int)>
    /** Bookkeeping for the proofs: which output each synapse is, as
        (layer, neuron, output index). */
    ghost var slot: map<Synapse, (int, int, int)>

    /** The topology constructor: one layer per entry of the topology, with
        that many fresh neurons, wired as the net's structure demands. A
        missing or empty topology is refused first, then one with an entry
        below one, both as an ArgumentException on `neuronsPerLayer`. */
    static method Create(neuronsPerLayer: Option<seq<int>>) returns (r: Result<NeuralNet>)
      ensures r.Failure? <==> neuronsPerLayer.None? || neuronsPerLayer.value == [] || !Positive(neuronsPerLayer.value)
      ensures r.Failure? && (neuronsPerLayer.None? || neuronsPerLayer.value == []) ==> r.error == Argument("neuronsPerLayer", NoLayers)
      ensures r.Failure? && neuronsPerLayer.Some? && neuronsPerLayer.value != [] ==> r.error == Argument("neuronsPerLayer", NonPositiveLayer)
      ensures r.Success? ==> fresh(r.value) && r.value.Valid() && r.value.Topology() == neuronsPerLayer.value
      ensures r.Success? ==> forall n :: n in r.value.place ==> fresh(n)
      ensures r.Success? ==> forall s :: s in r.value.slot ==> fresh(s)
    {
      if neuronsPerLayer.None? || |neuronsPerLayer.value| == 0 {
        return Failure(Argument("neuronsPerLayer", NoLayers));
      }
      var t := neuronsPerLayer.value;
      if !Positive(t) {
        return Failure(Argument("neuronsPerLayer", NonPositiveLayer));
      }
      var ls, place := CreateLayers(t);
      ghost var slot := Build(ls, place);
      var net := new NeuralNet(ls, place, slot, t);
      return Success(net);
    }

    /** A net over layers of the topology's sizes that are wired as Build
        leaves them. */
    constructor (ls: seq<Layer>, ghost place: map<Neuron, (int, int)>, ghost slot: map<Synapse, (int, int, int)>, ghost t: seq<int>)
      requires Positive(t) && Sizes(ls) == t
      requires Wired(ls, place, slot)
      ensures layers == ls && this.place == place && this.slot == slot
      ensures Valid() && Topology() == t
    {
      layers, this.place, this.slot := ls, place, slot;
    }

    /** The parameterless constructor: the net of topology [1]. */
    static method CreateDefault() returns (net: NeuralNet)
      ensures fresh(net) && net.Valid() && net.Topology() == [1]
      ensures forall n :: n in net.place ==> fresh(n)
      ensures forall s :: s in net.slot ==> fresh(s)
    {
      var r := Create(Some([1]));
      net := r.value;
    }

    /** The vector-loading constructor: the topology constructor, then the
        parameters from one vector. A missing vector is refused with an
        ArgumentNullException, one of the wrong length with an
        ArgumentException that names the required count; otherwise every
        neuron after the input layer takes, layer by layer and neuron by
        neuron, its bias and then one weight per input. */
    static method CreateWithParameters(neuronsPerLayer: Option<seq<int>>, weightsAndBiases: Option<seq<real>>)
      returns (r: Result<NeuralNet>)
      ensures r.Failure? <==>
        neuronsPerLayer.None? || neuronsPerLayer.value == [] || !Positive(neuronsPerLayer.value)
        || weightsAndBiases.None? || |weightsAndBiases.value| != RequiredInitializationCount(neuronsPerLayer.value)
      ensures neuronsPerLayer.None? || neuronsPerLayer.value == [] ==> r.Failure? && r.error == Argument("neuronsPerLayer", NoLayers)
      ensures neuronsPerLayer.Some? && neuronsPerLayer.value != [] && !Positive(neuronsPerLayer.value) ==>
        r.Failure? && r.error == Argument("neuronsPerLayer", NonPositiveLayer)
      ensures neuronsPerLayer.Some? && neuronsPerLayer.value != [] && Positive(neuronsPerLayer.value) && weightsAndBiases.None? ==>
        r.Failure? && r.error == ArgumentNull("weightsAndBiases")
      ensures r.Failure? && neuronsPerLayer.Some? && neuronsPerLayer.value != [] && Positive(neuronsPerLayer.value) && weightsAndBiases.Some? ==>
        r.error == Argument("weightsAndBiases", RequiredCount(RequiredInitializationCount(neuronsPerLayer.value)))
      ensures r.Success? ==> fresh(r.value) && r.value.Valid() && r.value.Topology() == neuronsPerLayer.value
      ensures r.Success? ==> r.value.Params() == ParamsFromVector(neuronsPerLayer.value, weightsAndBiases.value)
      ensures r.Success? ==> forall s :: s in r.value.slot ==> fresh(s)
    {
      var created := Create(neuronsPerLayer);
      if created.Failure? {
        return Failure(created.error);
      }
      if weightsAndBiases.None? {
        return Failure(ArgumentNull("weightsAndBiases"));
      }
      var t := neuronsPerLayer.value;
      var required := CountInitialization(t);
      var v := weightsAndBiases.value;
      if |v| != required {
        return Failure(Argument("weightsAndBiases", RequiredCount(required)));
      }
      var net := created.value;
      net.LoadVector(v);
      return Success(net);
    }

    /** The number of neurons in each layer. */
    ghost function Topology(): (t: seq<int>)
      reads this`layers, layers`neurons
      ensures |t| == |layers| && forall i :: 0 <= i < |layers| ==> t[i] == |layers[i].neurons|
    {
      Sizes(layers)
    }

    /** The structure the constructor builds: at least one layer, none
        empty, all neurons and output synapses distinct, input-layer neurons
        without inputs, adjacent layers fully linked, and one terminal
        output on each neuron of the last layer. */
    ghost predicate Valid()
      reads this`layers, this`place, this`slot, layers`neurons, place.Keys`inputs, place.Keys`outputs
    {
      Wired(layers, place, slot)
      && forall i :: 0 <= i < |layers| ==> |layers[i].neurons| >= 1
    }

    /** The parameters of layers 1 to k, as the arithmetic sees them. */
    ghost function ParamsUpTo(k: int): (ps: seq<seq<NeuronParams>>)
      requires Valid() && 0 <= k < |layers|
      reads this`layers, this`place, this`slot, layers`neurons, place.Keys`bias, place.Keys`inputs, place.Keys`outputs, slot.Keys`weight
      ensures |ps| == k && forall i :: 0 <= i < k ==> ps[i] == LayerParams(layers[i + 1].neurons)
    {
      if k == 0 then []
      else
        InputsSlotted(k);
        ParamsUpTo(k - 1) + [LayerParams(layers[k].neurons)]
    }

    /** The parameters of every layer after the input layer, as the
        arithmetic sees them. */
    ghost function Params(): (ps: seq<seq<NeuronParams>>)
      requires Valid()
      reads this`layers, this`place, this`slot, layers`neurons, place.Keys`bias, place.Keys`inputs, place.Keys`outputs, slot.Keys`weight
      ensures |ps| == |layers| - 1
      ensures forall i :: 0 <= i < |ps| ==> ps[i] == LayerParams(layers[i + 1].neurons)
    {
      ParamsUpTo(|layers| - 1)
    }

    /** Neuron c of layer i + 1 reads output c of every neuron of layer i. */
    lemma InputIsOutput(i: int, c: int, p: int)
      requires Valid() && 1 <= i < |layers| && 0 <= c < |layers[i].neurons|
      requires 0 <= p < |layers[i - 1].neurons| || 0 <= p < |layers[i].neurons[c].inputs|
      ensures |layers[i].neurons[c].inputs| == |layers[i - 1].neurons|
      ensures c < |layers[i - 1].neurons[p].outputs|
      ensures layers[i].neurons[c].inputs[p] == layers[i - 1].neurons[p].outputs[c]
      ensures layers[i].neurons[c].inputs[p] in slot
    {
      assert LinkedAt(layers, i - 1);
    }

    /** The parameter set fits an input as wide as the input layer. */
    lemma ParamsFit()
      requires Valid()
      ensures Fits(|layers[0].neurons|, Params()) && Shape(Params()) == Topology()[1..]
    {
      var ps := Params();
      forall k | 0 <= k < |ps| ensures LayerFits(InputWidth(|layers[0].neurons|, ps, k), ps[k]) {
        assert LinkedAt(layers, k);
      }
    }

    lemma InputsSlotted(i: int)
      requires Valid() && 1 <= i < |layers|
      ensures InputSet(layers[i].neurons) <= slot.Keys
    {
      forall s | s in InputSet(layers[i].neurons) ensures s in slot.Keys {
        var c, p :| 0 <= c < |layers[i].neurons| && 0 <= p < |layers[i].neurons[c].inputs| && s == layers[i].neurons[c].inputs[p];
        InputIsOutput(i, c, p);
      }
    }

    lemma OutputsSlotted(i: int)
      requires Valid() && 0 <= i < |layers|
      ensures OutputSet(layers[i].neurons) <= slot.Keys
    {
    }

    /** Within one layer no neuron reads what a neuron of the layer writes,
        and no two neurons write the same synapse. */
    lemma LayerIndependent(i: int)
      requires Valid() && 0 <= i < |layers|
      ensures layers[i].Independent()
    {
      var ns := layers[i].neurons;
      forall j, k, a, b | 0 <= j < |ns| && 0 <= k < |ns| && 0 <= a < |ns[j].inputs| && 0 <= b < |ns[k].outputs|
        ensures ns[j].inputs[a] != ns[k].outputs[b]
      {
        InputIsOutput(i, j, a);
      }
    }

    /** When layer i - 1 carries ys, every neuron of layer i reads ys. */
    lemma InputsCarry(i: int, ys: seq<real>)
      requires Valid() && 1 <= i < |layers| && Carries(layers[i - 1], ys)
      ensures forall j :: 0 <= j < |layers[i].neurons| ==> Values(layers[i].neurons[j].inputs) == ys
    {
      assert LinkedAt(layers, i - 1);
      forall j | 0 <= j < |layers[i].neurons| ensures Values(layers[i].neurons[j].inputs) == ys {
        var xs := Values(layers[i].neurons[j].inputs);
        forall a | 0 <= a < |ys| ensures xs[a] == ys[a] {
          InputIsOutput(i, j, a);
        }
      }
    }

    /** Neuron c of layer i has one input per neuron of layer i - 1, and its
        input p is output c of neuron p there. */
    lemma InputsBanded(i: int, c: int)
      requires Valid() && 1 <= i < |layers| && 0 <= c < |layers[i].neurons|
      ensures |layers[i].neurons[c].inputs| == |layers[i - 1].neurons|
      ensures forall p :: 0 <= p < |layers[i].neurons[c].inputs| ==>
        layers[i].neurons[c].inputs[p] in slot && slot[layers[i].neurons[c].inputs[p]] == (i - 1, p, c)
    {
      assert LinkedAt(layers, i - 1);
      forall p | 0 <= p < |layers[i].neurons[c].inputs|
        ensures layers[i].neurons[c].inputs[p] in slot && slot[layers[i].neurons[c].inputs[p]] == (i - 1, p, c)
      {
        InputIsOutput(i, c, p);
      }
    }

    /** Every neuron of layer i holds its place, has one input per neuron of
        layer i - 1, and its input p is output c of neuron p there. */
    lemma LayerBanded(i: int)
      requires Valid() && 1 <= i < |layers|
      ensures forall c :: 0 <= c < |layers[i].neurons| ==>
        layers[i].neurons[c] in place && place[layers[i].neurons[c]] == (i, c)
      ensures forall c :: 0 <= c < |layers[i].neurons| ==> |layers[i].neurons[c].inputs| == |layers[i - 1].neurons|
      ensures forall c, p :: 0 <= c < |layers[i].neurons| && 0 <= p < |layers[i].neurons[c].inputs| ==>
        layers[i].neurons[c].inputs[p] in slot && slot[layers[i].neurons[c].inputs[p]] == (i - 1, p, c)
    {
      forall c | 0 <= c < |layers[i].neurons|
        ensures |layers[i].neurons[c].inputs| == |layers[i - 1].neurons|
        ensures forall p :: 0 <= p < |layers[i].neurons[c].inputs| ==>
          layers[i].neurons[c].inputs[p] in slot && slot[layers[i].neurons[c].inputs[p]] == (i - 1, p, c)
      {
        InputsBanded(i, c);
      }
    }

    /** The neurons of layer i, as loading them needs to know them. */
    lemma IndexedLayer(i: int)
      requires Valid() && 1 <= i < |layers|
      ensures Indexed(layers[i].neurons, |layers[i - 1].neurons|, i, place, slot)
    {
      LayerBanded(i);
    }

    /** N and S picture the net's structure as plain values: N[m] is the
        neurons of layer m and S[m][p] the outputs of neuron p of layer m.
        Loading parameters changes neither. */
    ghost predicate Pictures(N: seq<seq<Neuron>>, S: seq<seq<seq<Synapse>>>)
      reads this`layers, this`place, this`slot, layers`neurons, place.Keys`outputs
    {
      && |N| == |layers|
      && (forall m :: 0 <= m < |layers| ==> N[m] == layers[m].neurons)
      && Grid(N, S, place, slot)
      && forall m, p :: 0 <= m < |N| && 0 <= p < |N[m]| ==> S[m][p] == N[m][p].outputs
    }

    /** The pictured structure is shaped by the topology, and each layer of
        it after the input layer is fed by the layer before. */
    lemma Snapshot() returns (N: seq<seq<Neuron>>, S: seq<seq<seq<Synapse>>>)
      requires Valid()
      ensures Pictures(N, S) && Shaped(Topology(), N, S, place, slot)
      ensures forall i :: 1 <= i < |N| ==> Fed(N, S, i, place, slot)
    {
      N := seq(|layers|, m requires 0 <= m < |layers| reads * => layers[m].neurons);
      S := seq(|N|, m requires 0 <= m < |N| reads * => seq(|N[m]|, p requires 0 <= p < |N[m]| reads * => N[m][p].outputs));
      assert Positive(Topology());
      forall i | 1 <= i < |N| ensures Fed(N, S, i, place, slot) {
        assert LinkedAt(layers, i - 1);
        IndexedLayer(i);
      }
    }

    /** Loads v into every layer after the input layer, in layer order, and
        so gives the net the parameters the single vector describes; the
        biases of the input layer are left as they were. */
    method LoadVector(v: seq<real>)
      requires Valid() && |v| == RequiredInitializationCount(Topology())
      modifies place.Keys`bias, slot.Keys`weight
      ensures Valid()
      ensures slot == old(slot)  // follows from the frame; stated so that callers need not derive it
      ensures Topology() == old(Topology())
      ensures Params() == ParamsFromVector(Topology(), v)
      ensures Biases(layers[0].neurons) == old(Biases(layers[0].neurons))
    {
      ghost var t := Topology();
      ghost var N, S := Snapshot();
      ghost var done := LoadLayers(layers, v, t, N, S, place, slot);
      Loaded(N, S, t, done, v);
    }

    /** Layer m carries d: its parameters are d. */
    lemma LayerLoaded(N: seq<seq<Neuron>>, S: seq<seq<seq<Synapse>>>, m: int, d: seq<NeuronParams>)
      requires Valid() && Pictures(N, S) && 1 <= m < |layers|
      requires |d| == |N[m]| && forall c :: 0 <= c < |N[m]| ==> CarriesBias(N[m][c], d[c], |N[m - 1]|)
      requires forall k, p, c :: k == m - 1 && 0 <= p < |S[k]| && 0 <= c < |S[k][p]| ==> CarriesWeight(S[k][p][c], d, p, c)
      ensures LayerParams(layers[m].neurons) == d
    {
      var ns := layers[m].neurons;
      assert ns == N[m] && |d| == |ns|;
      forall c | 0 <= c < |ns| ensures ns[c].Params() == d[c] {
        assert CarriesBias(N[m][c], d[c], |N[m - 1]|);
        InputIsOutput(m, c, 0);
        forall p | 0 <= p < |d[c].weights| ensures Weights(ns[c].inputs)[p] == d[c].weights[p] {
          InputIsOutput(m, c, p);
          assert CarriesWeight(S[m - 1][p][c], d, p, c);
        }
        assert Weights(ns[c].inputs) == d[c].weights;
      }
    }

    /** When every layer after the input layer carries its entry of `done`
        and v interleaves `done`, the net's parameters are those v describes. */
    lemma Loaded(N: seq<seq<Neuron>>, S: seq<seq<seq<Synapse>>>, t: seq<int>, done: seq<seq<NeuronParams>>, v: seq<real>)
      requires Valid() && Pictures(N, S) && Shaped(t, N, S, place, slot)
      requires Interleave(done) == v && Carried(N, S, done, |N|)
      ensures Topology() == t && |v| == RequiredInitializationCount(t)
      ensures Params() == ParamsFromVector(t, v)
    {
      assert Topology() == t;
      forall m | 1 <= m < |layers| ensures LayerParams(layers[m].neurons) == done[m - 1] {
        LayerLoaded(N, S, m, done[m - 1]);
      }
      assert Params() == done;
      ParamsFit();
      ParamsFromVectorOfTopology(Topology(), done);
    }

    /** ps are the parameters of every layer after the input layer. */
    ghost predicate Holds(ps: seq<seq<NeuronParams>>)
      reads this`layers, this`place, this`slot, layers`neurons, place.Keys`bias, place.Keys`inputs, place.Keys`outputs, slot.Keys`weight
      requires Valid()
    {
      |ps| == |layers| - 1
      && forall i :: 0 <= i < |ps| ==> (InputsSlotted(i + 1); ps[i] == LayerParams(layers[i + 1].neurons))
    }

    /** The parameters are the only sequence that holds. */
    lemma HoldsParams(ps: seq<seq<NeuronParams>>)
      requires Valid()
      ensures Holds(ps) <==> ps == Params()
    {
    }

    /** The shape of the net and its parameters do not depend on the values
        the synapses carry. */
    twostate lemma Kept(ps: seq<seq<NeuronParams>>)
      requires old(Valid()) && old(Holds(ps))
      requires unchanged(this`layers, this`place, this`slot, old(layers)`neurons)
      requires unchanged(old(place).Keys`bias, old(place).Keys`inputs, old(place).Keys`outputs, old(slot).Keys`weight)
      ensures Valid()
      ensures Holds(ps)
    {
    }

    /** Runs the given input through the net. An input that is missing or
        not as wide as the input layer is refused before anything changes.
        Otherwise the inputs go, unchanged, onto the outputs of the input
        layer, every later layer thinks in turn, and the result is the value
        on each output of the last layer: the feed-forward pass over the
        net's parameters. Only synapse values change. */
    method Think(sigmoid: real -> real, inputs: Option<seq<real>>) returns (r: Result<seq<real>>)
      requires Valid()
      modifies slot.Keys`value
      ensures Valid()
      ensures Params() == old(Params())
      ensures r.Failure? <==> inputs.None? || |inputs.value| != |layers[0].neurons|
      ensures r.Failure? ==> r.error == Argument("inputs", InputCountMismatch) && unchanged(slot.Keys)
      ensures r.Success? ==> Fits(|inputs.value|, Params()) && r.value == Forward(sigmoid, inputs.value, Params())
    {
      if inputs.None? || |inputs.value| != |layers[0].neurons| {
        return Failure(Argument("inputs", InputCountMismatch));
      }
      var ys := Run(sigmoid, inputs.value);
      return Success(ys);
    }

    /** Think on an input as wide as the input layer. */
    method Run(sigmoid: real -> real, x: seq<real>) returns (ys: seq<real>)
      requires Valid() && |x| == |layers[0].neurons|
      modifies slot.Keys`value
      ensures Valid()
      ensures layers == old(layers) && layers[0].neurons == old(layers[0].neurons)
      ensures Params() == old(Params())
      ensures Fits(|x|, Params()) && ys == Forward(sigmoid, x, Params())
    {
      ghost var ps := Params();
      Prepared(ps);
      Load(x, ps);
      Propagate(sigmoid, x, ps);
      Finished(ps, Forward(sigmoid, x, ps));
      ys := Collect(layers[|layers| - 1].neurons);
    }

    /** Puts the raw inputs on the outputs of the input layer, input p on
        every output of neuron p. */
    method Load(x: seq<real>, ghost ps: seq<seq<NeuronParams>>)
      requires Valid() && Holds(ps) && |x| == |layers[0].neurons|
      modifies slot.Keys`value
      ensures Valid()
      ensures Holds(ps)
      ensures Carries(layers[0], x)
    {
      LayerIndependent(0);
      OutputsSlotted(0);
      Present(layers[0].neurons, x);
      Kept(ps);
    }

    /** What Think needs before the first write: the parameters hold and fit
        the input layer, and the input layer's outputs are distinct synapses
        of the net. */
    lemma Prepared(ps: seq<seq<NeuronParams>>)
      requires Valid() && ps == Params()
      ensures Holds(ps) && Fits(|layers[0].neurons|, ps)
    {
      ParamsFit();
      HoldsParams(ps);
    }

    /** What Think concludes after the last layer: the parameters are the
        ones it started from and the query yields what the last layer carries. */
    lemma Finished(ps: seq<seq<NeuronParams>>, ys: seq<real>)
      requires Valid() && Holds(ps) && Carries(layers[|layers| - 1], ys)
      ensures ps == Params()
      ensures Collect(layers[|layers| - 1].neurons) == ys
    {
      HoldsParams(ps);
      CollectOneEach(layers[|layers| - 1].neurons, ys);
    }

    /** Lets every layer after the input layer think, in order, when the
        input layer carries x: the last layer then carries the feed-forward
        pass of x. */
    method Propagate(sigmoid: real -> real, x: seq<real>, ghost ps: seq<seq<NeuronParams>>)
      requires Valid() && Holds(ps) && Fits(|x|, ps) && Carries(layers[0], x)
      modifies slot.Keys`value
      ensures Valid()
      ensures Holds(ps)
      ensures Carries(layers[|layers| - 1], Forward(sigmoid, x, ps))
    {
      assert ps[..0] == [];
      var k := 1;
      while k < |layers|
        invariant 1 <= k <= |layers|
        invariant Valid()
        invariant Holds(ps)
        invariant Reached(sigmoid, x, ps, layers[k - 1], k - 1)
      {
        Advance(sigmoid, x, ps, k);
        k := k + 1;
      }
      assert ps[..k - 1] == ps;
    }

    /** Lets layer k think when layer k - 1 carries the pass through the
        layers before it: layer k then carries the pass through layer k. */
    method Advance(sigmoid: real -> real, x: seq<real>, ghost ps: seq<seq<NeuronParams>>, k: int)
      requires Valid() && Holds(ps) && Fits(|x|, ps) && 1 <= k < |layers|
      requires Reached(sigmoid, x, ps, layers[k - 1], k - 1)
      modifies slot.Keys`value
      ensures Valid() && layers == old(layers)
      ensures Holds(ps)
      ensures Reached(sigmoid, x, ps, layers[k], k)
    {
      ForwardStep(sigmoid, x, ps, k - 1);
      OutputsSlotted(k);
      Step(sigmoid, k, Forward(sigmoid, x, ps[..k - 1]), ps);
    }

    /** Lets layer i think when layer i - 1 carries ys: layer i then
        carries its layer output for ys. */
    method Step(sigmoid: real -> real, i: int, ghost ys: seq<real>, ghost ps: seq<seq<NeuronParams>>)
      requires Valid() && Holds(ps) && 1 <= i < |layers| && Carries(layers[i - 1], ys)
      requires LayerFits(|ys|, ps[i - 1])
      modifies layers[i].Outputs()`value
      ensures Valid()
      ensures Holds(ps)
      ensures Carries(layers[i], LayerOutput(sigmoid, ps[i - 1], ys))
    {
      InputsCarry(i, ys);
      LayerIndependent(i);
      layers[i].Think(sigmoid);
      Kept(ps);
    }
  
    // -------------------------------------------------------------------
    // ThinkFast: the same computation on flat vectors, without a net.

    /** ThinkFast's check of its inputs: refused when missing or empty. */
    static function ValidateInputs(inputs: Option<seq<real>>): (o: Outcome)
      ensures o.Pass? <==> inputs.Some? && inputs.value != []
      ensures o.Fail? ==> o.error == Argument("inputs", NoInputs)
    {
      if inputs.None? || |inputs.value| == 0 then Fail(Argument("inputs", NoInputs)) else Pass
    }

    /** ThinkFast's check of the layer sizes: refused when missing or empty,
        and then when some size is below one. */
    static function ValidateNeuronsPerLayer(neuronsPerLayerAfterInputLayer: Option<seq<int>>): (o: Outcome)
      ensures o.Pass? <==>
        neuronsPerLayerAfterInputLayer.Some? && neuronsPerLayerAfterInputLayer.value != [] && Positive(neuronsPerLayerAfterInputLayer.value)
      ensures neuronsPerLayerAfterInputLayer.None? || neuronsPerLayerAfterInputLayer.value == [] ==>
        o == Fail(Argument("neuronsPerLayerAfterInputLayer", NoLayerSizes))
      ensures neuronsPerLayerAfterInputLayer.Some? && neuronsPerLayerAfterInputLayer.value != [] && o.Fail? ==>
        o.error == Argument("neuronsPerLayerAfterInputLayer", NonPositiveSize)
    {
      if neuronsPerLayerAfterInputLayer.None? || |neuronsPerLayerAfterInputLayer.value| == 0 then
        Fail(Argument("neuronsPerLayerAfterInputLayer", NoLayerSizes))
      else if exists k :: 0 <= k < |neuronsPerLayerAfterInputLayer.value| && neuronsPerLayerAfterInputLayer.value[k] < 1 then
        Fail(Argument("neuronsPerLayerAfterInputLayer", NonPositiveSize))
      else
        Pass
    }

    /** ThinkFast's check of the biases: refused when missing (naming the
        argument), and when there is not exactly one per neuron after the
        input layer (reporting the count wanted and the count given). */
    static function ValidateBiases(neuronsPerLayerAfterInputLayer: seq<int>, biases: Option<seq<real>>): (o: Outcome)
      ensures o.Pass? <==> biases.Some? && |biases.value| == Sum(neuronsPerLayerAfterInputLayer)
      ensures biases.None? ==> o == Fail(ArgumentNull("biases"))
      ensures biases.Some? && o.Fail? ==>
        o.error == Argument("biases", CountMismatch(Sum(neuronsPerLayerAfterInputLayer), |biases.value|))
    {
      if biases.None? then Fail(ArgumentNull("biases"))
      else
        var expectedBiases := Sum(neuronsPerLayerAfterInputLayer);
        if |biases.value| != expectedBiases then
          Fail(Argument("biases", CountMismatch(expectedBiases, |biases.value|)))
        else
          Pass
    }

    /** ThinkFast's check of the weights: refused when missing (naming the
        argument), and when there is not exactly one per neuron and value it
        reads (reporting the count wanted and the count given). The count
        wanted is summed layer by layer: the first layer's size times the
        number of inputs, each later layer's size times the size of the
        layer before it. */
    static method ValidateWeights(inputs: seq<real>, neuronsPerLayerAfterInputLayer: seq<int>, weights: Option<seq<real>>)
      returns (o: Outcome)
      ensures o.Pass? <==> weights.Some? && |weights.value| == ExpectedWeights(|inputs|, neuronsPerLayerAfterInputLayer)
      ensures weights.None? ==> o == Fail(ArgumentNull("weights"))
      ensures weights.Some? && o.Fail? ==>
        o.error == Argument("weights", CountMismatch(ExpectedWeights(|inputs|, neuronsPerLayerAfterInputLayer), |weights.value|))
    {
      if weights.None? {
        return Fail(ArgumentNull("weights"));
      }
      var sizes := neuronsPerLayerAfterInputLayer;
      var expectedWeights := 0;
      var i := 0;
      while i < |sizes|
        invariant 0 <= i <= |sizes|
        invariant expectedWeights == ExpectedWeights(|inputs|, sizes[..i])
      {
        TakeTake(sizes, i + 1, i);
        if i == 0 {
          expectedWeights := expectedWeights + sizes[i] * |inputs|;
        } else {
          expectedWeights := expectedWeights + sizes[i] * sizes[i - 1];
        }
        i := i + 1;
      }
      TakeAll(sizes);
      if |weights.value| != expectedWeights {
        return Fail(Argument("weights", CountMismatch(expectedWeights, |weights.value|)));
      }
      return Pass;
    }

    /** Runs the net described by the flat vectors on the inputs. The
        arguments are checked in order - inputs, layer sizes, biases,
        weights - and the first refusal is the result. Otherwise each layer
        in turn computes, neuron by neuron, the activation of the next bias
        plus each of its inputs times the next weight, into a fresh buffer
        that the next layer reads; the result is the last layer's buffer:
        the feed-forward pass over the split of the flat vectors. */
    static method ThinkFast(sigmoid: real -> real, inputs: Option<seq<real>>, neuronsPerLayerAfterInputLayer: Option<seq<int>>,
                            biases: Option<seq<real>>, weights: Option<seq<real>>)
      returns (r: Result<seq<real>>)
      ensures r.Success? <==> Accepted(inputs, neuronsPerLayerAfterInputLayer, biases, weights)
      ensures ValidateInputs(inputs).Fail? ==> r == Failure(ValidateInputs(inputs).error)
      ensures ValidateInputs(inputs).Pass? && ValidateNeuronsPerLayer(neuronsPerLayerAfterInputLayer).Fail? ==>
        r == Failure(ValidateNeuronsPerLayer(neuronsPerLayerAfterInputLayer).error)
      ensures ValidateInputs(inputs).Pass? && ValidateNeuronsPerLayer(neuronsPerLayerAfterInputLayer).Pass?
              && ValidateBiases(neuronsPerLayerAfterInputLayer.value, biases).Fail? ==>
        r == Failure(ValidateBiases(neuronsPerLayerAfterInputLayer.value, biases).error)
      ensures ValidateInputs(inputs).Pass? && ValidateNeuronsPerLayer(neuronsPerLayerAfterInputLayer).Pass?
              && ValidateBiases(neuronsPerLayerAfterInputLayer.value, biases).Pass? && weights.None? ==>
        r == Failure(ArgumentNull("weights"))
      ensures ValidateInputs(inputs).Pass? && ValidateNeuronsPerLayer(neuronsPerLayerAfterInputLayer).Pass?
              && ValidateBiases(neuronsPerLayerAfterInputLayer.value, biases).Pass? && weights.Some? && r.Failure? ==>
        r.error == Argument("weights", CountMismatch(ExpectedWeights(|inputs.value|, neuronsPerLayerAfterInputLayer.value), |weights.value|))
      ensures r.Success? ==>
        r.value == Forward(sigmoid, inputs.value,
                           SplitFlat(|inputs.value|, neuronsPerLayerAfterInputLayer.value, biases.value, weights.value))
      ensures r.Success? ==> |r.value| == neuronsPerLayerAfterInputLayer.value[|neuronsPerLayerAfterInputLayer.value| - 1]
    {
      var checked := ValidateInputs(inputs);
      if checked.Fail? { return Failure(checked.error); }
      checked := ValidateNeuronsPerLayer(neuronsPerLayerAfterInputLayer);
      if checked.Fail? { return Failure(checked.error); }
      checked := ValidateBiases(neuronsPerLayerAfterInputLayer.value, biases);
      if checked.Fail? { return Failure(checked.error); }
      checked := ValidateWeights(inputs.value, neuronsPerLayerAfterInputLayer.value, weights);
      if checked.Fail? { return Failure(checked.error); }
      var outputs, _, _ := LayerByLayer(sigmoid, inputs.value, neuronsPerLayerAfterInputLayer.value, biases.value, weights.value);
      return Success(outputs);
    }
  }
}
