# ArtificialNeuralNet in Dafny

A model of the feed-forward network engine in `Code/ArtificialNeuralNet`.
The engine runs a net in two ways, and the model proves that they agree.

- **The graph form** is the `NeuralNet` object.
  - It holds a list of `Layer`s. Each layer holds `Neuron`s.
  - Adjacent layers are wired fully through shared `Synapse` objects. Output
    `c` of neuron `p` of one layer is the same object as input `p` of neuron
    `c` of the next layer.
  - One constructor builds the net from a topology (neurons per layer).
  - Another constructor also loads every bias and weight from one vector. For
    each neuron after the input layer, in order, the vector holds a bias
    followed by one weight per input.
  - `Think` writes the raw inputs onto the outputs of the input layer. It then
    lets each later layer think in turn and returns the values on the last
    layer's outputs.
- **The flat form** is the static `ThinkFast`.
  - It takes the inputs, the layer sizes after the input layer, a vector of
    biases and a vector of weights.
  - Four validators check these arguments, in order.
  - It then walks the two vectors with a bias cursor and a weight cursor,
    writing one fresh buffer per layer.

Both forms compute the same value-level function, `FeedForward.Forward`.
- A neuron's activation is the activation function applied to its running
  total. The total starts at the bias and adds each input times its weight,
  in input order.
- A layer's output is each neuron's activation, in neuron order.
- A net's output applies the layers one after another.

The activation function is the logistic function in the source. Dafny's reals
have no exponential, so every member that applies it takes it as a parameter,
`sigmoid`. Everything proved holds for every choice of that function.

Modules, one file each:

| file | module | content |
|---|---|---|
| `synapse.dfy` | `Connections` | `Synapse` (class) |
| `neuron.dfy` | `Neurons` | `Neuron` (class) |
| `layer.dfy` | `Layers` | `Layer` (class) |
| `wiring.dfy` | `Wiring` | the structure the constructor builds, and the steps that build it |
| `neuralnet.dfy` | `Networks` | `NeuralNet` (class): constructors, parameter loading, `Think`, the validators, `ThinkFast` |
| `feedforward.dfy` | `FeedForward` | the arithmetic on values |
| `layout.dfy` | `Layout` | the parameter counts and the two parameter layouts: one interleaved vector, or biases and weights apart; the conversions between them |
| `fast.dfy` | `FastPath` | the cursor loops of `ThinkFast` |
| `errors.dfy` | `Errors` | `Option`, `Result`, `Outcome`, error kinds |

How the source maps onto the model:
- A C# `null` argument is `None`.
- A constructor or method that can throw is a static method returning a
  `Result`. The error records the exception kind, the parameter name and,
  for length mismatches, the counts the message reports.
- Each object is a Dafny class whose fields the methods update in place.
- The `Collection<T>` fields are `seq` fields.
- The ghost maps `place` and `slot` record where each neuron and each output
  synapse sits. They are used only by the proofs.

Headline result: `Networks.ThinkBothWays`.
- Take a topology `t` with at least two layers and a vector `v` of the length
  `t` requires.
- Build a net from `t` and load `v` into it. On inputs as wide as the first
  layer, `Think` returns the same outputs as `ThinkFast`.
- `ThinkFast` is given `t` without its first entry, plus `v`'s biases and
  weights pulled apart (`Layout.Deinterleave`).
- `FastPath.AcceptedInterleaves` gives the other direction. Every argument
  set that `ThinkFast` accepts is the split of some such vector.

## Model

| member | source | states |
|---|---|---|
| Connections.Synapse.constructor | Code/ArtificialNeuralNet/Synapse.cs:23-27 | a new synapse's weight is a draw in [0, 1) doubled minus one, so it lies in [-1, 1); its value is zero |
| Neurons.Neuron.constructor | Code/ArtificialNeuralNet/Neuron.cs:24-31 | a new neuron has no inputs and no outputs, and a bias in [-1, 1) |
| Neurons.Neuron.WeightedInput | Code/ArtificialNeuralNet/Neuron.cs:63-68 | the loop's total is the bias, then each input's value times its weight added in input order (`WeightedSum`); nothing changes |
| Neurons.Neuron.Fire | Code/ArtificialNeuralNet/Neuron.cs:75-78 | every output synapse afterwards holds the activation; when no output is also an input, the inputs keep their values |
| Neurons.Neuron.Think | Code/ArtificialNeuralNet/Neuron.cs:61-79 | every output holds the activation of the bias and weights applied to the input values from before the call; only output values change; when no output is also an input, the inputs keep their values |
| Neurons.ThinkTwice | Code/ArtificialNeuralNet/Neuron.cs:61-79 | thinking twice without changed inputs leaves the outputs the first call wrote (idempotence) |
| FeedForward.WeightedSumIsBiasPlusDot | Code/ArtificialNeuralNet/Neuron.cs:63-68 | the bias-first, left-to-right running total equals the bias plus the inner product summed from the front |
| FeedForward.PartialSumIsBiasPlusDot | Code/ArtificialNeuralNet/Neuron.cs:65-68 | after k inputs the running total is the bias plus the inner product of the first k inputs and weights |
| FeedForward.Forward | Code/ArtificialNeuralNet/NeuralNet.cs:224-234 | a pass through no layers returns the input unchanged; otherwise the result has one value per neuron of the last layer |
| FeedForward.ForwardStep | Code/ArtificialNeuralNet/NeuralNet.cs:226-229 | one more layer applies that layer's output to the previous result |
| Layers.Layer.Create | Code/ArtificialNeuralNet/Layer.cs:30-45 | fails exactly when the count is below one, with an ArgumentException on `numberOfNeurons`; otherwise the layer holds exactly that many fresh, distinct neurons with no inputs or outputs |
| Layers.Layer.CreateDefault | Code/ArtificialNeuralNet/Layer.cs:20-23 | the parameterless layer has exactly one fresh, unwired neuron |
| Layers.Layer.Think | Code/ArtificialNeuralNet/Layer.cs:58-64 | when no neuron reads a synapse the layer writes, each output holds its own neuron's activation of its inputs' values from before the call; the inputs keep their values; only output values change |
| Layout.Sum | Code/ArtificialNeuralNet/NeuralNet.cs:292 | the sum of positive layer sizes is at least the number of layers |
| Layout.ExpectedWeights | Code/ArtificialNeuralNet/NeuralNet.cs:318-330 | the weight count of positive sizes and a non-negative input width is non-negative |
| Layout.RequiredInitializationCount | Code/ArtificialNeuralNet/NeuralNet.cs:98-111 | the count the constructor demands for a positive topology is non-negative |
| Layout.RequiredCountSplits | Code/ArtificialNeuralNet/NeuralNet.cs:104-111 | the constructor's count is the bias count plus the weight count that ThinkFast demands, for the first layer as input width and the rest as sizes |
| Layout.ParamsFromVector | Code/ArtificialNeuralNet/NeuralNet.cs:120-135 | the parameters read from the vector have one layer per topology entry after the first, that many neurons each, and one weight per neuron of the layer before |
| Layout.InterleaveOfParamsFromVector | Code/ArtificialNeuralNet/NeuralNet.cs:120-135 | every vector entry is used exactly once: writing the parameters back bias first, weights after, neuron by neuron, gives the vector back |
| Layout.SplitVectorLayerAt | Code/ArtificialNeuralNet/NeuralNet.cs:126-134 | within a layer fed by `width` neurons, neuron j takes its bias at offset j * (1 + width) of the layer's stretch and its weights from the next `width` entries, where the running index stands after j neurons |
| Layout.ParamsFromVectorOfInterleave | Code/ArtificialNeuralNet/NeuralNet.cs:120-135 | reading back the interleaving of any fitting parameter set gives that set, and the interleaving has the required length |
| Layout.SplitFlat | Code/ArtificialNeuralNet/NeuralNet.cs:165-200 | the split of the two flat vectors has the given layer sizes and fits the input width |
| Layout.SplitLayerAt | Code/ArtificialNeuralNet/NeuralNet.cs:179-189 | within one layer of the flat arrays, neuron j takes bias j and the weights from offset j * width to (j + 1) * width, where the two cursors stand after j neurons |
| Layout.SplitFlatAt | Code/ArtificialNeuralNet/NeuralNet.cs:169-190 | layer k takes the biases and weights right after those of layers 0 to k - 1: the cursors at layer k are the sum of the earlier sizes and the earlier weight counts |
| Layout.SplitFlatOfFlat | Code/ArtificialNeuralNet/NeuralNet.cs:165-200 | splitting the flat vectors of a parameter set gives the set back, and the vectors have the lengths the validators demand |
| Layout.FlatOfSplitFlat | Code/ArtificialNeuralNet/NeuralNet.cs:165-200 | flattening the split of two flat vectors gives the vectors back |
| Layout.Deinterleave | Code/ArtificialNeuralNet/NeuralNet.cs:120-135 | pulling a net's vector apart gives biases and weights of the lengths ThinkFast demands, whose split is what the constructor loads |
| FastPath.NeuronSum | Code/ArtificialNeuralNet/NeuralNet.cs:181-190 | the inner loop's total is the weighted sum over the weights under the cursor; the cursor advances by one per input |
| FastPath.NeuronOutput | Code/ArtificialNeuralNet/NeuralNet.cs:179-193 | one neuron's buffer entry is its activation; the cursor advances past its weights |
| FastPath.LayerOutputs | Code/ArtificialNeuralNet/NeuralNet.cs:167-194 | a fresh buffer, one entry per neuron, equal to the layer output of the layer cut at the two cursors; the cursors advance by the layer's bias and weight counts |
| FastPath.LayerByLayer | Code/ArtificialNeuralNet/NeuralNet.cs:165-200 | the result is the feed-forward pass over the split of the flat vectors, with one value per neuron of the last layer; both cursors end exactly at the vectors' ends |
| FastPath.DeinterleavedAccepted | Code/ArtificialNeuralNet/NeuralNet.cs:160-163 | the biases and weights pulled out of a net's vector pass all four validators, and describe the parameters the net loads |
| FastPath.AcceptedInterleaves | Code/ArtificialNeuralNet/NeuralNet.cs:160-163 | every accepted argument set is the split of the interleaved vector of a net whose topology is the input width followed by the sizes |
| Wiring.ConnectNeuron | Code/ArtificialNeuralNet/NeuralNet.cs:65-70 | one fresh synapse per target, appended to the source's outputs and to that target's inputs, in target order |
| Wiring.ConnectLayers | Code/ArtificialNeuralNet/NeuralNet.cs:60-71 | afterwards output c of previous neuron p is the very synapse that is input p of current neuron c; each previous neuron has one output per current neuron, and each current neuron one input per previous neuron |
| Wiring.Terminate | Code/ArtificialNeuralNet/NeuralNet.cs:75-78 | every neuron of the last layer gets exactly one fresh output |
| Wiring.CreateLayers | Code/ArtificialNeuralNet/NeuralNet.cs:49-55 | one fresh layer per topology entry, with that many fresh, distinct, unwired neurons |
| Wiring.Build | Code/ArtificialNeuralNet/NeuralNet.cs:58-78 | the layers end up wired: input-layer neurons without inputs, adjacent layers fully linked through shared synapses, one terminal output on each last-layer neuron, every output synapse in its own place and fresh |
| Networks.NeuralNet.Create | Code/ArtificialNeuralNet/NeuralNet.cs:37-79 | fails exactly on a missing or empty topology (first) or one with an entry below one, each with its ArgumentException on `neuronsPerLayer`; otherwise a fresh, wired net whose layer sizes are the topology |
| Networks.NeuralNet.CreateDefault | Code/ArtificialNeuralNet/NeuralNet.cs:23-26 | the parameterless net has topology [1] |
| Networks.CountInitialization | Code/ArtificialNeuralNet/NeuralNet.cs:98-111 | the loop computes `RequiredInitializationCount` |
| Networks.LoadNeuron | Code/ArtificialNeuralNet/NeuralNet.cs:126-134 | the neuron's bias is `v[start]`, its weights the next entries in input order; the cursor advances past them |
| Networks.LoadLayer | Code/ArtificialNeuralNet/NeuralNet.cs:126-134 | every neuron of the layer receives, in order, its run of bias and weights, and the cursor advances by the layer's share |
| Networks.LoadLayers | Code/ArtificialNeuralNet/NeuralNet.cs:120-135 | after every layer but the first is loaded, the parameters held interleave to exactly the vector, and the input layer's biases are as they were |
| Networks.NeuralNet.LoadVector | Code/ArtificialNeuralNet/NeuralNet.cs:120-135 | the net stays wired with the same topology, its parameters become `ParamsFromVector(topology, v)`, and the input layer, skipped by `Skip(1)`, keeps its biases |
| Networks.NeuralNet.CreateWithParameters | Code/ArtificialNeuralNet/NeuralNet.cs:88-136 | the topology checks come first; then a missing vector is an ArgumentNullException, and a vector of the wrong length an ArgumentException reporting the required count; otherwise a fresh, wired net with the topology, holding `ParamsFromVector(t, v)` |
| Networks.Present | Code/ArtificialNeuralNet/NeuralNet.cs:217-223 | input p goes, unchanged, onto every output of input-layer neuron p |
| Networks.CollectGathers | Code/ArtificialNeuralNet/NeuralNet.cs:231-234 | the query `Collect` yields the value of every output of every last-layer neuron, and nothing else; `CollectOneEach` fixes the order |
| Networks.CollectOneEach | Code/ArtificialNeuralNet/NeuralNet.cs:231-234 | with one output per last-layer neuron, the LINQ query yields one value per neuron, in neuron order |
| Networks.NeuralNet.Propagate | Code/ArtificialNeuralNet/NeuralNet.cs:226-229 | when the input layer carries the inputs, letting each later layer think in order leaves the last layer carrying the feed-forward pass |
| Networks.NeuralNet.Run | Code/ArtificialNeuralNet/NeuralNet.cs:217-234 | the net stays wired with unchanged parameters, and the result is the feed-forward pass of the inputs over the net's parameters |
| Networks.NeuralNet.Think | Code/ArtificialNeuralNet/NeuralNet.cs:209-235 | fails exactly when the inputs are missing or not as many as the input layer's neurons, changing nothing; otherwise returns the feed-forward pass; only synapse values change |
| Networks.NeuralNet.ValidateInputs | Code/ArtificialNeuralNet/NeuralNet.cs:242-250 | passes exactly when the inputs are present and not empty; otherwise an ArgumentException on `inputs` |
| Networks.NeuralNet.ValidateNeuronsPerLayer | Code/ArtificialNeuralNet/NeuralNet.cs:261-275 | passes exactly when the sizes are present, not empty and all at least one; missing or empty is refused first, then a size below one, each with its own ArgumentException |
| Networks.NeuralNet.ValidateBiases | Code/ArtificialNeuralNet/NeuralNet.cs:285-300 | passes exactly when the biases are present and one per neuron after the input layer; otherwise an ArgumentNullException, or an ArgumentException with the expected and actual counts |
| Networks.NeuralNet.ValidateWeights | Code/ArtificialNeuralNet/NeuralNet.cs:311-338 | the loop's count is `ExpectedWeights`; passes exactly when the weights are present and that many; otherwise an ArgumentNullException, or an ArgumentException with the expected and actual counts |
| Networks.NeuralNet.ThinkFast | Code/ArtificialNeuralNet/NeuralNet.cs:154-201 | succeeds exactly on accepted arguments; otherwise the first validator that fails decides the error, in the order inputs, sizes, biases, weights; on success the result is the feed-forward pass over the split of the flat vectors, one value per neuron of the last layer |
| Networks.ThinkBothWays | Code/ArtificialNeuralNet/NeuralNet.cs:154-235 | for a loaded net, Think returns the feed-forward pass over the loaded parameters; with two or more layers ThinkFast, given the vector pulled apart, returns the same; with one layer Think returns the inputs while ThinkFast refuses for lack of layer sizes |

## Left out

- Random initial values: the draw from `Random.NextDouble()` is an arbitrary
  real in [0, 1) chosen by `:|`. The generator is not modelled.
- Floating point: `double` is modelled as `real`. Rounding is not modelled.
  Nor is `Math.Pow(Math.E, -x)`: the activation is the parameter `sigmoid`.
  The source's comment about an approximation of it is not modelled.
- 32-bit integers: layer sizes and counts are unbounded `int`s. The source
  computes the counts in `int`. `neuronsPerLayer[i] * neuronsPerLayer[i - 1]`
  wraps on overflow, and LINQ's `Sum` throws `OverflowException`. The model
  does neither, so the counts are exact for every topology.
- The `unsafe` and `fixed` block of `ThinkFast` (NeuralNet.cs:173-197): the
  per-layer buffer is an ordinary fresh `array<real>`.
- NeuralNet.cs:195 assigns the buffer's first element (`*outputsFromLayer`)
  to the array variable `inputsToNextLayer`, which does not type-check in C#.
  The model follows the evident intent. The next layer reads the whole buffer,
  and the result is the last layer's buffer.
- The message text of every exception, and its culture formatting. The model
  keeps the exception kind, the parameter name and the reported counts.
- `ThinkFast`'s array arguments are `seq`s, because `ThinkFast` never writes
  to them. `Think`'s `IList<double>` argument is an optional `seq`.
- `Think` returns a lazily evaluated LINQ query over the output synapses. The
  model returns the values at the end of the call.
- The `Layers`, `Neurons`, `Inputs` and `Outputs` properties have private
  setters, but the collections they return can be changed by any caller. The
  model lets only the engine's own methods change them.
- The sample program under `Sample/` and the unit tests under `Tests/` are not
  part of this model. NeuralNetTests.cs expects each input-layer neuron to
  have one input synapse, but NeuralNet.cs:58-72 gives input-layer neurons
  none. The model follows the code.
