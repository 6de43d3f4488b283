# Neural-network car controller: network and population bookkeeping

This project models the two logical components of a small neuro-evolution
controller for a simulated car.

- **`NeuralNetwork`** is one candidate controller. It holds a list of weight
  matrices, one scalar bias per layer and activation buffers:
  - `InitNetwork(h, n)` rebuilds the weights for `h + 1` hidden layers of `n`
    neurons, with 1×h placeholder rows as hidden buffers, and randomises every
    weight;
  - `RunNetwork` performs the forward pass from three sensor readings to an
    (acceleration, turning) pair;
  - `CopyAndInitNetwork` deep-copies the weights and biases into a new network
    with fresh activation buffers.
- **`GeneticController`** owns the population: an array of networks, the index
  of the genome under evaluation and a generation counter. `CreatePopulation`
  fills the array. `Death` records a genome's fitness and moves on to the next
  genome.

The project has three modules:

- `Matrices` (`matrices.dfy`) defines the matrix operations the network uses on
  matrix values: dense construction, clearing, entry update, product, adding a
  scalar and pointwise activation. `Values` reads a mutable `array2<real>` as a
  value.
- `Network` (`network.dfy`) specifies the forward pass as functions on values
  (`Layer`, `Input`, `Hidden`, `Output`) and the weight layout that
  `InitNetwork` builds (`Layout`). The class `NeuralNetwork` keeps its weight
  matrices as `array2<real>`, which `RandomizeWeights` and the copy loop write
  entry by entry, and its activation buffers as matrix values. Every method is
  proved against those functions.
- `Genetics` (`genetics.dfy`) is the class `GeneticController`, plus the
  genome-counter update of `Death` as functions. Those functions carry the lemmas
  about repeated calls.

`InitNetwork(h, n)` builds `h + 3` weight matrices (`3×n`, then `h + 1`
matrices `n×n`, then `n×2`) and `h + 2` biases, but the forward pass over
`h + 1` hidden layers reads only `weights[0..h]` and the last matrix, so
`weights[h + 1]` is never read (`UnusedWeightIgnored`).

In `Genetics`, the predicate `DeathGuard` is the guard of
`Assets/GeneticController.cs:70`, and `DeathSafe` says that the two indices
one call of `Death` uses (lines 71 and 41) are in range. `NextGenome` and
`AfterDeaths` give the genome after one and after k calls as written;
`NextGenomeIntended` and `AfterDeathsIntended` do the same with the guard on
the genome. The lemmas `GuardIgnoresGenome`, `AfterDeathsCounts`, `Overrun`
and `IntendedStaysInRange` state what these definitions mean.

## Model

| member | source | states |
|---|---|---|
| Matrices.Zeros | Assets/NeuralNetwork.cs:63-73 | `Build.Dense(r, c)` is an r×c matrix whose entries are all zero |
| Matrices.Row3 | Assets/NeuralNetwork.cs:85-87 | the 1×3 row holding the three readings in order |
| Matrices.Mul | Assets/NeuralNetwork.cs:92 | the product of an a×k and a k×b matrix is a×b; it is defined only when the inner dimensions agree |
| Matrices.AddScalar | Assets/NeuralNetwork.cs:92 | adding a scalar keeps the shape |
| Matrices.Pointwise | Assets/NeuralNetwork.cs:90 | a pointwise activation keeps the shape |
| Matrices.Set | Assets/NeuralNetwork.cs:85-87 | writing entry (i, j) keeps the shape, sets that entry and leaves every other entry as it was |
| Matrices.Clear | Assets/NeuralNetwork.cs:44-46 | clearing a matrix keeps its shape and makes every entry zero |
| Matrices.Values | Assets/NeuralNetwork.cs:34-36 | the value of a mutable matrix has its dimensions and its entries |
| Matrices.Extensionality | Assets/NeuralNetwork.cs:130-136 | two matrices of the same shape with equal entries are equal, which makes an entry-by-entry copy a copy |
| Matrices.Build | Assets/NeuralNetwork.cs:128 | a matrix is allocated fresh and holds exactly the value it was built from |
| Network.Layer | Assets/NeuralNetwork.cs:92-98 | one layer maps a 1×k row through a k×m matrix to a row of m neurons |
| Network.LayerAt | Assets/NeuralNetwork.cs:92-98 | neuron j of a layer is tanh of the dot product of the input with column j plus the layer's single bias, the same scalar for every neuron |
| Network.Input | Assets/NeuralNetwork.cs:85-90 | the input layer after activation is the row [tanh a, tanh b, tanh c] |
| Network.Hidden | Assets/NeuralNetwork.cs:92-96 | hidden layer k is defined whenever ws[0..k] chain, and it has the width of ws[k] |
| Network.Output | Assets/NeuralNetwork.cs:98 | the output row has the width of the last weight matrix |
| Network.HiddenReadsPrefix | Assets/NeuralNetwork.cs:92-96 | hidden layer k depends only on weights[0..k] and biases[0..k] |
| Network.UnusedWeightIgnored | Assets/NeuralNetwork.cs:68-69 | with h + 3 matrices and h + 1 hidden layers, replacing weights[h + 1] by any matrix changes neither runnability nor the output |
| Network.Layout | Assets/NeuralNetwork.cs:50-74 | the layout has h + 3 shapes: 3×n first, n×n at 1..h+1, n×2 last |
| Network.LayoutChains | Assets/NeuralNetwork.cs:92-98 | under that layout every product of the forward pass is defined, and every hidden matrix has n columns |
| Network.LayoutRunnable | Assets/NeuralNetwork.cs:85-102 | under that layout every hidden layer is 1×n and the output is 1×2, so the reads of [0, 0] and [0, 1] are in range |
| Network.Shapes | Assets/NeuralNetwork.cs:34-35 | the list of (row count, column count) of each weight matrix |
| Network.WeightValues | Assets/NeuralNetwork.cs:20 | the list of weight matrix values, index by index |
| Network.RandomRange | Assets/NeuralNetwork.cs:36 | `Random.Range(-1f, 1f)` yields a value of the closed interval [-1, 1] |
| Network.ForwardHidden | Assets/NeuralNetwork.cs:92-96 | the loop of the forward pass leaves hidden layer k equal to `Hidden(k)` for every k; it reads no old hidden buffer |
| Network.Forward | Assets/NeuralNetwork.cs:85-102 | the forward pass returns the activated input, the hidden layers and the output row of the specification functions, and the pair (sigmoid of output entry [0, 0], tanh of output entry [0, 1]) |
| Network.NewLayers | Assets/NeuralNetwork.cs:50-76 | `InitNetwork`'s loop: h + 1 placeholders of shape 1×h, fresh distinct weight matrices in the shapes of `Layout(h, n)`, and h + 2 biases in [-1, 1] |
| Network.CopyMatrix | Assets/NeuralNetwork.cs:128-136 | a freshly allocated matrix equal to the source, entry by entry |
| Network.NeuralNetwork.constructor | Assets/NeuralNetwork.cs:11-25 | a new network has a zero 1×3 input row, a zero 1×2 output row, empty lists and fitness 0 |
| Network.NeuralNetwork.RandomizeWeights | Assets/NeuralNetwork.cs:32-40 | every entry of every weight matrix lies in [-1, 1]; the list, each matrix's shape and the biases are unchanged |
| Network.NeuralNetwork.InitNetwork | Assets/NeuralNetwork.cs:43-80 | prior contents are discarded; the weights have `Layout(h, n)` and are fresh and distinct; there are h + 2 biases in [-1, 1] and h + 1 hidden buffers of shape 1×h; every weight lies in [-1, 1]; the input and output rows are zero |
| Network.NeuralNetwork.RunNetwork | Assets/NeuralNetwork.cs:83-103 | the buffers hold `Input`, `Hidden(k)` for every k and `Output` of the readings, weights and biases; the output row has the two entries read at line 102, and the result is sigmoid of the first and tanh of the second; the weight list, the biases and the fitness are unchanged |
| Network.NeuralNetwork.CreateHiddenLayers | Assets/NeuralNetwork.cs:107-117 | the input and output rows are zeroed, there are exactly h + 1 zero hidden rows of shape 1×n, and the weights and biases are unchanged |
| Network.NeuralNetwork.CopyAndInitNetwork | Assets/NeuralNetwork.cs:120-151 | the copy has as many weight matrices as the source, fresh and distinct, with equal values; its biases are equal, its buffers zero and its h + 1 hidden rows 1×n; it keeps the source's layout |
| Network.CopyMatrices | Assets/NeuralNetwork.cs:124-139 | the copy loop yields one fresh, distinct matrix per source matrix, with equal values, in order |
| Network.SameValuesCanRun | Assets/NeuralNetwork.cs:145-148 | a network with the same weight values, biases and hidden-layer count as a runnable one is runnable, so a copy made with the source's hidden-layer count can run whenever the source can |
| Network.CopyIsIndependent | Assets/NeuralNetwork.cs:119-151 | randomising every weight of the copy leaves the source's weight values and biases unchanged |
| Network.ShapedCanRun | Assets/NeuralNetwork.cs:50-102 | a network with `InitNetwork`'s shapes can run `RunNetwork`, and its output is 1×2 |
| Genetics.GuardIgnoresGenome | Assets/GeneticController.cs:70-72 | whether Death as written advances does not depend on the genome: any two genomes advance by the same step, and while the generation is below length - 1 even the last genome is advanced to length |
| Genetics.AfterDeathsCounts | Assets/GeneticController.cs:35-36 | from generation 0 and genome 0, with at least two genomes, after k calls the genome is k |
| Genetics.Overrun | Assets/GeneticController.cs:41 | from generation 0 and genome 0 the first length - 1 calls stay in range, and call number `length` indexes past the end |
| Genetics.NextGenomeIntended | Assets/GeneticController.cs:70 | with the guard on the genome, one call always leaves the genome a valid index of the population |
| Genetics.IntendedStaysInRange | Assets/GeneticController.cs:68-78 | with the guard on the genome, the genome stays in range after any number of calls and advances to length - 1, where it stops |
| Genetics.GeneticController.constructor | Assets/GeneticController.cs:13-36 | the population count is 85, there is no population yet, and both counters are 0 |
| Genetics.GeneticController.ResetToCurrentGenome | Assets/GeneticController.cs:40-42 | the car is reset with the network of the current genome, which must be a valid index |
| Genetics.NewNetwork | Assets/GeneticController.cs:49-50 | a fresh network with fresh weight matrices, in the state `new NeuralNetwork()` followed by `InitNetwork(h, n)` leaves: initialized weights and biases, zero rows, h + 1 placeholder rows of 1×h and fitness 0; it is a different network from every earlier one and shares no weight matrix with any of them, whose state is kept |
| Genetics.GeneticController.RandomizePopulationValues | Assets/GeneticController.cs:45-53 | every slot from the starting index up to the population count holds a fresh network in the state `new NeuralNetwork()` followed by `InitNetwork` leaves: `Initialized` weights and biases in fresh matrices, zero input and output rows, h + 1 placeholder rows of 1×h and fitness 0; any two of these slots hold different networks that share no weight matrix; every other slot is untouched; the array must be long enough when the loop runs at all |
| Genetics.GeneticController.CreatePopulation | Assets/GeneticController.cs:56-61 | the population is fresh, has the configured length, and holds in every slot a freshly initialized network with fresh weight matrices, zero buffers and fitness 0; any two slots hold different networks that share no weight matrix; the current genome is active; the counters are unchanged |
| Genetics.GeneticController.Death | Assets/GeneticController.cs:68-78 | as written: when the generation guard holds, the current genome's fitness is set, the genome is advanced by one and the car is reset with it, no other network's fitness changes, and every network keeps its weights, biases and buffers; otherwise nothing changes; the generation is never changed and the network argument is not used |
| Genetics.GeneticController.DeathIntended | Assets/GeneticController.cs:68-78 | corrected: the current genome's fitness is always recorded; the genome advances and the car is reset with it only while a next genome exists; no other network's fitness changes and every network keeps its weights, biases and buffers; a filled population and an in-range genome are preserved |

## Left out

- `Sigmoid` and `tanh` are the parameters `sigmoid` and `tanh` of `RunNetwork`. They are not defined functions, so nothing is stated about their ranges.
- Single-precision floating point is modelled as `real`. Rounding, overflow and the `(float)` cast of the double result of `Math.Tanh` are not modelled.
- The matrix library is modelled only by value functions for the operations the network uses. Its storage, its exceptions and its `Clear` in place are not modelled.
  - `RunNetwork` requires its products to be defined (`CanRun`) instead of modelling the dimension-mismatch exception.
  - `InitNetwork` requires `h >= 1` and `n >= 1`, because a matrix of dimension 0 is created otherwise.
  - `CreateHiddenLayers` and `CopyAndInitNetwork` require `h >= 0` and `n >= 1`.
- The input, hidden and output buffers are matrix values, not shared objects. The in-place writes into the input row and the `Clear` calls are value updates. No other object holds these buffers, so no aliasing through them is lost. The weight matrices are mutable arrays.
- `Random.Range` is a nondeterministic choice in [-1, 1]. Its distribution, its seeding and the order of draws are not modelled.
- `Start` (`Assets/GeneticController.cs:63-65`) is the engine's entry point. It only calls `CreatePopulation`.
- Breeding is not modelled: the `else` branch of `Death` is only a comment in the code. The selection, crossover and mutation settings and the gene pool (`Assets/GeneticController.cs:17-29`) are declared but never used.
- Assets/CarController.cs is not part of this model: physics, ray-cast sensors, the fitness formula and collision callbacks.
  - `Controller.ResetWithNetwork` is recorded as the field `active`.
  - `Controller.HIDDEN_LAYERS` and `Controller.NEURONS` are the positive constants `hiddenLayerCount` and `neuronCount`.
- Genetics.GeneticController.CreatePopulation: requires `0 <= currentGenome < initialPopulationCount`. With a population count of 0 or less the code throws at line 58 (negative array size) or at line 41 (index out of range), and those exceptions are not modelled.
- `CurrentGenome` is an unbounded integer. Its 32-bit range does not matter, because `Death` requires the genome to index the population.
- Genetics.GeneticController.Death: the "no other fitness changes" promise is about other networks, not other slots, because the array may hold one network in two slots.

## Findings

| source | as written | input that shows it | evidently intended | confidence | as-written member | corrected member |
|---|---|---|---|---|---|---|
| Assets/GeneticController.cs:70 | the guard compares `CurrentGeneration`, which nothing changes, with `Population.Length - 1`, so while the generation is 0 every call advances the genome | a population of length L >= 2, generation 0, genome 0: after L - 1 calls the genome is L - 1, and call L writes the last fitness and then reads `Population[L]` in `ResetToCurrentGenome` (line 41), out of range | the fitness is recorded on every call, and the guard compares `CurrentGenome` with `Population.Length - 1`, so the genome stops at the last index | not executed | Genetics.Overrun | Genetics.IntendedStaysInRange |
