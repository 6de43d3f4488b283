/** One candidate controller: weight matrices, scalar biases and activation
    buffers, built by InitNetwork or CopyAndInitNetwork and evaluated by
    RunNetwork.  The forward pass is specified by the functions below, on
    matrix values; the class works on mutable `array2<real>` matrices. */
module Network {
  import opened Matrices

  // ---------------------------------------------------------------------------
  // The forward pass, on values
  // ---------------------------------------------------------------------------

  /** One layer: `((x * w) + b).PointwiseTanh()`. */
  function Layer(x: Matrix, w: Matrix, b: real, tanh: Activation): (y: Matrix)
    requires x.Valid() && w.Valid() && x.cols == w.rows
    ensures y.HasShape(x.rows, w.cols)
  {
    Pointwise(AddScalar(Mul(x, w), b), tanh)
  }

  /** ws[0..k] are well formed, ws[0] takes an input of the given width and each
      ws[i] takes the output of ws[i - 1]. */
  predicate Chains(width: nat, ws: seq<Matrix>, k: nat) {
    k < |ws| &&
    (forall i :: 0 <= i <= k ==> ws[i].Valid()) &&
    ws[0].rows == width &&
    forall i, j :: 0 <= i < k && j == i + 1 ==> ws[j].rows == ws[i].cols
  }

  /** The input layer after activation: tanh of the three sensor readings. */
  function Input(a: real, b: real, c: real, tanh: Activation): (x: Matrix)
    ensures x.HasShape(1, 3)
    ensures x.cells[0] == [tanh(a), tanh(b), tanh(c)]
  {
    Pointwise(Row3(a, b, c), tanh)
  }

  /** Hidden layer k: layer 0 reads the input through ws[0], layer k reads layer
      k - 1 through ws[k]. */
  function Hidden(x: Matrix, ws: seq<Matrix>, bs: seq<real>, k: nat, tanh: Activation): (y: Matrix)
    requires x.Valid() && Chains(x.cols, ws, k) && k < |bs|
    ensures y.HasShape(x.rows, ws[k].cols)
    decreases k
  {
    if k == 0 then Layer(x, ws[0], bs[0], tanh)
    else Layer(Hidden(x, ws, bs, k - 1, tanh), ws[k], bs[k], tanh)
  }

  /** What RunNetwork needs for `count` hidden layers: every index it reads
      exists, every product it forms is defined and the output row has the two
      entries it reads. */
  predicate Runnable(ws: seq<Matrix>, bs: seq<real>, count: nat) {
    count >= 1 && |bs| >= count && Chains(3, ws, count - 1) &&
    ws[|ws| - 1].Valid() && ws[|ws| - 1].rows == ws[count - 1].cols && ws[|ws| - 1].cols >= 2
  }

  /** The output layer: the last hidden layer through the LAST weight matrix and
      the LAST bias. */
  function Output(a: real, b: real, c: real, ws: seq<Matrix>, bs: seq<real>, count: nat, tanh: Activation): (out: Matrix)
    requires Runnable(ws, bs, count)
    ensures out.HasShape(1, ws[|ws| - 1].cols)
  {
    Layer(Hidden(Input(a, b, c, tanh), ws, bs, count - 1, tanh), ws[|ws| - 1], bs[|bs| - 1], tanh)
  }

  /** Entry (i, j) of a layer: tanh of row i of x times column j of w, plus the
      layer's one bias, the same scalar for every neuron. */
  lemma LayerAt(x: Matrix, w: Matrix, b: real, tanh: Activation, i: nat, j: nat)
    requires x.Valid() && w.Valid() && x.cols == w.rows
    requires i < x.rows && j < w.cols
    ensures Layer(x, w, b, tanh).cells[i][j] == tanh(Dot(x, w, i, j, x.cols) + b)
  {
    var p := Mul(x, w);
    assert p.cells[i][j] == Dot(x, w, i, j, x.cols);
    assert AddScalar(p, b).cells[i][j] == p.cells[i][j] + b;
  }

  /** Hidden layer k reads ws[0..k] and bs[0..k] and nothing else. */
  lemma {:induction false} HiddenReadsPrefix(x: Matrix, ws: seq<Matrix>, ws': seq<Matrix>,
                                             bs: seq<real>, bs': seq<real>, k: nat, tanh: Activation)
    requires x.Valid() && Chains(x.cols, ws, k) && k < |bs|
    requires k < |ws'| && ws'[..k + 1] == ws[..k + 1]
    requires k < |bs'| && bs'[..k + 1] == bs[..k + 1]
    ensures Chains(x.cols, ws', k)
    ensures Hidden(x, ws', bs', k, tanh) == Hidden(x, ws, bs, k, tanh)
  {
    assert forall i :: 0 <= i <= k ==> ws'[i] == ws'[..k + 1][i] && ws[i] == ws[..k + 1][i];
    assert bs'[k] == bs'[..k + 1][k] && bs[k] == bs[..k + 1][k];
    if k > 0 {
      assert ws'[..k] == ws'[..k + 1][..k] && ws[..k] == ws[..k + 1][..k];
      assert bs'[..k] == bs'[..k + 1][..k] && bs[..k] == bs[..k + 1][..k];
      HiddenReadsPrefix(x, ws, ws', bs, bs', k - 1, tanh);
    }
  }

  /** With the h + 3 matrices InitNetwork builds and h + 1 hidden layers,
      RunNetwork never reads weights[h + 1]: any matrix at all may stand there. */
  lemma UnusedWeightIgnored(a: real, b: real, c: real, ws: seq<Matrix>, bs: seq<real>, h: nat,
                            w: Matrix, tanh: Activation)
    requires |ws| == h + 3 && Runnable(ws, bs, h + 1)
    ensures Runnable(ws[h + 1 := w], bs, h + 1)
    ensures Output(a, b, c, ws[h + 1 := w], bs, h + 1, tanh) == Output(a, b, c, ws, bs, h + 1, tanh)
  {
    var ws' := ws[h + 1 := w];
    assert ws'[..h + 1] == ws[..h + 1];
    HiddenReadsPrefix(Input(a, b, c, tanh), ws, ws', bs, bs, h, tanh);
  }

  /** The shape of a matrix value. */
  function Shape(m: Matrix): (nat, nat) {
    (m.rows, m.cols)
  }

  /** The weight layout InitNetwork(h, n) builds: 3 x n, then h + 1 matrices
      n x n, then n x 2. */
  function Layout(h: nat, n: nat): (l: seq<(nat, nat)>)
    ensures |l| == h + 3
    ensures l[0] == (3, n) && l[h + 2] == (n, 2)
    ensures forall k :: 1 <= k <= h + 1 ==> l[k] == (n, n)
  {
    [(3, n)] + seq(h + 1, _ => (n, n)) + [(n, 2)]
  }

  /** InitNetwork's layout read index by index: the products chain, every hidden
      matrix is n x n and the last one is n x 2. */
  lemma LayoutChains(h: nat, n: nat, ws: seq<Matrix>, bs: seq<real>)
    requires |ws| == h + 3 && |bs| == h + 2
    requires forall k :: 0 <= k < |ws| ==> ws[k].Valid() && Shape(ws[k]) == Layout(h, n)[k]
    ensures Runnable(ws, bs, h + 1)
    ensures ws[0].cols == n && ws[h + 2].cols == 2
    ensures forall k :: 1 <= k <= h + 1 ==> ws[k].cols == n
  {
    var l := Layout(h, n);
    assert Shape(ws[0]) == l[0];
    assert Shape(ws[h + 2]) == l[h + 2];
    forall k | 1 <= k <= h + 1
      ensures ws[k].rows == n && ws[k].cols == n
    {
      assert Shape(ws[k]) == l[k];
    }
  }

  /** Under InitNetwork's layout with h + 1 hidden layers and h + 2 biases every
      product is defined (1x3 * 3xn, then 1xn * nxn, then 1xn * nx2), every hidden
      layer is 1 x n and the output is 1 x 2, so its entries [0, 0] and [0, 1] exist. */
  lemma LayoutRunnable(h: nat, n: nat, ws: seq<Matrix>, bs: seq<real>, a: real, b: real, c: real, tanh: Activation)
    requires |ws| == h + 3 && |bs| == h + 2
    requires forall k :: 0 <= k < |ws| ==> ws[k].Valid() && Shape(ws[k]) == Layout(h, n)[k]
    ensures Runnable(ws, bs, h + 1)
    ensures forall k :: 0 <= k <= h ==> Hidden(Input(a, b, c, tanh), ws, bs, k, tanh).HasShape(1, n)
    ensures Output(a, b, c, ws, bs, h + 1, tanh).HasShape(1, 2)
  {
    LayoutChains(h, n, ws, bs);
  }

  // ---------------------------------------------------------------------------
  // Lists of mutable matrices
  // ---------------------------------------------------------------------------

  /** The shapes of a list of matrices (array dimensions never change). */
  function Shapes(ws: seq<array2<real>>): (s: seq<(nat, nat)>)
    ensures |s| == |ws|
    ensures forall k :: 0 <= k < |ws| ==> s[k] == (ws[k].Length0, ws[k].Length1)
  {
    seq(|ws|, k requires 0 <= k < |ws| => (ws[k].Length0, ws[k].Length1))
  }

  /** The current values of a list of matrices. */
  function WeightValues(ws: seq<array2<real>>): (vs: seq<Matrix>)
    reads ws
    ensures |vs| == |ws|
    ensures forall k :: 0 <= k < |ws| ==> vs[k] == Values(ws[k])
  {
    seq(|ws|, k requires 0 <= k < |ws| reads ws => Values(ws[k]))
  }

  /** No matrix occurs twice in the list. */
  predicate Distinct(ws: seq<array2<real>>) {
    forall i, j :: 0 <= i < j < |ws| ==> ws[i] != ws[j]
  }

  /** Every entry lies in [-1, 1], the range of Random.Range(-1f, 1f). */
  predicate InRange(m: array2<real>)
    reads m
  {
    forall x, y :: 0 <= x < m.Length0 && 0 <= y < m.Length1 ==> -1.0 <= m[x, y] <= 1.0
  }

  predicate AllInRange(ws: seq<array2<real>>)
    reads ws
  {
    forall k :: 0 <= k < |ws| ==> InRange(ws[k])
  }

  predicate BiasesInRange(bs: seq<real>) {
    forall k :: 0 <= k < |bs| ==> -1.0 <= bs[k] <= 1.0
  }

  /** A value drawn by Random.Range(-1f, 1f): any value of the closed interval. */
  method RandomRange() returns (r: real)
    ensures -1.0 <= r <= 1.0
  {
    r :| -1.0 <= r <= 1.0;
  }

  /** RunNetwork's loop over the hidden layers: layer 0 from the input, then
      each layer from the one before it. */
  method ForwardHidden(x: Matrix, ws: seq<Matrix>, bs: seq<real>, count: nat, tanh: Activation)
    returns (hidden: seq<Matrix>)
    requires x.Valid() && count >= 1 && Chains(x.cols, ws, count - 1) && count <= |bs|
    ensures |hidden| == count
    ensures forall k :: 0 <= k < count ==> hidden[k] == Hidden(x, ws, bs, k, tanh)
  {
    hidden := [Layer(x, ws[0], bs[0], tanh)];
    for i := 1 to count
      invariant |hidden| == i
      invariant forall k :: 0 <= k < i ==> hidden[k] == Hidden(x, ws, bs, k, tanh)
    {
      hidden := hidden + [Layer(hidden[i - 1], ws[i], bs[i], tanh)];
    }
  }

  /** The body of RunNetwork on values: write the readings into the input row,
      squash it, run the hidden layers and the output layer, and read the pair. */
  method Forward(input: Matrix, a: real, b: real, c: real, ws: seq<Matrix>, bs: seq<real>, count: nat,
                 tanh: Activation, sigmoid: Activation)
    returns (x: Matrix, hidden: seq<Matrix>, out: Matrix, acceleration: real, turning: real)
    requires input.HasShape(1, 3) && Runnable(ws, bs, count)
    ensures x == Input(a, b, c, tanh)
    ensures |hidden| == count
    ensures forall k :: 0 <= k < count ==> hidden[k] == Hidden(x, ws, bs, k, tanh)
    ensures out == Output(a, b, c, ws, bs, count, tanh)
    ensures acceleration == sigmoid(out.cells[0][0]) && turning == tanh(out.cells[0][1])
  {
    var readings := Set(Set(Set(input, 0, 0, a), 0, 1, b), 0, 2, c);
    Extensionality(readings, Row3(a, b, c));
    x := Pointwise(readings, tanh);
    hidden := ForwardHidden(x, ws, bs, count, tanh);
    out := Layer(hidden[count - 1], ws[|ws| - 1], bs[|bs| - 1], tanh);
    acceleration := sigmoid(out.cells[0][0]);
    turning := tanh(out.cells[0][1]);
  }

  /** InitNetwork's loop: h + 1 placeholder hidden rows, h + 2 random biases and
      h + 3 freshly allocated zero weight matrices in the shapes of Layout(h, n). */
  method NewLayers(h: nat, n: nat) returns (hidden: seq<Matrix>, ws: seq<array2<real>>, bs: seq<real>)
    ensures hidden == seq(h + 1, _ => Zeros(1, h))
    ensures Shapes(ws) == Layout(h, n) && Distinct(ws)
    ensures forall k :: 0 <= k < |ws| ==> fresh(ws[k])
    ensures |bs| == h + 2 && BiasesInRange(bs)
  {
    hidden, ws, bs := [], [], [];
    for i := 0 to h + 1
      invariant hidden == seq(i, _ => Zeros(1, h)) && |bs| == i
      invariant |ws| == if i == 0 then 0 else i + 1
      invariant i > 0 ==> ws[0].Length0 == 3 && ws[0].Length1 == n
      invariant forall k :: 1 <= k < |ws| ==> ws[k].Length0 == n && ws[k].Length1 == n
      invariant forall k :: 0 <= k < |ws| ==> fresh(ws[k])
      invariant Distinct(ws)
      invariant BiasesInRange(bs)
    {
      // the placeholder is 1 x h, not 1 x n; RunNetwork replaces it before reading it
      hidden := hidden + [Zeros(1, h)];
      var bias := RandomRange();
      bs := bs + [bias];
      if i == 0 {
        var inputToHidden := Build(Zeros(3, n));
        ws := ws + [inputToHidden];
      }
      var hiddenToHidden := Build(Zeros(n, n));
      ws := ws + [hiddenToHidden];
    }

    var outputWeights := Build(Zeros(n, 2));
    ws := ws + [outputWeights];
    var bias := RandomRange();
    bs := bs + [bias];
    assert Shapes(ws) == Layout(h, n);
  }

  /** One matrix of CopyAndInitNetwork: a fresh matrix of the same shape, filled
      entry by entry from the source. */
  method CopyMatrix(source: array2<real>) returns (current: array2<real>)
    ensures fresh(current) && Values(current) == Values(source)
  {
    current := Build(Zeros(source.Length0, source.Length1));
    for x := 0 to current.Length0
      modifies current
      invariant forall x', y :: 0 <= x' < x && 0 <= y < current.Length1 ==> current[x', y] == source[x', y]
    {
      for y := 0 to current.Length1
        modifies current
        invariant forall x', y' :: 0 <= x' < x && 0 <= y' < current.Length1 ==> current[x', y'] == source[x', y']
        invariant forall y' :: 0 <= y' < y ==> current[x, y'] == source[x, y']
      {
        current[x, y] := source[x, y];
      }
    }
    Extensionality(Values(current), Values(source));
  }

  /** CopyAndInitNetwork's outer loop: a fresh copy of every matrix of the list,
      in order. */
  method CopyMatrices(ws: seq<array2<real>>) returns (copies: seq<array2<real>>)
    ensures |copies| == |ws| && Distinct(copies)
    ensures forall k :: 0 <= k < |ws| ==> fresh(copies[k])
    ensures WeightValues(copies) == WeightValues(ws)
  {
    copies := [];
    for i := 0 to |ws|
      invariant |copies| == i
      invariant forall k :: 0 <= k < i ==> fresh(copies[k]) && Values(copies[k]) == Values(ws[k])
      invariant Distinct(copies)
    {
      var current := CopyMatrix(ws[i]);
      copies := copies + [current];
    }
  }

  class NeuralNetwork {
    /** The 1 x 3 input row, one entry per sensor. */
    var inputLayer: Matrix
    var hiddenLayers: seq<Matrix>
    /** The output row: acceleration and turning before the final squashing. */
    var outputLayer: Matrix
    var weights: seq<array2<real>>
    /** One scalar per layer, added to every neuron of that layer. */
    var biases: seq<real>
    var fitness: real

    /** The field initializers of a new NeuralNetwork. */
    constructor ()
      ensures Valid()
      ensures inputLayer == Zeros(1, 3) && outputLayer == Zeros(1, 2)
      ensures hiddenLayers == [] && weights == [] && biases == [] && fitness == 0.0
    {
      inputLayer := Zeros(1, 3);
      hiddenLayers := [];
      outputLayer := Zeros(1, 2);
      weights := [];
      biases := [];
      fitness := 0.0;
    }

    /** Holds in every state: the input row is 1 x 3. */
    predicate Valid()
      reads this
    {
      inputLayer.HasShape(1, 3)
    }

    /** RunNetwork can run: its reads are in range and its products defined. */
    predicate CanRun()
      reads this, weights
    {
      Valid() && Runnable(WeightValues(weights), biases, |hiddenLayers|)
    }

    /** The shapes InitNetwork(h, n) gives the lists. */
    predicate Shaped(h: nat, n: nat)
      reads this
    {
      Valid() && Shapes(weights) == Layout(h, n) && |biases| == h + 2 && |hiddenLayers| == h + 1
    }

    /** Everything InitNetwork(h, n) establishes: the shapes, distinct matrices
        and every weight and bias in [-1, 1]. */
    predicate Initialized(h: nat, n: nat)
      reads this, weights
    {
      Shaped(h, n) && Distinct(weights) && AllInRange(weights) && BiasesInRange(biases)
    }

    /** The state of a network that was just constructed and then initialized
        by InitNetwork(h, n): initialized weights and biases, zero input and
        output rows, the h + 1 placeholder rows of 1 x h and fitness 0. */
    predicate NewlyInitialized(h: nat, n: nat)
      reads this, weights
    {
      Initialized(h, n) && fitness == 0.0 &&
      inputLayer == Zeros(1, 3) && outputLayer == Zeros(1, 2) &&
      hiddenLayers == seq(h + 1, _ => Zeros(1, h))
    }

    /** Fill every entry of every weight matrix, in place, with a random value. */
    method RandomizeWeights()
      modifies weights
      ensures weights == old(weights) && biases == old(biases)
      ensures AllInRange(weights)
    {
      for i := 0 to |weights|
        invariant forall k :: 0 <= k < i ==> InRange(weights[k])
      {
        var m := weights[i];
        for x := 0 to m.Length0
          invariant forall k :: 0 <= k < i ==> InRange(weights[k])
          invariant forall x', y :: 0 <= x' < x && 0 <= y < m.Length1 ==> -1.0 <= m[x', y] <= 1.0
        {
          for y := 0 to m.Length1
            invariant forall k :: 0 <= k < i ==> InRange(weights[k])
            invariant forall x', y' :: 0 <= x' < x && 0 <= y' < m.Length1 ==> -1.0 <= m[x', y'] <= 1.0
            invariant forall y' :: 0 <= y' < y ==> -1.0 <= m[x, y'] <= 1.0
          {
            var r := RandomRange();
            m[x, y] := r;
          }
        }
      }
    }

    /** Discard the lists and rebuild them for h + 1 hidden layers of n neurons. */
    method InitNetwork(h: int, n: int)
      requires Valid()
      requires h >= 1 && n >= 1
      modifies this
      ensures Initialized(h, n)
      ensures forall k :: 0 <= k < |weights| ==> fresh(weights[k])
      ensures inputLayer == Zeros(1, 3)
      ensures outputLayer == Zeros(old(outputLayer.rows), old(outputLayer.cols))
      ensures hiddenLayers == seq(h + 1, _ => Zeros(1, h))
      ensures fitness == old(fitness)
    {
      inputLayer := Clear(inputLayer);
      outputLayer := Clear(outputLayer);
      hiddenLayers, weights, biases := NewLayers(h, n);
      RandomizeWeights();
    }

    /** Evaluate the network on three sensor readings, overwriting the activation
        buffers; tanh and sigmoid are the activations. */
    method RunNetwork(a: real, b: real, c: real, tanh: Activation, sigmoid: Activation)
      returns (acceleration: real, turning: real)
      requires CanRun()
      modifies this
      ensures Valid()
      ensures weights == old(weights) && biases == old(biases) && fitness == old(fitness)
      ensures inputLayer == Input(a, b, c, tanh)
      ensures |hiddenLayers| == old(|hiddenLayers|)
      ensures forall k :: 0 <= k < |hiddenLayers| ==>
        hiddenLayers[k] == Hidden(Input(a, b, c, tanh), old(WeightValues(weights)), biases, k, tanh)
      ensures outputLayer == Output(a, b, c, old(WeightValues(weights)), biases, |hiddenLayers|, tanh)
      ensures |outputLayer.cells| == 1 && |outputLayer.cells[0]| >= 2
      ensures acceleration == sigmoid(outputLayer.cells[0][0]) && turning == tanh(outputLayer.cells[0][1])
    {
      var ws := WeightValues(weights);
      inputLayer, hiddenLayers, outputLayer, acceleration, turning :=
        Forward(inputLayer, a, b, c, ws, biases, |hiddenLayers|, tanh, sigmoid);
    }

    /** Clear the input and output rows and allocate h + 1 zero rows of n neurons. */
    method CreateHiddenLayers(h: int, n: int)
      requires Valid()
      requires h >= 0 && n >= 1
      modifies this
      ensures Valid()
      ensures weights == old(weights) && biases == old(biases) && fitness == old(fitness)
      ensures inputLayer == Zeros(1, 3)
      ensures outputLayer == Zeros(old(outputLayer.rows), old(outputLayer.cols))
      ensures hiddenLayers == seq(h + 1, _ => Zeros(1, n))
    {
      inputLayer := Clear(inputLayer);
      hiddenLayers := [];
      outputLayer := Clear(outputLayer);

      for i := 0 to h + 1
        invariant hiddenLayers == seq(i, _ => Zeros(1, n))
        invariant weights == old(weights) && biases == old(biases) && fitness == old(fitness)
        invariant inputLayer == Zeros(1, 3) && outputLayer == Zeros(old(outputLayer.rows), old(outputLayer.cols))
      {
        hiddenLayers := hiddenLayers + [Zeros(1, n)];
      }
    }

    /** A new network whose weights are entry-by-entry copies in freshly
        allocated matrices, whose biases are equal, and whose activation buffers
        are rebuilt for h + 1 hidden layers of n neurons.  Nothing of this
        network is modified. */
    method CopyAndInitNetwork(h: int, n: int) returns (copy: NeuralNetwork)
      requires h >= 0 && n >= 1
      ensures fresh(copy) && copy.Valid()
      ensures |copy.weights| == |weights| && Distinct(copy.weights)
      ensures forall k :: 0 <= k < |copy.weights| ==> fresh(copy.weights[k])
      ensures WeightValues(copy.weights) == WeightValues(weights)
      ensures copy.biases == biases && copy.fitness == 0.0
      ensures copy.inputLayer == Zeros(1, 3) && copy.outputLayer == Zeros(1, 2)
      ensures copy.hiddenLayers == seq(h + 1, _ => Zeros(1, n))
      ensures Shaped(h, n) ==> copy.Shaped(h, n)
    {
      ghost var values := WeightValues(weights);
      var newWeights := CopyMatrices(weights);
      copy := new NeuralNetwork();
      copy.weights := newWeights;
      copy.biases := biases;
      copy.CreateHiddenLayers(h, n);
      assert WeightValues(copy.weights) == values == WeightValues(weights);
      assert Shapes(copy.weights) == Shapes(weights);
    }
  }

  /** Two different networks that share no weight matrix, so writing the
      weights of one never changes the other. */
  predicate Independent(net: NeuralNetwork, other: NeuralNetwork)
    reads net, other
  {
    net != other &&
    forall x, y :: 0 <= x < |net.weights| && 0 <= y < |other.weights| ==> net.weights[x] != other.weights[y]
  }

  /** Whether RunNetwork can run depends only on the weight values, the biases
      and the number of hidden layers: a copy made with the source's hidden
      layer count can run whenever the source can. */
  lemma SameValuesCanRun(net: NeuralNetwork, other: NeuralNetwork)
    requires net.CanRun() && other.Valid()
    requires WeightValues(other.weights) == WeightValues(net.weights)
    requires other.biases == net.biases && |other.hiddenLayers| == |net.hiddenLayers|
    ensures other.CanRun()
  {
  }

  /** After the copy, writing every weight of the copy leaves the original's
      weights and biases as they were. */
  method CopyIsIndependent(original: NeuralNetwork, h: int, n: int) returns (copy: NeuralNetwork)
    requires h >= 0 && n >= 1
    ensures WeightValues(original.weights) == old(WeightValues(original.weights))
    ensures original.biases == old(original.biases)
    ensures |copy.weights| == |original.weights| && AllInRange(copy.weights)
  {
    copy := original.CopyAndInitNetwork(h, n);
    copy.RandomizeWeights();
  }

  /** A network with InitNetwork's shapes can be run: every product RunNetwork
      forms is defined and the output row has the entries [0, 0] and [0, 1]. */
  lemma ShapedCanRun(net: NeuralNetwork, h: nat, n: nat, a: real, b: real, c: real, tanh: Activation)
    requires net.Shaped(h, n)
    ensures net.CanRun()
    ensures Output(a, b, c, WeightValues(net.weights), net.biases, |net.hiddenLayers|, tanh).HasShape(1, 2)
  {
    var ws := WeightValues(net.weights);
    forall k | 0 <= k < |ws|
      ensures ws[k].Valid() && Shape(ws[k]) == Layout(h, n)[k]
    {
      assert Shapes(net.weights)[k] == Layout(h, n)[k];
    }
    LayoutRunnable(h, n, ws, net.biases, a, b, c, tanh);
  }
}
