/** The population bookkeeping of the genetic controller: an array of networks,
    the index of the genome being evaluated and the generation counter.  A car
    is reset with a network through an abstract callback, recorded here as the
    `active` network. */
module Genetics {
  import opened Network

  /** Controller.HIDDEN_LAYERS and Controller.NEURONS are positive constants. */
  type Positive = x: int | x >= 1 witness 1

  // ---------------------------------------------------------------------------
  // Death's counter update, on values
  // ---------------------------------------------------------------------------

  /** The guard of Death as written: it compares the GENERATION with the last
      index of the population. */
  predicate DeathGuard(generation: int, length: int) {
    generation < length - 1
  }

  /** CurrentGenome after one call of Death as written. */
  function NextGenome(generation: int, genome: int, length: int): int {
    if DeathGuard(generation, length) then genome + 1 else genome
  }

  /** Whether Death as written advances does not depend on the genome at all:
      two genomes advance by the same step, and while the generation is below
      length - 1 even the last genome is advanced past the end. */
  lemma GuardIgnoresGenome(generation: int, genome: int, other: int, length: int)
    ensures NextGenome(generation, genome, length) - genome == NextGenome(generation, other, length) - other
    ensures generation < length - 1 ==> NextGenome(generation, length - 1, length) == length
  {
  }

  /** One call of Death as written indexes the population in range: when the
      guard holds it writes the fitness of Population[genome] and then reads
      Population[genome + 1] in ResetToCurrentGenome. */
  predicate DeathSafe(generation: int, genome: int, length: int) {
    DeathGuard(generation, length) ==> 0 <= genome && genome + 1 < length
  }

  /** CurrentGenome after `calls` calls of Death as written. */
  function AfterDeaths(generation: int, genome: int, length: int, calls: nat): int
    decreases calls
  {
    if calls == 0 then genome else NextGenome(generation, AfterDeaths(generation, genome, length, calls - 1), length)
  }

  /** No call of Death changes the generation, so from generation 0 with at
      least two genomes the guard always holds and every call advances the
      genome: after k calls from genome 0 the genome is k. */
  lemma {:induction false} AfterDeathsCounts(length: int, calls: nat)
    requires length >= 2
    ensures AfterDeaths(0, 0, length, calls) == calls
  {
    if calls > 0 {
      AfterDeathsCounts(length, calls - 1);
    }
  }

  /** From genome 0 and generation 0 the first length - 1 calls of Death as
      written stay in range, and the next one indexes past the end of the
      population. */
  lemma Overrun(length: int)
    requires length >= 2
    ensures forall k :: 0 <= k < length - 1 ==> DeathSafe(0, AfterDeaths(0, 0, length, k), length)
    ensures !DeathSafe(0, AfterDeaths(0, 0, length, length - 1), length)
  {
    forall k | 0 <= k < length - 1
      ensures DeathSafe(0, AfterDeaths(0, 0, length, k), length)
    {
      AfterDeathsCounts(length, k);
    }
    AfterDeathsCounts(length, length - 1);
  }

  /** CurrentGenome after one call of Death with the guard on the GENOME: it
      advances while a next genome exists and stays otherwise. */
  function NextGenomeIntended(genome: int, length: int): (next: int)
    requires 0 <= genome < length
    ensures 0 <= next < length
  {
    if genome < length - 1 then genome + 1 else genome
  }

  /** CurrentGenome after `calls` calls of the corrected Death. */
  function AfterDeathsIntended(genome: int, length: int, calls: nat): int
    requires 0 <= genome < length
    decreases calls
  {
    if calls == 0 then genome
    else
      var before := AfterDeathsIntended(genome, length, calls - 1);
      if 0 <= before < length then NextGenomeIntended(before, length) else before
  }

  /** However many times the corrected Death is called, the genome stays a valid
      index, and it advances one by one up to the last genome. */
  lemma {:induction false} IntendedStaysInRange(genome: int, length: int, calls: nat)
    requires 0 <= genome < length
    ensures 0 <= AfterDeathsIntended(genome, length, calls) < length
    ensures AfterDeathsIntended(genome, length, calls) == if genome + calls < length then genome + calls else length - 1
  {
    if calls > 0 {
      IntendedStaysInRange(genome, length, calls - 1);
    }
  }

  // ---------------------------------------------------------------------------
  // The controller
  // ---------------------------------------------------------------------------

  /** A new network initialized for h + 1 hidden layers of n neurons: its
      weight matrices are fresh too, so it shares nothing with any network
      that existed before, such as those of `prior`. */
  method NewNetwork(h: Positive, n: Positive, ghost prior: seq<NeuralNetwork>) returns (network: NeuralNetwork)
    ensures fresh(network) && network.NewlyInitialized(h, n)
    ensures forall i :: 0 <= i < |network.weights| ==> fresh(network.weights[i])
    ensures forall k :: 0 <= k < |prior| ==> Independent(prior[k], network)
    ensures forall k :: 0 <= k < |prior| && old(prior[k].NewlyInitialized(h, n)) ==> prior[k].NewlyInitialized(h, n)
  {
    network := new NeuralNetwork();
    network.InitNetwork(h, n);
  }

  class GeneticController {
    /** The number of networks in the population. */
    var initialPopulationCount: int
    /** The population; null until CreatePopulation runs. */
    var population: array?<NeuralNetwork?>
    var currentGeneration: int
    var currentGenome: int
    /** Controller.HIDDEN_LAYERS and Controller.NEURONS. */
    const hiddenLayerCount: Positive
    const neuronCount: Positive
    /** The network last passed to Controller.ResetWithNetwork. */
    var active: NeuralNetwork?

    /** The field initializers: 85 networks, no population yet, both counters 0. */
    constructor (hiddenLayers: Positive, neurons: Positive)
      ensures initialPopulationCount == 85 && population == null && active == null
      ensures currentGeneration == 0 && currentGenome == 0
      ensures hiddenLayerCount == hiddenLayers && neuronCount == neurons
    {
      initialPopulationCount := 85;
      population := null;
      currentGeneration := 0;
      currentGenome := 0;
      hiddenLayerCount := hiddenLayers;
      neuronCount := neurons;
      active := null;
    }

    /** Every slot of the population holds a network. */
    predicate Filled()
      reads this, population
    {
      population != null && forall k :: 0 <= k < population.Length ==> population[k] != null
    }

    /** Death as written may be called: the population exists, and when the
        guard holds both indices it uses are in range and the slot it writes
        holds a network. */
    predicate DeathInBounds()
      reads this, population
    {
      population != null && DeathSafe(currentGeneration, currentGenome, population.Length) &&
      (DeathGuard(currentGeneration, population.Length) ==> population[currentGenome] != null)
    }

    /** Reset the car with the network of the current genome. */
    method ResetToCurrentGenome()
      requires population != null && 0 <= currentGenome < population.Length
      modifies this`active
      ensures active == population[currentGenome]
    {
      active := population[currentGenome];
    }

    /** Put a fresh network, initialized with the controller's layer sizes, in
        every slot from startingIndex up to initialPopulationCount; the other
        slots are left as they were. */
    method RandomizePopulationValues(newPopulation: array<NeuralNetwork?>, startingIndex: int)
      requires startingIndex < initialPopulationCount ==>
        0 <= startingIndex && initialPopulationCount <= newPopulation.Length
      modifies newPopulation
      ensures forall k :: 0 <= k < newPopulation.Length && !(startingIndex <= k < initialPopulationCount) ==>
        newPopulation[k] == old(newPopulation[k])
      ensures forall k :: startingIndex <= k < initialPopulationCount ==>
        newPopulation[k] != null && fresh(newPopulation[k]) &&
        newPopulation[k].NewlyInitialized(hiddenLayerCount, neuronCount) &&
        forall i :: 0 <= i < |newPopulation[k].weights| ==> fresh(newPopulation[k].weights[i])
      ensures forall i, j :: startingIndex <= i < j < initialPopulationCount ==>
        Independent(newPopulation[i], newPopulation[j])
    {
      var index := startingIndex;
      ghost var built: seq<NeuralNetwork> := [];
      while index < initialPopulationCount
        invariant startingIndex < initialPopulationCount ==>
          0 <= startingIndex <= index <= initialPopulationCount <= newPopulation.Length
        invariant startingIndex >= initialPopulationCount ==> index == startingIndex
        invariant forall k :: 0 <= k < newPopulation.Length && !(startingIndex <= k < index) ==>
          newPopulation[k] == old(newPopulation[k])
        invariant |built| == index - startingIndex
        invariant forall k :: startingIndex <= k < index ==> newPopulation[k] == built[k - startingIndex]
        invariant forall k :: 0 <= k < |built| ==>
          fresh(built[k]) && built[k].NewlyInitialized(hiddenLayerCount, neuronCount) &&
          forall i :: 0 <= i < |built[k].weights| ==> fresh(built[k].weights[i])
        invariant forall i, j :: 0 <= i < j < |built| ==> Independent(built[i], built[j])
        decreases initialPopulationCount - index
      {
        var network := NewNetwork(hiddenLayerCount, neuronCount, built);
        newPopulation[index] := network;
        built := built + [network];
        index := index + 1;
      }
      forall i, j | startingIndex <= i < j < initialPopulationCount
        ensures Independent(newPopulation[i], newPopulation[j])
      {
        assert newPopulation[i] == built[i - startingIndex] && newPopulation[j] == built[j - startingIndex];
      }
    }

    /** Allocate a population of initialPopulationCount networks, initialize
        every one of them and reset the car with the current genome. */
    method CreatePopulation()
      requires 0 <= currentGenome < initialPopulationCount
      modifies this
      ensures initialPopulationCount == old(initialPopulationCount)
      ensures currentGenome == old(currentGenome) && currentGeneration == old(currentGeneration)
      ensures population != null && fresh(population) && population.Length == initialPopulationCount
      ensures Filled()
      ensures forall k :: 0 <= k < population.Length ==>
        fresh(population[k]) && population[k].NewlyInitialized(hiddenLayerCount, neuronCount) &&
        forall i :: 0 <= i < |population[k].weights| ==> fresh(population[k].weights[i])
      ensures forall i, j :: 0 <= i < j < population.Length ==> Independent(population[i], population[j])
      ensures active == population[currentGenome]
    {
      population := new NeuralNetwork?[initialPopulationCount](_ => null);
      RandomizePopulationValues(population, 0);
      ResetToCurrentGenome();
    }

    /** Called when a car dies, as written: when the guard on the generation
        holds, record the fitness of the current genome, move to the next genome
        and reset the car with it; otherwise (where breeding would go) nothing
        happens.  The network argument is not used. */
    method Death(fitness: real, network: NeuralNetwork?)
      requires DeathInBounds()
      modifies this, if DeathGuard(currentGeneration, population.Length) then {population[currentGenome]} else {}
      ensures population == old(population) && unchanged(population)
      ensures initialPopulationCount == old(initialPopulationCount) && currentGeneration == old(currentGeneration)
      ensures currentGenome == NextGenome(old(currentGeneration), old(currentGenome), population.Length)
      ensures old(DeathGuard(currentGeneration, population.Length)) ==>
        old(population[currentGenome]).fitness == fitness && active == population[currentGenome]
      ensures old(DeathGuard(currentGeneration, population.Length)) ==>
        forall k :: 0 <= k < population.Length && population[k] != null && population[k] != old(population[currentGenome]) ==>
          population[k].fitness == old(population[k].fitness)
      ensures forall k :: 0 <= k < population.Length && population[k] != null ==>
        population[k].weights == old(population[k].weights) && population[k].biases == old(population[k].biases) &&
        population[k].inputLayer == old(population[k].inputLayer) &&
        population[k].hiddenLayers == old(population[k].hiddenLayers) &&
        population[k].outputLayer == old(population[k].outputLayer)
      ensures !old(DeathGuard(currentGeneration, population.Length)) ==> unchanged(this)
    {
      if currentGeneration < population.Length - 1 {
        population[currentGenome].fitness := fitness;
        currentGenome := currentGenome + 1;
        ResetToCurrentGenome();
      } else {
        // repopulating is not implemented
      }
    }

    /** Death with the guard on the genome: the fitness of the current genome
        is recorded, and the genome advances only while a next genome exists,
        so it stays a valid index of a filled population however often Death
        is called. */
    method DeathIntended(fitness: real, network: NeuralNetwork?)
      requires Filled() && 0 <= currentGenome < population.Length
      modifies this, population[currentGenome]
      ensures Filled() && 0 <= currentGenome < population.Length
      ensures population == old(population) && unchanged(population)
      ensures initialPopulationCount == old(initialPopulationCount) && currentGeneration == old(currentGeneration)
      ensures currentGenome == NextGenomeIntended(old(currentGenome), population.Length)
      ensures old(population[currentGenome]).fitness == fitness
      ensures old(currentGenome) < population.Length - 1 ==> active == population[currentGenome]
      ensures old(currentGenome) == population.Length - 1 ==> active == old(active)
      ensures forall k :: 0 <= k < population.Length && population[k] != old(population[currentGenome]) ==>
        population[k].fitness == old(population[k].fitness)
      ensures forall k :: 0 <= k < population.Length ==>
        population[k].weights == old(population[k].weights) && population[k].biases == old(population[k].biases) &&
        population[k].inputLayer == old(population[k].inputLayer) &&
        population[k].hiddenLayers == old(population[k].hiddenLayers) &&
        population[k].outputLayer == old(population[k].outputLayer)
    {
      population[currentGenome].fitness := fitness;
      if currentGenome < population.Length - 1 {
        currentGenome := currentGenome + 1;
        ResetToCurrentGenome();
      } else {
        // repopulating is not implemented
      }
    }
  }
}
