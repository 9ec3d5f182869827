/** The constants of the program's `config` module, which is not part of this model; they are parameters. */
module Config {

  datatype Config = Config(
    movementCost: real,         // MOVEMENT_COST
    reproductionCost: real,     // REPRODUCTION_COST
    maxEnergy: real,            // CREATURE_MAX_ENERGY
    energyDecay: real,          // CREATURE_ENERGY_DECAY
    sunlightIntensity: real,    // SUNLIGHT_INTENSITY
    mutationRate: real,         // MUTATION_RATE
    maxCreatures: nat,          // MAX_CREATURES
    initialCreatureCount: nat,  // INITIAL_CREATURE_COUNT
    foodRespawnRate: real,      // FOOD_RESPAWN_RATE
    plantGrowthRate: real,      // PLANT_GROWTH_RATE
    learningRate: real,         // Q_LEARNING_RATE
    discountFactor: real,       // Q_DISCOUNT_FACTOR
    explorationRate: real       // Q_EXPLORATION_RATE
  )
}
