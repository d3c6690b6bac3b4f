// The tuning constants of constants.ts and the species table ANIMAL_TYPES.

module Constants {
  import opened Types

  const WorldSize: real := 250.0
  const TreeCount: nat := 800
  const AnimalSpawnLimit: nat := 20
  const PlayerSpeed: real := 0.12
  const Sensitivity: real := 0.005

  // Detection ranges (DETECTION).
  const SightRange: real := 45.0
  const ScentRange: real := 18.0
  const HearingIdle: real := 6.0
  const HearingWalk: real := 18.0
  const HearingRun: real := 38.0

  /** The species in the order of ANIMAL_TYPES; spawning walks this order. */
  const AllSpecies: seq<Species> := [Deer, Wolf, Bear, Rabbit]

  function BaseHealth(s: Species): int
  {
    match s
    case Deer => 100
    case Wolf => 80
    case Bear => 300
    case Rabbit => 20
  }

  function ScoreValue(s: Species): int
  {
    match s
    case Deer => 50
    case Wolf => 75
    case Bear => 200
    case Rabbit => 20
  }

  /** Pitch of the species' call in hertz (used only by the call sound). */
  function CallFreq(s: Species): int
  {
    match s
    case Deer => 120
    case Wolf => 400
    case Bear => 80
    case Rabbit => 800
  }
}
