/** The dryness cutoff per soil type (`SOIL_DRY_LEVELS` and its `.get(soil, 25)`). */
module Thresholds {

  /** Moisture at or below these values counts as dry. */
  const SoilDryLevels: map<string, int> := map["Sandy" := 10, "Clay" := 30, "Loamy" := 25]

  /** The cutoff for any soil the table does not name. */
  const DefaultDryLevel: int := 25

  /** The dryness cutoff for a soil name: the table entry, or the default for
      any other name; never an error. */
  function DryThreshold(soil: string): (t: int)
    ensures soil == "Sandy" ==> t == 10
    ensures soil == "Clay" ==> t == 30
    ensures soil == "Loamy" ==> t == 25
    ensures soil != "Sandy" && soil != "Clay" && soil != "Loamy" ==> t == 25
    ensures 10 <= t <= 30
  {
    if soil in SoilDryLevels then SoilDryLevels[soil] else DefaultDryLevel
  }
}
