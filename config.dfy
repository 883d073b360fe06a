/** The mod's settings, taken as already-parsed values. */
module Config {

  /** A value produced by `byte.Parse`. */
  type Byte = x: int | 0 <= x < 256

  datatype Settings = Settings(
    showMessages: bool,       // show a message when a pickup fails
    disableBlacklist: bool,   // "Danger zone": ignore the blacklist
    sufferingMode: bool,      // capacity by mass and length instead of slots
    maxSlots: Byte,           // "Max items"
    weightLimit: real,        // mass capacity in kg
    lengthLimitCm: real,      // longest admissible side in cm
    logSystem: bool,
    logSaveLoad: bool,
    logPickupAndDrop: bool,
    logPickupLogic: bool)
}
