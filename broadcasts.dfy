/**
  The intents the proximity checks send and MainActivity listens for:
  "com.cifiko.stoperica.START_LAP", "com.cifiko.stoperica.LAP" and
  "com.cifiko.stoperica.SECTOR" (the last with an optional "sectorNumber"
  extra).
 */
module Broadcasts {
  import opened KotlinText

  datatype Broadcast =
    | StartLap
    | Lap
    | Sector(sectorNumber: Option<int>)
}
