/** The ESP-IDF error codes the firmware returns. */
module Esp {
  datatype EspErr = Ok | InvalidArg | InvalidSize | InvalidState | NoMem
}
