/** External commands as the library sees them. */
module Commands {

  /** How a command went. `completed` means that it left an exit code. A program that could not be started or was
      given up leaves none, and the library then reads 0. `effect` says what the command did where its exit code
      leaves that open. */
  datatype Command = Command(completed: bool, code: int, effect: bool) {
    function Reported(): int {
      if completed then code else 0
    }
  }
}
