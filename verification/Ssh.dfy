/** The connection to a machine: commands go out in order, and each is answered or fails. */
module Ssh {
  import opened Wrappers
  import opened K3s

  // The machine may answer anything, depending on every earlier command.
  class Host {
    const answer: (seq<Command>, Command) -> Option<string>
    var log: seq<Command>

    constructor (answer: (seq<Command>, Command) -> Option<string>)
      ensures this.answer == answer && log == []
    {
      this.answer, log := answer, [];
    }

    method Execute(c: Command) returns (stdout: Option<string>)
      modifies this
      ensures stdout == answer(old(log), c) && log == old(log) + [c]
    {
      stdout := answer(log, c);
      log := log + [c];
    }
  }
}
