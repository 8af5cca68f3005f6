// The environment of every multi-step protocol: each API call meets its own fate.
module Faults {

  /** A lost reply is an error the caller sees although the server applied the change. */
  datatype Fate = Done | Failed | LostReply
}
