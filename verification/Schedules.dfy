/** Schedules: sequences of party numbers, each entry giving that party a turn. */
module Schedules {

  /** One sweep after the other. */
  function Concat(sweeps: seq<seq<nat>>): seq<nat> {
    if |sweeps| == 0 then [] else sweeps[0] + Concat(sweeps[1..])
  }
}
