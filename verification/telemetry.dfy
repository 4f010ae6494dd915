/** app/lib/telemetry-math.ts: what its series are made of. */
module Telemetry {

  /** A sample: time in milliseconds, and value. */
  datatype Point = Point(t: real, v: real)
}
