/** The collector's sample, reduced to the fields that later stages read. */
module Samples {
  import opened GoTime

  datatype ServiceStatus = ServiceStatus(name: string, running: bool)

  datatype Sample = Sample(
    timestamp: Time,
    cpuPercent: real,
    memUsedMB: real,
    memTotalMB: real,
    diskUsedGB: real,
    diskTotalGB: real,
    loadAvg1: real,
    services: seq<ServiceStatus>)

  /** Real clock readings, in the order the collector takes them. */
  ghost predicate Chronological(samples: seq<Sample>)
  {
    && (forall i :: 0 <= i < |samples| ==> samples[i].timestamp > ZERO_TIME)
    && (forall i, j :: 0 <= i <= j < |samples| ==> samples[i].timestamp <= samples[j].timestamp)
  }
}
