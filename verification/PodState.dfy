/** The per-pod load cache of internal/podstate/cache.go. */
module PodState {

  datatype Snapshot = Snapshot(podKey: string, runningRequests: int, waitingQueue: int, kvCacheUsage: real)

  function PressureOf(data: map<string, Snapshot>): string -> real
  {
    (podKey: string) =>
      if podKey == "" || podKey !in data then 0.0
      else (data[podKey].runningRequests + data[podKey].waitingQueue) as real
  }

  function Updated(data: map<string, Snapshot>, s: Snapshot): map<string, Snapshot>
  {
    if s.podKey == "" then data else data[s.podKey := s]
  }

  class Cache {
    var data: map<string, Snapshot>

    constructor ()
      ensures data == map[]
    {
      data := map[];
    }

    method Update(s: Snapshot)
      modifies this`data
      ensures data == Updated(old(data), s)
    {
      if s.podKey == "" { return; }
      data := data[s.podKey := s];
    }

    method Pressure(podKey: string) returns (score: real)
      ensures score == PressureOf(data)(podKey)
    {
      if podKey == "" || podKey !in data { return 0.0; }
      score := (data[podKey].runningRequests + data[podKey].waitingQueue) as real;
    }
  }
}
