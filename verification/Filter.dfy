/** The filter as an object, beside the tracker and cache it shares. */
module Filter {
  import opened Wrappers
  import opened FilterSpec
  import opened PodState
  import opened ReplicaClasses

  class LoadedModelFilter {
    const tracker: Tracker?
    const podState: Cache?

    constructor (tracker: Tracker?, podState: Cache?)
      ensures this.tracker == tracker && this.podState == podState
    {
      this.tracker, this.podState := tracker, podState;
    }

    ghost function Caches(): set<Cache>
    {
      if podState == null then {} else {podState}
    }

    /** `target` is the request's model, None when there is no request. */
    method Filter(target: Option<string>, pods: seq<Pod>) returns (out: seq<Pod>)
      modifies Caches()`data
      ensures out == if target == None || tracker == null then pods
                     else Filtered(tracker.State(), target.value, pods)
      ensures podState != null ==>
                podState.data == if target == None || target.value == "" || tracker == null then old(podState.data)
                                 else Fed(old(podState.data), pods)
    {
      if target == None || target.value == "" { return pods; }
      if tracker == null { return pods; }
      var model := target.value;
      var warm: seq<Pod> := [];
      for i := 0 to |pods|
        invariant warm == WarmPods(tracker.State(), model, pods[..i])
        invariant podState != null ==> podState.data == Fed(old(podState.data), pods[..i])
      {
        var pod := pods[i];
        assert pods[..i + 1][..i] == pods[..i];
        if pod.address.None? { continue; }
        var key := pod.address.value;
        if podState != null && pod.metrics.Some? {
          podState.Update(SnapshotOf(pod));
        }
        var loaded := tracker.IsLoaded(key, model);
        if loaded {
          warm := warm + [pod];
        }
      }
      assert pods[..|pods|] == pods;
      out := if |warm| == 0 then pods else warm;
    }
  }
}
