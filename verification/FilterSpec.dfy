/** The loaded-model filter of internal/plugins/filter/loaded_model.go: what it lets through, and
    what it writes into the pod-state cache on the way. */
module FilterSpec {
  import opened StringOrder
  import opened Wrappers
  import opened DedupSpec
  import opened PodState

  datatype Metrics = Metrics(runningRequests: int, waitingQueue: int, kvCacheUsage: real)

  /** A candidate; the address is None when the framework has no pod behind it. */
  datatype Pod = Pod(address: Option<string>, metrics: Option<Metrics>)

  ghost predicate IsWarm(t: TrackerState, model: string, pod: Pod)
  {
    pod.address.Some? && t.firstPoll && pod.address.value in Holders(t.loaded, model)
  }

  ghost function WarmPods(t: TrackerState, model: string, pods: seq<Pod>): seq<Pod>
  {
    if pods == [] then []
    else
      var init, last := pods[..|pods| - 1], pods[|pods| - 1];
      WarmPods(t, model, init) + (if IsWarm(t, model, last) then [last] else [])
  }

  ghost function Filtered(t: TrackerState, model: string, pods: seq<Pod>): seq<Pod>
  {
    if model == "" || WarmPods(t, model, pods) == [] then pods else WarmPods(t, model, pods)
  }

  function SnapshotOf(pod: Pod): Snapshot
    requires pod.address.Some? && pod.metrics.Some?
  {
    var m := pod.metrics.value;
    Snapshot(pod.address.value, m.runningRequests, m.waitingQueue, m.kvCacheUsage)
  }

  ghost function Fed(data: map<string, Snapshot>, pods: seq<Pod>): map<string, Snapshot>
  {
    if pods == [] then data
    else
      var last := pods[|pods| - 1];
      var before := Fed(data, pods[..|pods| - 1]);
      if last.address.Some? && last.metrics.Some? then Updated(before, SnapshotOf(last)) else before
  }

  /** `idx` picks positions of `pods` in increasing order. */
  ghost predicate Picks(idx: seq<nat>, pods: seq<Pod>, out: seq<Pod>)
  {
    && |idx| == |out|
    && (forall i, j :: 0 <= i < j < |idx| ==> idx[i] < idx[j])
    && (forall i :: 0 <= i < |idx| ==> idx[i] < |pods| && out[i] == pods[idx[i]])
  }

  /** The warm pods are a subsequence of the input holding every warm position. */
  lemma {:induction false} WarmSubsequence(t: TrackerState, model: string, pods: seq<Pod>) returns (idx: seq<nat>)
    ensures Picks(idx, pods, WarmPods(t, model, pods))
    ensures forall k: nat :: k in idx <==> k < |pods| && IsWarm(t, model, pods[k])
  {
    if pods == [] {
      idx := [];
    } else {
      var init, last := pods[..|pods| - 1], pods[|pods| - 1];
      idx := WarmSubsequence(t, model, init);
      if IsWarm(t, model, last) {
        idx := idx + [|pods| - 1];
      }
    }
  }

  /** The filter's contract: an order-preserving subsequence, non-empty whenever the input is, all
      warm pods and nothing else if there are any, the whole input otherwise; filtering again
      changes nothing. */
  lemma {:induction false} FilterContract(t: TrackerState, model: string, pods: seq<Pod>) returns (idx: seq<nat>)
    ensures var out := Filtered(t, model, pods);
            && Picks(idx, pods, out)
            && (pods != [] ==> out != [])
            && ((model != "" && exists p :: p in pods && IsWarm(t, model, p)) ==>
                  forall k: nat :: k in idx <==> k < |pods| && IsWarm(t, model, pods[k]))
            && ((model == "" || !exists p :: p in pods && IsWarm(t, model, p)) ==> out == pods)
            && Filtered(t, model, out) == out
  {
    var out := Filtered(t, model, pods);
    var warm := WarmSubsequence(t, model, pods);
    if model == "" || WarmPods(t, model, pods) == [] {
      idx := seq(|pods|, i => i);
      assert forall k: nat :: k < |pods| ==> k !in warm || model == "";
    } else {
      idx := warm;
      AllWarmKept(t, model, out);
      assert pods[idx[0]] in pods;
    }
  }

  lemma {:induction false} WarmMembers(t: TrackerState, model: string, pods: seq<Pod>, pod: Pod)
    ensures pod in WarmPods(t, model, pods) <==> pod in pods && IsWarm(t, model, pod)
  {
    if pods != [] {
      WarmMembers(t, model, pods[..|pods| - 1], pod);
      assert pods == pods[..|pods| - 1] + [pods[|pods| - 1]];
    }
  }

  /** Told over the tracker's map alone: before the tracker is seeded everything passes; afterwards the pods
      that have the model pass, and the others exactly if there is none. */
  lemma {:induction false} FilterPassesExactly(t: TrackerState, model: string, pods: seq<Pod>, pod: Pod)
    requires model != ""
    ensures !t.firstPoll ==> Filtered(t, model, pods) == pods
    ensures t.firstPoll ==>
              (pod in Filtered(t, model, pods)
               <==> pod in pods && (HasModel(t, model, pod) || !SomeHasModel(t, model, pods)))
  {
    var warm := WarmPods(t, model, pods);
    forall p: Pod ensures p in warm <==> p in pods && t.firstPoll && HasModel(t, model, p) {
      WarmMembers(t, model, pods, p);
    }
    if warm != [] {
      assert warm[0] in warm;
    }
  }

  ghost predicate SomeHasModel(t: TrackerState, model: string, pods: seq<Pod>)
  {
    exists p :: p in pods && HasModel(t, model, p)
  }

  ghost predicate HasModel(t: TrackerState, model: string, pod: Pod)
  {
    pod.address.Some? && pod.address.value in t.loaded && model in t.loaded[pod.address.value]
  }

  lemma {:induction false} AllWarmKept(t: TrackerState, model: string, pods: seq<Pod>)
    requires forall p :: p in pods ==> IsWarm(t, model, p)
    ensures WarmPods(t, model, pods) == pods
  {
    if pods != [] {
      AllWarmKept(t, model, pods[..|pods| - 1]);
      assert pods == pods[..|pods| - 1] + [pods[|pods| - 1]];
    }
  }

  ghost predicate Measures(pod: Pod, address: string)
  {
    address != "" && pod.address == Some(address) && pod.metrics.Some?
  }

  /** After a filter call the recorded pressure of an address is the running plus waiting requests of
      its last listed pod with metrics, and is what it was if there is none. */
  lemma {:induction false} FedPressure(data: map<string, Snapshot>, pods: seq<Pod>, address: string, i: int)
    requires -1 <= i < |pods|
    requires i >= 0 ==> Measures(pods[i], address)
    requires forall j :: i < j < |pods| ==> !Measures(pods[j], address)
    ensures PressureOf(Fed(data, pods))(address) ==
            if i >= 0 then (pods[i].metrics.value.runningRequests + pods[i].metrics.value.waitingQueue) as real
            else PressureOf(data)(address)
  {
    if i < |pods| - 1 {
      FedPressure(data, pods[..|pods| - 1], address, i);
    }
  }

  /** The snapshot a filter call leaves for an address is that of its last listed pod with metrics, figure for
      figure. */
  lemma {:induction false} FedSnapshot(data: map<string, Snapshot>, pods: seq<Pod>, address: string, i: int)
    requires 0 <= i < |pods| && Measures(pods[i], address)
    requires forall j :: i < j < |pods| ==> !Measures(pods[j], address)
    ensures var m := pods[i].metrics.value;
            && address in Fed(data, pods)
            && Fed(data, pods)[address].podKey == address
            && Fed(data, pods)[address].runningRequests == m.runningRequests
            && Fed(data, pods)[address].waitingQueue == m.waitingQueue
            && Fed(data, pods)[address].kvCacheUsage == m.kvCacheUsage
  {
    if i < |pods| - 1 {
      FedSnapshot(data, pods[..|pods| - 1], address, i);
    }
  }

  /** An address without a name, or that no filter call has ever seen with metrics, has no load; others that of
      the last time. */
  lemma {:induction false} FedFromEmpty(pods: seq<Pod>, address: string, i: int)
    requires -1 <= i < |pods|
    requires i >= 0 ==> Measures(pods[i], address)
    requires forall j :: i < j < |pods| ==> !Measures(pods[j], address)
    ensures PressureOf(Fed(map[], pods))("") == 0.0
    ensures PressureOf(Fed(map[], pods))(address) ==
            if i >= 0 then (pods[i].metrics.value.runningRequests + pods[i].metrics.value.waitingQueue) as real
            else 0.0
  {
    FedPressure(map[], pods, address, i);
  }

  /** So the copy a dedup pass gives up never has more recorded load than one it keeps. */
  lemma LoserIsLeastLoaded(data: map<string, Snapshot>, s: TrackerState, unloads: (string, string) -> bool,
                           model: string, other: string)
    requires model in Duplicates(s.loaded) && other in Holders(s.loaded, model)
    ensures var env := PassEnv(Some(PressureOf(data)), unloads);
            PressureOf(data)(Loser(s, env, model)) <= PressureOf(data)(other)
  {
    var env := PassEnv(Some(PressureOf(data)), unloads);
    assert IsMin(Loser(s, env, model), Holders(s.loaded, model), PressureOf(data));
    assert Precedes(PressureOf(data), Loser(s, env, model), other);
  }
}
