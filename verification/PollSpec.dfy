/** What one poll makes of the pods it lists: queryPod and pollOnce of
    internal/modeltracker/tracker.go, and isModelLoaded of internal/plugins/modelloader/loader.go,
    which reads the same answer differently. */
module PollSpec {
  import opened Wrappers
  import opened DedupSpec

  /** One entry of a pod's model list. */
  datatype Entry = Entry(id: string, status: string)

  /** A listed pod, with the model list it answered or None when the query failed. */
  datatype ListedPod = ListedPod(ip: string, answer: Option<seq<Entry>>)

  predicate Warm(status: string)
  {
    status == "loaded" || status == "running" || status == ""
  }

  /** The tracker's reading: any warm entry counts. */
  ghost function WarmModels(entries: seq<Entry>): set<string>
  {
    set e | e in entries && Warm(e.status) :: e.id
  }

  /** The loader's reading: the first entry with the name decides. */
  ghost predicate FirstMatchWarm(entries: seq<Entry>, model: string)
  {
    exists i :: 0 <= i < |entries| && entries[i].id == model && Warm(entries[i].status)
                && forall j :: 0 <= j < i ==> entries[j].id != model
  }

  ghost predicate UniqueIds(entries: seq<Entry>)
  {
    forall i, j :: 0 <= i < j < |entries| ==> entries[i].id != entries[j].id
  }

  /** The loader never calls a model warm that the tracker calls cold, and with unique names the
      two readings of one answer agree. */
  lemma ReadersAgree(entries: seq<Entry>, model: string)
    ensures FirstMatchWarm(entries, model) ==> model in WarmModels(entries)
    ensures UniqueIds(entries) ==> (FirstMatchWarm(entries, model) <==> model in WarmModels(entries))
  {
    if FirstMatchWarm(entries, model) {
      var i :| 0 <= i < |entries| && entries[i].id == model && Warm(entries[i].status);
      assert entries[i] in entries;
    }
    if UniqueIds(entries) && model in WarmModels(entries) {
      var e :| e in entries && Warm(e.status) && e.id == model;
      var i :| 0 <= i < |entries| && entries[i] == e;
      assert forall j :: 0 <= j < i ==> entries[j].id != model;
    }
  }

  /** The statuses that count as warm are these three, the last for servers that give none. */
  predicate WarmEntry(e: Entry, model: string)
  {
    e.id == model && (e.status == "loaded" || e.status == "running" || e.status == "")
  }

  /** The tracker's set has a model exactly if some entry of that name has one of the three statuses. */
  lemma TrackerReadsExactly(entries: seq<Entry>, model: string)
    ensures model in WarmModels(entries)
       <==> exists i :: 0 <= i < |entries| && WarmEntry(entries[i], model)
  {
    if model in WarmModels(entries) {
      var e :| e in entries && Warm(e.status) && e.id == model;
      var i :| 0 <= i < |entries| && entries[i] == e;
      assert WarmEntry(entries[i], model);
    }
    if i :| 0 <= i < |entries| && WarmEntry(entries[i], model) {
      assert entries[i] in entries;
    }
  }

  /** The loader goes by the first entry of that name, and by the same three statuses. */
  lemma {:induction false} LoaderReadsExactly(entries: seq<Entry>, model: string, i: int)
    requires 0 <= i < |entries| && entries[i].id == model && forall j :: 0 <= j < i ==> entries[j].id != model
    ensures FirstMatchWarm(entries, model) <==> WarmEntry(entries[i], model)
  {
    if FirstMatchWarm(entries, model) {
      var k :| 0 <= k < |entries| && entries[k].id == model && Warm(entries[k].status)
               && forall j :: 0 <= j < k ==> entries[j].id != model;
      assert k == i;
    }
  }

  /** A model that is not listed at all is cold to it. */
  lemma UnlistedIsCold(entries: seq<Entry>, model: string)
    requires forall i :: 0 <= i < |entries| ==> entries[i].id != model
    ensures !FirstMatchWarm(entries, model) && model !in WarmModels(entries)
  {
  }

  /** The first entry with the name is cold, and a later one is warm. */
  ghost predicate ColdBeforeWarm(entries: seq<Entry>, model: string, i: int, j: int)
  {
    && 0 <= i < j < |entries| && entries[i].id == model && entries[j].id == model
    && !Warm(entries[i].status) && Warm(entries[j].status)
    && forall l :: 0 <= l < i ==> entries[l].id != model
  }

  lemma {:induction false} FirstEntry(entries: seq<Entry>, model: string, j: int) returns (i: int)
    requires 0 <= j < |entries| && entries[j].id == model
    ensures 0 <= i <= j && entries[i].id == model && forall l :: 0 <= l < i ==> entries[l].id != model
  {
    i := j;
    if l :| 0 <= l < j && entries[l].id == model {
      i := FirstEntry(entries, model, l);
    }
  }

  /** On any answer whatsoever the two readings differ about a model exactly if a cold entry comes first
      and a warm one with the same name later. */
  lemma ReadersDifferExactly(entries: seq<Entry>, model: string)
    ensures (FirstMatchWarm(entries, model) <==> model in WarmModels(entries))
       <==> !exists i, j :: ColdBeforeWarm(entries, model, i, j)
  {
    ReadersAgree(entries, model);
    if i, j :| ColdBeforeWarm(entries, model, i, j) {
      assert entries[j] in entries;
      assert entries[i].id == model;
    } else if model in WarmModels(entries) {
      var e :| e in entries && Warm(e.status) && e.id == model;
      var j :| 0 <= j < |entries| && entries[j] == e;
      var i := FirstEntry(entries, model, j);
      assert i < j && !Warm(entries[i].status) ==> ColdBeforeWarm(entries, model, i, j);
    }
  }

  /** The shortest such answer. */
  lemma ReadersDisagreeOnRepeats()
    ensures var es := [Entry("m", "unloaded"), Entry("m", "loaded")];
            "m" in WarmModels(es) && !FirstMatchWarm(es, "m")
  {
    var es := [Entry("m", "unloaded"), Entry("m", "loaded")];
    assert es[1] in es;
    assert es[0].id == "m" && !Warm(es[0].status);
  }

  // ----- The poll -----

  /** The pod -> models map built from a listing, pod by pod. */
  ghost function Polled(prev: PodModels, pods: seq<ListedPod>): PodModels
  {
    if pods == [] then map[]
    else
      var next := Polled(prev, pods[..|pods| - 1]);
      var pod := pods[|pods| - 1];
      if pod.ip == "" then next
      else if pod.answer.Some? then next[pod.ip := WarmModels(pod.answer.value)]
      else if pod.ip in prev then next[pod.ip := prev[pod.ip]]
      else next
  }

  ghost function ListedIPs(pods: seq<ListedPod>): set<string>
  {
    set p | p in pods && p.ip != "" :: p.ip
  }

  /** The tracker after a successful listing, before the dedup pass. */
  ghost function Refresh(s: TrackerState, pods: seq<ListedPod>): TrackerState
  {
    s.(loaded := Polled(s.loaded, pods),
       podIP := map ip | ip in ListedIPs(pods) :: ip,
       firstPoll := true)
  }

  /** `pods[i]` is the last listed pod with its IP that gave the poll something to store. */
  ghost predicate Decides(prev: PodModels, pods: seq<ListedPod>, i: int)
  {
    && 0 <= i < |pods| && Stores(prev, pods[i])
    && forall j :: i < j < |pods| && pods[j].ip == pods[i].ip ==> !Stores(prev, pods[j])
  }

  ghost predicate Stores(prev: PodModels, pod: ListedPod)
  {
    pod.ip != "" && (pod.answer.Some? || pod.ip in prev)
  }

  /** Poll refinement, the keys: the tracked pods are exactly the listed ones that answered or were
      already known. */
  lemma {:induction false} PollKeys(prev: PodModels, pods: seq<ListedPod>, ip: string)
    ensures ip in Polled(prev, pods) <==> exists p :: p in pods && p.ip == ip && Stores(prev, p)
  {
    if pods != [] {
      var init, pod := pods[..|pods| - 1], pods[|pods| - 1];
      assert pods == init + [pod];
      PollKeys(prev, init, ip);
    }
  }

  /** Poll refinement, the values: each tracked pod has its answer, or its last known models where
      the query failed. */
  lemma {:induction false} PollValues(prev: PodModels, pods: seq<ListedPod>, i: int)
    requires Decides(prev, pods, i)
    ensures pods[i].ip in Polled(prev, pods)
    ensures Polled(prev, pods)[pods[i].ip] ==
            match pods[i].answer { case Some(es) => WarmModels(es) case None => prev[pods[i].ip] }
  {
    if i < |pods| - 1 {
      PollValues(prev, pods[..|pods| - 1], i);
    }
  }

  /** After a poll that the pod's deciding entry answered, the pod has exactly the models some entry of the
      answer gives one of the three statuses; one it leaves out, or that is "loading", it does not have. */
  lemma {:induction false} PolledExactly(s: TrackerState, pods: seq<ListedPod>, i: int, model: string)
    requires Decides(s.loaded, pods, i) && pods[i].answer.Some?
    ensures var es := pods[i].answer.value;
            pods[i].ip in Holders(Refresh(s, pods).loaded, model)
            <==> exists k :: 0 <= k < |es| && WarmEntry(es[k], model)
  {
    PollValues(s.loaded, pods, i);
    TrackerReadsExactly(pods[i].answer.value, model);
  }

  /** The poll routes every listed pod by its own address, and no other, and seeds the tracker; counters stay. */
  lemma RefreshRoutes(s: TrackerState, pods: seq<ListedPod>, ip: string)
    ensures var after := Refresh(s, pods);
            && after.firstPoll && after.dupObs == s.dupObs
            && (ip in after.podIP <==> ip != "" && exists i :: 0 <= i < |pods| && pods[i].ip == ip)
            && (ip in after.podIP ==> after.podIP[ip] == ip)
  {
    if i :| 0 <= i < |pods| && pods[i].ip == ip && ip != "" { assert pods[i] in pods; }
  }

  // ----- A poll while others mark and retract -----

  /** The map the poll swaps in if the tracker held `views[i]` at the `i`th query and holds `now` at the
      swap. A pod that does not answer keeps the very set the tracker has for it, later changes included. */
  ghost function Swapped(views: seq<PodModels>, now: PodModels, pods: seq<ListedPod>): PodModels
    requires |views| == |pods| && forall v :: v in views ==> v.Keys <= now.Keys
  {
    if pods == [] then map[]
    else
      var last := |pods| - 1;
      var next := Swapped(views[..last], now, pods[..last]);
      var pod := pods[last];
      if pod.ip == "" then next
      else if pod.answer.Some? then next[pod.ip := WarmModels(pod.answer.value)]
      else if pod.ip in views[last] then next[pod.ip := now[pod.ip]]
      else next
  }

  /** What the queries come to: for each pod the set it answered, or None for the tracker's own set. */
  ghost function Gathered(views: seq<PodModels>, pods: seq<ListedPod>): map<string, Option<set<string>>>
    requires |views| == |pods|
  {
    if pods == [] then map[]
    else
      var last := |pods| - 1;
      var next := Gathered(views[..last], pods[..last]);
      var pod := pods[last];
      if pod.ip == "" then next
      else if pod.answer.Some? then next[pod.ip := Some(WarmModels(pod.answer.value))]
      else if pod.ip in views[last] then next[pod.ip := None]
      else next
  }

  function SwapIn(next: map<string, Option<set<string>>>, now: PodModels): PodModels
  {
    map ip | ip in next && (next[ip].Some? || ip in now) :: if next[ip].Some? then next[ip].value else now[ip]
  }

  lemma {:induction false} GatheredSwapsIn(views: seq<PodModels>, now: PodModels, pods: seq<ListedPod>)
    requires |views| == |pods| && forall v :: v in views ==> v.Keys <= now.Keys
    ensures SwapIn(Gathered(views, pods), now) == Swapped(views, now, pods)
  {
    if pods != [] {
      var last := |pods| - 1;
      GatheredSwapsIn(views[..last], now, pods[..last]);
    }
  }

  /** `pods[i]` is the last listed pod with its IP that gave such a poll something to store. */
  ghost predicate DecidesAmid(views: seq<PodModels>, pods: seq<ListedPod>, i: nat)
    requires |views| == |pods|
  {
    && i < |pods| && Stores(views[i], pods[i])
    && forall j :: i < j < |pods| && pods[j].ip == pods[i].ip ==> !Stores(views[j], pods[j])
  }

  /** What that pod has after the swap: what it answered, or what the tracker holds for it by now. */
  ghost predicate HasAfter(now: PodModels, pod: ListedPod, model: string)
  {
    match pod.answer
    case Some(es) => model in WarmModels(es)
    case None => pod.ip in now && model in now[pod.ip]
  }

  ghost predicate SurvivesSwap(views: seq<PodModels>, now: PodModels, pods: seq<ListedPod>, ip: string, model: string)
    requires |views| == |pods|
  {
    exists i: nat :: DecidesAmid(views, pods, i) && pods[i].ip == ip && HasAfter(now, pods[i], model)
  }

  /** A mark or a retraction made while the pods are being queried survives the poll exactly if the
      deciding answer for its pod agrees with it, or the pod was known and did not answer. */
  lemma {:induction false} SwapDecides(views: seq<PodModels>, now: PodModels, pods: seq<ListedPod>,
                                       ip: string, model: string)
    requires |views| == |pods| && forall v :: v in views ==> v.Keys <= now.Keys
    ensures ip in Holders(Swapped(views, now, pods), model) <==> SurvivesSwap(views, now, pods, ip, model)
  {
    if pods != [] {
      var last := |pods| - 1;
      var v, init := views[..last], pods[..last];
      SwapDecides(v, now, init, ip, model);
      if pods[last].ip == ip && Stores(views[last], pods[last]) {
        assert DecidesAmid(views, pods, last);
      } else {
        forall i: nat | i < last && pods[i].ip == ip
          ensures DecidesAmid(views, pods, i) <==> DecidesAmid(v, init, i)
        {
          assert pods[..last][i] == pods[i] && views[..last][i] == views[i];
        }
      }
    }
  }

  /** With nobody else about, that is the atomic poll. */
  lemma {:induction false} SwappedAlone(prev: PodModels, pods: seq<ListedPod>)
    ensures Swapped(seq(|pods|, _ => prev), prev, pods) == Polled(prev, pods)
  {
    if pods != [] {
      var last := |pods| - 1;
      SwappedAlone(prev, pods[..last]);
      assert seq(|pods|, _ => prev)[..last] == seq(last, _ => prev);
    }
  }
}
