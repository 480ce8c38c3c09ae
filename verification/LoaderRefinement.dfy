/** The atomic request of RequestSpec is the loader protocol with nobody else moving: a request that
    runs alone to its end leaves the cache and its tracker mark as `Request` says. */
module LoaderRefinement {
  import opened Wrappers
  import opened DedupSpec
  import opened LoadKey
  import R = RequestSpec
  import P = LoaderProtocol

  lemma Do(s: P.State, mid: P.State, actions: seq<P.Action>, t: P.Tid, k: P.Key, o: P.Oracle)
    returns (next: P.State, longer: seq<P.Action>)
    requires mid == P.Run(s, actions) && t in mid.pcs && OnlyBy(actions, t, k)
    ensures next == P.Step(mid, t, o) && next == P.Run(s, longer) && OnlyBy(longer, t, k)
  {
    next := P.Step(mid, t, o);
    longer := P.Followed(s, mid, next, actions, P.Advance(t, o));
  }

  /** Nobody acts but request `t` and the pod loading the model. */
  ghost predicate OnlyBy(actions: seq<P.Action>, t: P.Tid, k: P.Key)
  {
    forall a :: a in actions ==> a == P.Warmed(k) || ((a.Arrive? || a.Advance?) && a.tid == t)
  }

  /** A request that has just marked the tracker and is alone: its load works. */
  lemma LoadWorks(s: P.State, mid: P.State, actions: seq<P.Action>, t: P.Tid, k: P.Key)
    returns (end: P.State, longer: seq<P.Action>)
    requires mid == P.Run(s, actions) && OnlyBy(actions, t, k)
    requires t in mid.pcs && mid.pcs[t] == P.Entering(k) && k !in mid.loading
    ensures end == P.Run(s, longer) && OnlyBy(longer, t, k) && t in end.pcs && end.pcs[t].Finished?
    ensures end.cached == mid.cached + {k} && end.marks == mid.marks && end.loading == mid.loading
    ensures end.actual == mid.actual + {k}
  {
    var r := |mid.results|;
    var s1, a1 := Do(s, mid, actions, t, k, P.Go);
    var s2, a2 := Do(s, s1, a1, t, k, P.Accepted);
    assert s2.pcs[t] == P.Polling(k, r) && s2.cached == mid.cached && s2.marks == mid.marks;
    assert s2.loading == mid.loading[k := r] && |s2.results| == r + 1;
    var s3, a3 := Confirm(s, s2, a2, t, k, r);
    end, longer := RecordAndClose(s, s3, a3, t, k, r);
    assert mid.loading[k := r] - {k} == mid.loading;
  }

  /** The pod finishes loading and says so. */
  lemma Confirm(s: P.State, mid: P.State, actions: seq<P.Action>, t: P.Tid, k: P.Key, r: P.Rid)
    returns (next: P.State, longer: seq<P.Action>)
    requires mid == P.Run(s, actions) && OnlyBy(actions, t, k)
    requires t in mid.pcs && mid.pcs[t] == P.Polling(k, r) && r < |mid.results|
    ensures next == P.Run(s, longer) && OnlyBy(longer, t, k) && t in next.pcs && next.pcs[t] == P.Recording(k, r)
    ensures next.cached == mid.cached && next.marks == mid.marks && next.loading == mid.loading
    ensures next.actual == mid.actual + {k} && |next.results| == |mid.results|
  {
    next := P.Apply(mid, P.Warmed(k));
    longer := P.Followed(s, mid, next, actions, P.Warmed(k));
    next, longer := Do(s, next, longer, t, k, P.Answer(true));
  }

  lemma RecordAndClose(s: P.State, mid: P.State, actions: seq<P.Action>, t: P.Tid, k: P.Key, r: P.Rid)
    returns (end: P.State, longer: seq<P.Action>)
    requires mid == P.Run(s, actions) && OnlyBy(actions, t, k)
    requires t in mid.pcs && mid.pcs[t] == P.Recording(k, r) && r < |mid.results|
    ensures end == P.Run(s, longer) && OnlyBy(longer, t, k) && t in end.pcs && end.pcs[t].Finished?
    ensures end.cached == mid.cached + {k} && end.marks == mid.marks && end.loading == mid.loading - {k}
    ensures end.actual == mid.actual
  {
    var s1, a1 := Do(s, mid, actions, t, k, P.Go);
    assert s1.pcs[t] == P.Closing(k, r, None) && |s1.results| == |mid.results|;
    end, longer := Do(s, s1, a1, t, k, P.Go);
  }

  /** ... or does not. */
  lemma LoadFails(s: P.State, mid: P.State, actions: seq<P.Action>, t: P.Tid, k: P.Key)
    returns (end: P.State, longer: seq<P.Action>)
    requires mid == P.Run(s, actions) && OnlyBy(actions, t, k)
    requires t in mid.pcs && mid.pcs[t] == P.Entering(k) && k !in mid.loading
    ensures end == P.Run(s, longer) && OnlyBy(longer, t, k) && t in end.pcs && end.pcs[t].Finished?
    ensures end.cached == mid.cached - {k} && end.marks == mid.marks - {k} && end.loading == mid.loading
    ensures end.actual == mid.actual
  {
    var r := |mid.results|;
    var s1, a1 := Do(s, mid, actions, t, k, P.Go);
    var s2, a2 := Do(s, s1, a1, t, k, P.Broken(""));
    assert s2.pcs[t] == P.Closing(k, r, Some("")) && |s2.results| == r + 1 && s2.loading == mid.loading[k := r];
    var s3, a3 := Do(s, s2, a2, t, k, P.Go);
    assert s3.pcs[t] == P.Unmarking(k, P.Failed(r)) && s3.loading == mid.loading[k := r] - {k} == mid.loading;
    assert s3.cached == mid.cached && s3.marks == mid.marks && s3.actual == mid.actual;
    end, longer := Retract(s, s3, a3, t, k);
  }

  lemma Retract(s: P.State, mid: P.State, actions: seq<P.Action>, t: P.Tid, k: P.Key)
    returns (end: P.State, longer: seq<P.Action>)
    requires mid == P.Run(s, actions) && OnlyBy(actions, t, k)
    requires t in mid.pcs && mid.pcs[t].Unmarking? && mid.pcs[t].key == k
    ensures end == P.Run(s, longer) && OnlyBy(longer, t, k) && t in end.pcs && end.pcs[t].Finished?
    ensures end.cached == mid.cached - {k} && end.marks == mid.marks - {k} && end.loading == mid.loading
    ensures end.actual == mid.actual
  {
    var s1, a1 := Do(s, mid, actions, t, k, P.Go);
    end, longer := Do(s, s1, a1, t, k, P.Go);
  }

  /** The pod answers, warm or not. */
  lemma Query(s: P.State, mid: P.State, actions: seq<P.Action>, t: P.Tid, k: P.Key, warm: bool)
    returns (next: P.State, longer: seq<P.Action>)
    requires mid == P.Run(s, actions) && OnlyBy(actions, t, k)
    requires t in mid.pcs && mid.pcs[t] == P.Querying(k) && (warm ==> k in mid.actual)
    ensures next == P.Run(s, longer) && OnlyBy(longer, t, k) && t in next.pcs
    ensures next.pcs[t] == if warm then P.Finished(k, P.Warm) else P.Entering(k)
    ensures next.cached == mid.cached + (if warm then {k} else {}) && next.marks == mid.marks + {k}
    ensures next.loading == mid.loading && next.actual == mid.actual
  {
    var s1, a1 := Do(s, mid, actions, t, k, P.Answer(warm));
    next, longer := Do(s, s1, a1, t, k, P.Go);
    if warm {
      next, longer := Do(s, next, longer, t, k, P.Go);
    }
  }

  /** It arrives and looks at the two maps. */
  lemma Check(s: P.State, t: P.Tid, k: P.Key)
    returns (next: P.State, longer: seq<P.Action>)
    requires t !in s.pcs && k !in s.loading
    ensures next == P.Run(s, longer) && OnlyBy(longer, t, k) && t in next.pcs
    ensures next.pcs[t] == if k in s.cached then P.Finished(k, P.Warm) else P.Querying(k)
    ensures next.cached == s.cached && next.marks == s.marks + (if k in s.cached then {k} else {})
    ensures next.loading == s.loading && next.actual == s.actual
  {
    var s0 := P.Apply(s, P.Arrive(t, k));
    var a0 := P.Followed(s, s, s0, [], P.Arrive(t, k));
    next, longer := Do(s, s0, a0, t, k, P.Go);
    if k in s.cached {
      next, longer := Do(s, next, longer, t, k, P.Go);
    }
  }

  /** The tracker routes the pod by its own key, as every poll leaves it. */
  predicate RoutedByIP(tracker: TrackerState, podIP: string)
  {
    podIP in tracker.podIP ==> tracker.podIP[podIP] == podIP || tracker.podIP[podIP] == ""
  }

  ghost predicate Marked(tracker: TrackerState, podIP: string, model: string)
  {
    podIP in Holders(tracker.loaded, model)
  }

  /** A request without a model or without a pod does nothing. */
  lemma EmptyNamesDoNothing(s: R.Replica, inFlight: bool, podIP: string, model: string, env: R.RequestEnv)
    requires podIP == "" || model == ""
    ensures R.Request(s, inFlight, podIP, model, env) == s
  {
  }

  /** `Request`, read off case by case. */
  lemma RequestEffect(tracker: TrackerState, cache: set<string>, podIP: string, model: string, env: R.RequestEnv)
    requires podIP != "" && model != "" && RoutedByIP(tracker, podIP)
    ensures var k := FlatKey(podIP, model);
            var after := R.Request(R.Replica(tracker, cache), false, podIP, model, env);
            if k in cache then after.cache == cache && Marked(after.tracker, podIP, model)
            else if R.AnsweredWarm(env, model) || env.loads then
              after.cache == cache + {k} && Marked(after.tracker, podIP, model)
            else after.cache == cache && !Marked(after.tracker, podIP, model)
  {
  }

  /** From any state in which nobody is loading the pair, for any outcome (a warm answer only from a pod
      that has the model): the request run alone ends, with the cache of `Request`, with its mark where
      `Request` has the copy, its load on the pod if there was one, and nothing else changed. */
  lemma AloneIsAtomic(s: P.State, t: P.Tid, tracker: TrackerState, podIP: string, model: string,
                      env: R.RequestEnv)
    returns (actions: seq<P.Action>, end: P.State)
    requires podIP != "" && model != "" && RoutedByIP(tracker, podIP)
    requires t !in s.pcs && FlatKey(podIP, model) !in s.loading
    requires FlatKey(podIP, model) in s.marks <==> Marked(tracker, podIP, model)
    requires R.AnsweredWarm(env, model) ==> FlatKey(podIP, model) in s.actual
    ensures end == P.Run(s, actions) && OnlyBy(actions, t, FlatKey(podIP, model))
    ensures t in end.pcs && end.pcs[t].Finished?
    ensures var k := FlatKey(podIP, model);
            var after := R.Request(R.Replica(tracker, s.cached), false, podIP, model, env);
            && end.cached == after.cache
            && (k in end.marks <==> Marked(after.tracker, podIP, model))
            && end.marks - {k} == s.marks - {k} && end.loading == s.loading
            && end.actual == s.actual + (if k !in s.cached && env.loads && !R.AnsweredWarm(env, model) then {k} else {})
  {
    var k := FlatKey(podIP, model);
    RequestEffect(tracker, s.cached, podIP, model, env);
    end, actions := Check(s, t, k);
    if k !in s.cached {
      end, actions := Query(s, end, actions, t, k, R.AnsweredWarm(env, model));
      if !R.AnsweredWarm(env, model) {
        if env.loads {
          end, actions := LoadWorks(s, end, actions, t, k);
        } else {
          end, actions := LoadFails(s, end, actions, t, k);
        }
      }
    }
  }
}
