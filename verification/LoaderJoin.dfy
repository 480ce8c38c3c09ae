/** A request that joins somebody else's load, early or late, is the atomic request of RequestSpec with a
    load in flight: however its waits end, it leaves the cache and its tracker mark as `AfterCheck` says. */
module LoaderJoin {
  import opened DedupSpec
  import opened LoadKey
  import LoaderRefinement
  import R = RequestSpec
  import P = LoaderProtocol

  /** Request `t` acts, and the owner `u` of the other load publishes its result. */
  ghost predicate OnlyJoin(actions: seq<P.Action>, t: P.Tid, u: P.Tid)
  {
    forall a :: a in actions ==> a.Advance? && (a.tid == t || a == P.Advance(u, P.Go))
  }

  lemma Act(s: P.State, mid: P.State, actions: seq<P.Action>, t: P.Tid, u: P.Tid, a: P.Action)
    returns (next: P.State, longer: seq<P.Action>)
    requires mid == P.Run(s, actions) && OnlyJoin(actions, t, u)
    requires a.Advance? && a.tid in mid.pcs && (a.tid == t || a == P.Advance(u, P.Go))
    ensures next == P.Step(mid, a.tid, a.oracle) && next == P.Run(s, longer) && OnlyJoin(longer, t, u)
  {
    next := P.Step(mid, a.tid, a.oracle);
    longer := P.Followed(s, mid, next, actions, a);
  }

  /** A result is there, and says what the wait is to hear. */
  predicate Publishes(s: P.State, r: P.Rid, wait: R.Wait)
  {
    wait.Published? ==> r < |s.results| && s.results[r].closes > 0 && (s.results[r].err.Some? <==> wait.failed)
  }

  /** Its owner is about to publish that. */
  predicate WillPublish(s: P.State, u: P.Tid, k: P.Key, r: P.Rid, wait: R.Wait)
  {
    && u in s.pcs && s.pcs[u].Closing? && s.pcs[u].key == k && s.pcs[u].rid == r && r < |s.results|
    && (wait.Published? ==> (s.pcs[u].err.Some? <==> wait.failed))
  }

  function WaitOracle(wait: R.Wait): P.Oracle
  {
    if wait.Cancelled? then P.Cancel else P.Go
  }

  /** The early wait ends: the request is over, or asks the pod. */
  lemma EarlyEnds(s: P.State, t: P.Tid, k: P.Key, r: P.Rid, wait: R.Wait)
    requires t in s.pcs && s.pcs[t] == P.EarlyWaiting(k, r) && Publishes(s, r, wait)
    ensures var s' := P.Step(s, t, WaitOracle(wait));
            && s'.pcs == s.pcs[t := s'.pcs[t]] && s'.results == s.results && s'.loading == s.loading
            && s'.cached == s.cached && s'.marks == s.marks && s'.actual == s.actual
            && s'.pcs[t] == match wait {
                 case Cancelled => P.Finished(k, P.GaveUp)
                 case Published(failed) => if failed then P.Querying(k) else P.Finished(k, P.Joined(r))
               }
  {
  }

  /** The owner publishes: nothing of the cache or the marks changes. */
  lemma OwnerPublishes(s: P.State, u: P.Tid, k: P.Key, r: P.Rid, wait: R.Wait)
    requires WillPublish(s, u, k, r, wait)
    ensures var s' := P.Step(s, u, P.Go);
            && Publishes(s', r, wait) && u in s'.pcs && s'.pcs == s.pcs[u := s'.pcs[u]]
            && s'.cached == s.cached && s'.marks == s.marks && s'.actual == s.actual
  {
  }

  /** The late wait ends: the request is over, or retracts. */
  lemma LateEnds(s: P.State, t: P.Tid, k: P.Key, r: P.Rid, wait: R.Wait)
    requires t in s.pcs && s.pcs[t] == P.LateWaiting(k, r) && Publishes(s, r, wait)
    ensures var s' := P.Step(s, t, WaitOracle(wait));
            && t in s'.pcs && s'.cached == s.cached && s'.marks == s.marks
            && s'.pcs[t] == match wait {
                 case Cancelled => P.Unmarking(k, P.GaveUp)
                 case Published(failed) => if failed then P.Unmarking(k, P.Failed(r)) else P.Finished(k, P.Joined(r))
               }
  {
  }

  /** From the late wait to the end. */
  lemma FromLateWait(s: P.State, mid: P.State, actions: seq<P.Action>, t: P.Tid, u: P.Tid, k: P.Key, wait: R.Wait)
    returns (end: P.State, longer: seq<P.Action>)
    requires mid == P.Run(s, actions) && OnlyJoin(actions, t, u) && t != u
    requires t in mid.pcs && mid.pcs[t].LateWaiting? && mid.pcs[t].key == k
    requires WillPublish(mid, u, k, mid.pcs[t].rid, wait)
    ensures end == P.Run(s, longer) && OnlyJoin(longer, t, u) && t in end.pcs && end.pcs[t].Finished?
    ensures wait == R.Published(false) ==> end.cached == mid.cached && end.marks == mid.marks
    ensures wait != R.Published(false) ==> end.cached == mid.cached - {k} && end.marks == mid.marks - {k}
  {
    var r := mid.pcs[t].rid;
    end, longer := mid, actions;
    if wait.Published? {
      OwnerPublishes(mid, u, k, r, wait);
      end, longer := Act(s, end, longer, t, u, P.Advance(u, P.Go));
    }
    LateEnds(end, t, k, r, wait);
    end, longer := Act(s, end, longer, t, u, P.Advance(t, WaitOracle(wait)));
    if wait != R.Published(false) { end, longer := TakesBack(s, end, longer, t, u, k); }
  }

  lemma TakesBack(s: P.State, mid: P.State, actions: seq<P.Action>, t: P.Tid, u: P.Tid, k: P.Key)
    returns (end: P.State, longer: seq<P.Action>)
    requires mid == P.Run(s, actions) && OnlyJoin(actions, t, u)
    requires t in mid.pcs && mid.pcs[t].Unmarking? && mid.pcs[t].key == k
    ensures end == P.Run(s, longer) && OnlyJoin(longer, t, u) && t in end.pcs && end.pcs[t].Finished?
    ensures end.cached == mid.cached - {k} && end.marks == mid.marks - {k}
  {
    end, longer := Act(s, mid, actions, t, u, P.Advance(t, P.Go));
    end, longer := Act(s, end, longer, t, u, P.Advance(t, P.Go));
  }

  /** From asking the pod to the end ... */
  lemma FromWarmAnswer(s: P.State, mid: P.State, actions: seq<P.Action>, t: P.Tid, u: P.Tid, k: P.Key)
    returns (next: P.State, longer: seq<P.Action>)
    requires mid == P.Run(s, actions) && OnlyJoin(actions, t, u)
    requires t in mid.pcs && mid.pcs[t] == P.Querying(k) && k in mid.actual
    ensures next == P.Run(s, longer) && OnlyJoin(longer, t, u) && t in next.pcs && next.pcs[t].Finished?
    ensures next.cached == mid.cached + {k} && next.marks == mid.marks + {k}
  {
    next, longer := Act(s, mid, actions, t, u, P.Advance(t, P.Answer(true)));
    next, longer := Act(s, next, longer, t, u, P.Advance(t, P.Go));
    next, longer := Act(s, next, longer, t, u, P.Advance(t, P.Go));
  }

  lemma ColdAnswer(s: P.State, t: P.Tid, k: P.Key)
    requires t in s.pcs && s.pcs[t] == P.Querying(k)
    ensures P.Step(s, t, P.Answer(false)) == s.(pcs := s.pcs[t := P.MarkingCold(k)])
  {
  }

  lemma MarksAndJoins(s: P.State, t: P.Tid, k: P.Key)
    requires t in s.pcs && s.pcs[t] == P.MarkingCold(k) && k in s.loading
    ensures var s' := P.Step(s, t, P.Go);
            && s' == s.(pcs := s.pcs[t := P.Entering(k)], marks := s.marks + {k})
            && P.Step(s', t, P.Go) == s'.(pcs := s'.pcs[t := P.LateWaiting(k, s.loading[k])])
  {
  }

  /** ... or to the late wait. */
  lemma FromColdAnswer(s: P.State, mid: P.State, actions: seq<P.Action>, t: P.Tid, u: P.Tid, k: P.Key)
    returns (next: P.State, longer: seq<P.Action>)
    requires mid == P.Run(s, actions) && OnlyJoin(actions, t, u)
    requires t in mid.pcs && mid.pcs[t] == P.Querying(k) && k in mid.loading
    ensures next == P.Run(s, longer) && OnlyJoin(longer, t, u)
    ensures t in next.pcs && next.pcs[t] == P.LateWaiting(k, mid.loading[k]) && next.pcs == mid.pcs[t := next.pcs[t]]
    ensures next.cached == mid.cached && next.marks == mid.marks + {k} && next.results == mid.results
  {
    ColdAnswer(mid, t, k);
    next, longer := Act(s, mid, actions, t, u, P.Advance(t, P.Answer(false)));
    MarksAndJoins(next, t, k);
    next, longer := Act(s, next, longer, t, u, P.Advance(t, P.Go));
    next, longer := Act(s, next, longer, t, u, P.Advance(t, P.Go));
  }

  /** A request that finds a load in flight, and no cache entry, waits for it; nothing else happens. */
  lemma JoinsInTwoSteps(s: P.State, t: P.Tid, k: P.Key)
    requires t !in s.pcs && k !in s.cached && k in s.loading
    ensures P.Apply(P.Apply(s, P.Arrive(t, k)), P.Advance(t, P.Go)) ==
            s.(pcs := s.pcs[t := P.EarlyWaiting(k, s.loading[k])])
  {
    var mid := P.Apply(s, P.Arrive(t, k));
    assert mid.pcs[t] == P.Checking(k);
    assert mid.pcs[t := P.EarlyWaiting(k, s.loading[k])] == s.pcs[t := P.EarlyWaiting(k, s.loading[k])];
  }

  /** `AfterCheck` with a load in flight, read off case by case: over after a success or a cancellation; a failed
      load is tried again, by asking the pod and then by waiting for whoever loads it now. */
  lemma JoinEffect(tracker: TrackerState, cache: set<string>, podIP: string, model: string, env: R.RequestEnv)
    requires podIP != "" && model != "" && LoaderRefinement.RoutedByIP(tracker, podIP)
    ensures var k := FlatKey(podIP, model);
            var after := R.AfterCheck(R.Replica(tracker, cache), true, podIP, model, env);
            if env.early == R.Cancelled || env.early == R.Published(false) then
              after == R.Replica(tracker, cache)
            else if R.AnsweredWarm(env, model) then
              after.cache == cache + {k} && LoaderRefinement.Marked(after.tracker, podIP, model)
            else if env.late == R.Published(false) then
              after.cache == cache && LoaderRefinement.Marked(after.tracker, podIP, model)
            else after.cache == cache - {k} && !LoaderRefinement.Marked(after.tracker, podIP, model)
  {
  }

  /** From any state in which `t` waits early for a load that has ended as `env.early` says, or is cancelled,
      while request `u` is about to end the load now in flight as `env.late` says: for every way the waits
      and the query end, `t` finishes with the cache and the mark of the atomic request. */
  lemma {:induction false} JoinedIsAtomic(s: P.State, t: P.Tid, u: P.Tid, tracker: TrackerState,
                                          podIP: string, model: string, env: R.RequestEnv)
    returns (actions: seq<P.Action>, end: P.State)
    requires podIP != "" && model != "" && LoaderRefinement.RoutedByIP(tracker, podIP)
    requires var k := FlatKey(podIP, model);
             && t in s.pcs && s.pcs[t].EarlyWaiting? && s.pcs[t].key == k && Publishes(s, s.pcs[t].rid, env.early)
             && k in s.loading && t != u && WillPublish(s, u, k, s.loading[k], env.late)
             && (k in s.marks <==> LoaderRefinement.Marked(tracker, podIP, model))
             && (R.AnsweredWarm(env, model) ==> k in s.actual)
    ensures end == P.Run(s, actions) && OnlyJoin(actions, t, u) && t in end.pcs && end.pcs[t].Finished?
    ensures var k := FlatKey(podIP, model);
            var after := R.AfterCheck(R.Replica(tracker, s.cached), true, podIP, model, env);
            && end.cached == after.cache
            && (k in end.marks <==> LoaderRefinement.Marked(after.tracker, podIP, model))
            && end.marks - {k} == s.marks - {k}
  {
    var k := FlatKey(podIP, model);
    JoinEffect(tracker, s.cached, podIP, model, env);
    EarlyEnds(s, t, k, s.pcs[t].rid, env.early);
    end, actions := Act(s, s, [], t, u, P.Advance(t, WaitOracle(env.early)));
    if env.early == R.Published(true) {
      if R.AnsweredWarm(env, model) {
        end, actions := FromWarmAnswer(s, end, actions, t, u, k);
      } else {
        end, actions := FromColdAnswer(s, end, actions, t, u, k);
        end, actions := FromLateWait(s, end, actions, t, u, k, env.late);
      }
    }
  }
}
