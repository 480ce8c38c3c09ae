/** Requests, polls and dedup passes of one replica as atomic steps: what the filter and the
    tracker's marks achieve together, and when the loader's cache can be trusted. */
module Scheduling {
  import opened Wrappers
  import opened DedupSpec
  import opened PollSpec
  import opened LoadKey
  import opened RequestSpec
  import opened FilterSpec

  // ----- Redundant cold loads -----

  datatype Step =
    | Decide(model: string, pods: seq<Pod>, pick: nat, request: RequestEnv)
    | Dedup(env: PassEnv)

  ghost function TakeStep(s: Replica, grace: int, step: Step): Replica
  {
    match step
    case Decide(model, pods, pick, request) =>
      var out := Filtered(s.tracker, model, pods);
      if pick >= |out| || out[pick].address.None? then s
      else Request(s, false, out[pick].address.value, model, request)
    case Dedup(env) => PassAndNotify(s, grace, env)
  }

  ghost function TakeSteps(s: Replica, grace: int, steps: seq<Step>): Replica
  {
    if steps == [] then s
    else TakeStep(TakeSteps(s, grace, steps[..|steps| - 1]), grace, steps[|steps| - 1])
  }

  /** Every pod the tracker believes to hold the model is among the candidates. */
  ghost predicate Covers(t: TrackerState, model: string, pods: seq<Pod>)
  {
    forall h :: h in Holders(t.loaded, model) ==> exists p :: p in pods && p.address == Some(h)
  }

  /** The tracker never holds anything before it was first written. */
  predicate Seeded(t: TrackerState)
  {
    t.loaded != map[] ==> t.firstPoll
  }

  ghost predicate AtMost(t: TrackerState, model: string, bound: nat)
  {
    |Holders(t.loaded, model)| <= bound
  }

  /** A request leaves the tracker alone, or marks its own copy, or marks and unmarks it. */
  lemma RequestMarks(s: Replica, podIP: string, model: string, request: RequestEnv)
    ensures var t := Request(s, false, podIP, model, request).tracker;
            || t == s.tracker
            || t == MarkLoaded(s.tracker, podIP, model)
            || t == MarkUnloaded(MarkLoaded(s.tracker, podIP, model), podIP, model)
    ensures model == "" ==> Request(s, false, podIP, model, request) == s
  {
  }

  lemma MarkedHolders(t: TrackerState, podIP: string, model: string, other: string)
    ensures var t1 := MarkLoaded(t, podIP, model);
            && Holders(t1.loaded, other) <= Holders(t.loaded, other) + (if other == model then {podIP} else {})
            && Holders(MarkUnloaded(t1, podIP, model).loaded, other) <= Holders(t1.loaded, other)
            && (Seeded(t) ==> Seeded(t1) && Seeded(MarkUnloaded(t1, podIP, model)))
  {
  }

  /** While the model is warm anywhere on offer, whatever is picked is warm. */
  lemma PickIsHolder(t: TrackerState, model: string, pods: seq<Pod>, pick: nat)
    requires Seeded(t) && Covers(t, model, pods) && model != "" && Holders(t.loaded, model) != {}
    requires pick < |Filtered(t, model, pods)|
    ensures IsWarm(t, model, Filtered(t, model, pods)[pick])
  {
    var h :| h in Holders(t.loaded, model);
    var c :| c in pods && c.address == Some(h);
    assert IsWarm(t, model, c);
    var idx := FilterContract(t, model, pods);
    assert idx[pick] in idx;
  }

  lemma DecisionAddsNoCopy(s: Replica, grace: int, step: Step, model: string)
    requires step.Decide? && Seeded(s.tracker) && Covers(s.tracker, step.model, step.pods)
    ensures var after := TakeStep(s, grace, step).tracker;
            && Seeded(after)
            && (AtMost(after, model, 1) || Holders(after.loaded, model) <= Holders(s.tracker.loaded, model))
  {
    var t := s.tracker;
    var out := Filtered(t, step.model, step.pods);
    var after := TakeStep(s, grace, step).tracker;
    if step.pick < |out| && out[step.pick].address.Some? {
      var p := out[step.pick].address.value;
      RequestMarks(s, p, step.model, step.request);
      MarkedHolders(t, p, step.model, model);
      if step.model == model && model != "" {
        if Holders(t.loaded, model) == {} {
          assert Holders(after.loaded, model) <= {p};
          SubsetSize(Holders(after.loaded, model), {p});
        } else {
          PickIsHolder(t, model, step.pods, step.pick);
        }
      }
    }
  }

  /** Redundant cold loads are prevented: over any run of decisions, each offered every current
      holder, with any picks, request outcomes and dedup passes between them, no model's holder
      count rises above one or its starting count. */
  lemma {:induction false} NoRedundantLoads(s: Replica, grace: int, steps: seq<Step>, model: string)
    requires Seeded(s.tracker)
    requires forall i :: 0 <= i < |steps| && steps[i].Decide? ==>
               Covers(TakeSteps(s, grace, steps[..i]).tracker, steps[i].model, steps[i].pods)
    ensures var n := |Holders(s.tracker.loaded, model)|;
            AtMost(TakeSteps(s, grace, steps).tracker, model, if n > 1 then n else 1)
    ensures Seeded(TakeSteps(s, grace, steps).tracker)
  {
    if steps != [] {
      var init, step := steps[..|steps| - 1], steps[|steps| - 1];
      forall i | 0 <= i < |init| && init[i].Decide?
        ensures Covers(TakeSteps(s, grace, init[..i]).tracker, init[i].model, init[i].pods)
      {
        assert init[..i] == steps[..i];
      }
      NoRedundantLoads(s, grace, init, model);
      var mid := TakeSteps(s, grace, init);
      if step.Decide? {
        DecisionAddsNoCopy(mid, grace, step, model);
        HoldersBound(mid, grace, step, model);
      } else {
        PassCopies(mid.tracker, grace, step.env);
        if Holders(mid.tracker.loaded, model) != {} {
          PassKeepsLastCopy(mid.tracker, grace, step.env, model);
        }
        HoldersOfCopies(mid.tracker.loaded, model);
        HoldersOfCopies(Pass(mid.tracker, grace, step.env).loaded, model);
        HoldersBound(mid, grace, step, model);
      }
    }
  }

  lemma HoldersBound(mid: Replica, grace: int, step: Step, model: string)
    ensures Holders(TakeStep(mid, grace, step).tracker.loaded, model) <= Holders(mid.tracker.loaded, model) ==>
            |Holders(TakeStep(mid, grace, step).tracker.loaded, model)| <= |Holders(mid.tracker.loaded, model)|
  {
    if Holders(TakeStep(mid, grace, step).tracker.loaded, model) <= Holders(mid.tracker.loaded, model) {
      SubsetSize(Holders(TakeStep(mid, grace, step).tracker.loaded, model), Holders(mid.tracker.loaded, model));
    }
  }

  // ----- The loader's cache and the truth -----

  /** A replica beside what the pods really have loaded, by pod IP. */
  datatype World = World(replica: Replica, actual: set<Copy>)

  datatype Event =
    | Serve(podIP: string, model: string, request: RequestEnv, leftover: bool)
    | Listed(pods: seq<ListedPod>)
    | Reclaim(env: PassEnv)
    | Lost(copy: Copy)              // a pod loses a model by itself, say by a restart

  /** The request gets as far as loading the model itself. */
  ghost predicate Loads(s: Replica, podIP: string, model: string, request: RequestEnv)
  {
    podIP != "" && model != "" && FlatKey(podIP, model) !in s.cache && !AnsweredWarm(request, model)
  }

  /** One atomic step. A load that does not end well may or may not leave the model on the pod. */
  ghost function Next(w: World, grace: int, e: Event): World
  {
    match e
    case Serve(podIP, model, request, leftover) =>
      World(Request(w.replica, false, podIP, model, request),
            if Loads(w.replica, podIP, model, request) && (request.loads || leftover) then
              w.actual + {Copy(podIP, model)}
            else w.actual)
    case Listed(pods) => w.(replica := w.replica.(tracker := Refresh(w.replica.tracker, pods)))
    case Reclaim(env) =>
      World(PassAndNotify(w.replica, grace, env),
            match Target(w.replica.tracker, grace, env)
            case None => w.actual
            case Some(c) =>
              if c.pod in w.replica.tracker.podIP then
                w.actual - {Copy(w.replica.tracker.podIP[c.pod], c.model)}
              else w.actual)
    case Lost(c) => w.(actual := w.actual - {c})
  }

  /** Requests concern only the pairs in use, a pod that answers warm is warm, and a pod loses a model
      only by a successful dedup unload. */
  ghost predicate Honest(w: World, e: Event, pairs: iset<Copy>)
  {
    && !e.Lost?
    && (e.Serve? ==>
          && Copy(e.podIP, e.model) in pairs
          && (AnsweredWarm(e.request, e.model) ==> Copy(e.podIP, e.model) in w.actual))
  }

  ghost function Worlds(w: World, grace: int, events: seq<Event>): World
  {
    if events == [] then w
    else Next(Worlds(w, grace, events[..|events| - 1]), grace, events[|events| - 1])
  }

  lemma {:induction false} WorldsAppend(w: World, grace: int, events: seq<Event>, e: Event)
    ensures Worlds(w, grace, events + [e]) == Next(Worlds(w, grace, events), grace, e)
  {
    assert (events + [e])[..|events|] == events;
  }

  ghost predicate AllHonest(w: World, grace: int, events: seq<Event>, pairs: iset<Copy>)
  {
    forall i :: 0 <= i < |events| ==> Honest(Worlds(w, grace, events[..i]), events[i], pairs)
  }

  ghost predicate KeysDistinct(pairs: iset<Copy>)
  {
    forall a, b :: a in pairs && b in pairs && FlatKey(a.pod, a.model) == FlatKey(b.pod, b.model) ==> a == b
  }

  /** Every cache entry stands for a named copy in use that is really there. */
  ghost predicate Backed(w: World, pairs: iset<Copy>)
  {
    forall k :: k in w.replica.cache ==>
      exists c :: c in pairs && c in w.actual && c.model != "" && FlatKey(c.pod, c.model) == k
  }

  /** The short-circuit never hits for a copy that is not there. */
  ghost predicate Coherent(w: World, pairs: iset<Copy>)
  {
    forall c :: c in pairs && FlatKey(c.pod, c.model) in w.replica.cache ==> c in w.actual
  }

  lemma NextBacked(w: World, grace: int, e: Event, pairs: iset<Copy>)
    requires Backed(w, pairs) && Honest(w, e, pairs)
    ensures Backed(Next(w, grace, e), pairs)
  {
    var w' := Next(w, grace, e);
    forall k | k in w'.replica.cache
      ensures exists c :: c in pairs && c in w'.actual && c.model != "" && FlatKey(c.pod, c.model) == k
    {
      if k in w.replica.cache {
        var c :| c in pairs && c in w.actual && c.model != "" && FlatKey(c.pod, c.model) == k;
        assert c in w'.actual;
      } else {
        assert e.Serve? && k == FlatKey(e.podIP, e.model);
        assert Copy(e.podIP, e.model) in w'.actual;
      }
    }
  }

  lemma {:induction false} RunsBacked(w: World, grace: int, events: seq<Event>, pairs: iset<Copy>)
    requires w.replica.cache == {} && AllHonest(w, grace, events, pairs)
    ensures Backed(Worlds(w, grace, events), pairs)
  {
    if events != [] {
      var init := events[..|events| - 1];
      assert forall i :: 0 <= i < |init| ==> init[..i] == events[..i];
      RunsBacked(w, grace, init, pairs);
      NextBacked(Worlds(w, grace, init), grace, events[|events| - 1], pairs);
    }
  }

  /** Cache coherence: from an empty cache, whatever requests, polls and passes follow, an entry for a
      pair in use means that the pod really has the model - provided no two pairs in use share a flat
      key. */
  lemma {:induction false} CacheCoherent(w: World, grace: int, events: seq<Event>, pairs: iset<Copy>)
    requires w.replica.cache == {} && AllHonest(w, grace, events, pairs)
    requires KeysDistinct(pairs)
    ensures Coherent(Worlds(w, grace, events), pairs)
  {
    RunsBacked(w, grace, events, pairs);
  }

  /** And only then: two pairs in use that share a key give a run into a cold backend. */
  lemma {:induction false} CacheIncoherent(grace: int, pairs: iset<Copy>, a: Copy, b: Copy)
    requires a in pairs && b in pairs && a != b && FlatKey(a.pod, a.model) == FlatKey(b.pod, b.model)
    requires a.pod != "" && a.model != ""
    ensures exists events :: var w := World(Replica(FRESH, {}), {});
              AllHonest(w, grace, events, pairs) && !Coherent(Worlds(w, grace, events), pairs)
  {
    var w := World(Replica(FRESH, {}), {});
    var e := Serve(a.pod, a.model, RequestEnv(Cancelled, None, Cancelled, true), false);
    assert [e][..0] == [];
    assert Honest(Worlds(w, grace, [e][..0]), e, pairs);
    var end := Worlds(w, grace, [e]);
    assert end == Next(w, grace, e);
    assert FlatKey(b.pod, b.model) in end.replica.cache && b !in end.actual;
    assert AllHonest(w, grace, [e], pairs) && !Coherent(end, pairs);
  }

  /** IPv4 pods are safe whatever the models are called; IPv6 pods are not. */
  lemma ColonFreePodsAreSafe()
    ensures KeysDistinct(iset c: Copy | ColonFree(c.pod))
    ensures !KeysDistinct(iset{Copy("fd00::1", "2:m"), Copy("fd00::1:2", "m")})
  {
    forall a: Copy, b: Copy | ColonFree(a.pod) && ColonFree(b.pod) && FlatKey(a.pod, a.model) == FlatKey(b.pod, b.model)
      ensures a == b
    {
      FlatKeyInjective(a.pod, a.model, b.pod, b.model);
    }
    assert FlatKey("fd00::1", "2:m") == FlatKey("fd00::1:2", "m");
    assert Copy("fd00::1", "2:m") != Copy("fd00::1:2", "m");
  }
}
