/** One dedup pass told without its working parts: over the tracker, the load scores and the answers of
    the unload calls alone, which copy goes, which counters stay, which cache entry is invalidated. */
module PassLaws {
  import opened StringOrder
  import opened Wrappers
  import opened DedupSpec
  import opened RequestSpec

  /** On two pods or more, and sighted for the whole window, this pass included. */
  ghost predicate Ripe(s: TrackerState, grace: int, model: string)
  {
    && (exists p, q :: p != q && p in Holders(s.loaded, model) && q in Holders(s.loaded, model))
    && (if model in s.dupObs then s.dupObs[model] else 0) + 1 >= grace
  }

  /** `pod` has the least load of the holders, the first by name of those that have it. */
  ghost predicate LeastLoaded(s: TrackerState, score: string -> real, pod: string, model: string)
  {
    && pod in Holders(s.loaded, model)
    && (forall p :: p in Holders(s.loaded, model) && p != pod ==>
          score(pod) < score(p) || (score(pod) == score(p) && Less(pod, p)))
  }

  /** The unload call to `pod` for `model` can be made, and is accepted. */
  ghost predicate Accepts(s: TrackerState, env: PassEnv, pod: string, model: string)
  {
    pod != "" && pod in s.podIP && s.podIP[pod] != "" && env.unloads(s.podIP[pod], model)
  }

  /** `model` is ripe, and its least loaded holder, `pod`, accepts. */
  ghost predicate Yields(s: TrackerState, grace: int, env: PassEnv, pod: string, model: string)
  {
    env.pressure.Some? && Ripe(s, grace, model) && LeastLoaded(s, env.pressure.value, pod, model)
    && Accepts(s, env, pod, model)
  }

  /** ... and no model that sorts before it has such a holder. */
  ghost predicate FirstToYield(s: TrackerState, grace: int, env: PassEnv, pod: string, model: string)
  {
    && Yields(s, grace, env, pod, model)
    && (forall p, m :: Yields(s, grace, env, p, m) ==> m == model || Less(model, m))
  }

  lemma TwoHolders(s: TrackerState, model: string)
    ensures model in Duplicates(s.loaded)
       <==> exists p, q :: p != q && p in Holders(s.loaded, model) && q in Holders(s.loaded, model)
  {
    if model in Duplicates(s.loaded) {
      var p :| p in Holders(s.loaded, model);
      DuplicateHasAnother(s.loaded, model, p);
    }
    if p, q :| p != q && p in Holders(s.loaded, model) && q in Holders(s.loaded, model) {
      TwoHoldersDuplicate(s.loaded, model, p, q);
    }
  }

  lemma {:induction false} LoserIsLeastLoaded(s: TrackerState, env: PassEnv, pod: string, model: string)
    requires env.pressure.Some? && model in Duplicates(s.loaded)
    ensures LeastLoaded(s, env.pressure.value, pod, model) <==> pod == Loser(s, env, model)
  {
    var score, holders := env.pressure.value, Holders(s.loaded, model);
    var loser := Loser(s, env, model);
    assert IsMin(loser, holders, score);
    forall p | p in holders && p != loser
      ensures score(loser) < score(p) || (score(loser) == score(p) && Less(loser, p))
    {
      assert Precedes(score, loser, p);
    }
    if LeastLoaded(s, score, pod, model) && pod != loser {
      assert Precedes(score, loser, pod);
      if Less(pod, loser) { LessAsymmetric(pod, loser); }
      assert false;
    }
  }

  lemma {:induction false} YieldsExactly(s: TrackerState, grace: int, env: PassEnv, pod: string, model: string)
    requires env.pressure.Some?
    ensures Yields(s, grace, env, pod, model)
       <==> model in Candidates(s, grace, env) && pod == Loser(s, env, model)
  {
    TwoHolders(s, model);
    if model in Duplicates(s.loaded) { LoserIsLeastLoaded(s, env, pod, model); }
  }

  lemma {:induction false} FirstIsTarget(s: TrackerState, grace: int, env: PassEnv, pod: string, model: string)
    requires Enabled(s, env)
    ensures FirstToYield(s, grace, env, pod, model) <==> Target(s, grace, env) == Some(Copy(pod, model))
  {
    var c := Candidates(s, grace, env);
    forall p, m ensures Yields(s, grace, env, p, m) <==> m in c && p == Loser(s, env, m) {
      YieldsExactly(s, grace, env, p, m);
    }
    if c != {} {
      var w := Min(c, NoRank);
      assert IsMin(w, c, NoRank);
      assert Yields(s, grace, env, Loser(s, env, w), w);
      forall m | m in c ensures m == w || Less(w, m) { assert Precedes(NoRank, w, m); }
      if FirstToYield(s, grace, env, pod, model) && model != w {
        LessAsymmetric(w, model);
        assert false;
      }
    }
  }

  // ----- The laws -----

  /** A pass that runs takes a copy exactly if its pod is the least loaded holder of a ripe, named model
      and accepts the unload, and no model sorting before it could give one up; it brings none. */
  lemma {:induction false} CopyLeavesExactly(s: TrackerState, grace: int, env: PassEnv, pod: string, model: string)
    ensures var after := Holders(Pass(s, grace, env).loaded, model);
            && after <= Holders(s.loaded, model)
            && (pod in Holders(s.loaded, model) && pod !in after
                <==> s.firstPoll && model != "" && FirstToYield(s, grace, env, pod, model))
  {
    if Enabled(s, env) {
      FirstIsTarget(s, grace, env, pod, model);
      PassCopies(s, grace, env);
      HoldersOfCopies(s.loaded, model);
      HoldersOfCopies(Pass(s, grace, env).loaded, model);
    }
  }

  /** A pass that runs leaves a counter exactly to the models on two pods or more except the one that yields,
      each one more than before; addresses and seeding stay. One that does not run changes nothing. */
  lemma {:induction false} CountersExactly(s: TrackerState, grace: int, env: PassEnv, model: string)
    ensures env.pressure.None? || !s.firstPoll ==> Pass(s, grace, env) == s
    ensures Pass(s, grace, env).podIP == s.podIP && Pass(s, grace, env).firstPoll == s.firstPoll
    ensures env.pressure.Some? && s.firstPoll ==>
              var after := Pass(s, grace, env).dupObs;
              && (model in after
                  <==> (exists p, q :: p != q && p in Holders(s.loaded, model) && q in Holders(s.loaded, model))
                       && !exists pod :: FirstToYield(s, grace, env, pod, model))
              && (model in after ==> after[model] == (if model in s.dupObs then s.dupObs[model] else 0) + 1)
  {
    if Enabled(s, env) {
      TwoHolders(s, model);
      forall pod ensures FirstToYield(s, grace, env, pod, model) <==> Target(s, grace, env) == Some(Copy(pod, model)) {
        FirstIsTarget(s, grace, env, pod, model);
      }
      var t := Target(s, grace, env);
      if t.Some? && t.value.model == model {
        assert FirstToYield(s, grace, env, t.value.pod, model);
      }
    }
  }

  /** The loader forgets exactly the key of the copy that leaves, under its pod's address. */
  lemma {:induction false} CacheDropsExactly(s: Replica, grace: int, env: PassEnv, key: string)
    ensures key in PassAndNotify(s, grace, env).cache
       <==> key in s.cache
            && !exists pod, model :: pod in s.tracker.podIP && key == s.tracker.podIP[pod] + ":" + model
                                     && pod in Holders(s.tracker.loaded, model)
                                     && pod !in Holders(PassAndNotify(s, grace, env).tracker.loaded, model)
  {
    var t := Target(s.tracker, grace, env);
    var after := PassAndNotify(s, grace, env).tracker;
    PassCopies(s.tracker, grace, env);
    forall pod, model
      ensures pod in Holders(s.tracker.loaded, model) && pod !in Holders(after.loaded, model)
         <==> t == Some(Copy(pod, model)) && model != ""
    {
      HoldersOfCopies(s.tracker.loaded, model);
      HoldersOfCopies(after.loaded, model);
    }
  }

  /** A copy leaves only if the unload call to its pod was accepted. */
  lemma {:induction false} LeavesOnlyIfAccepted(s: TrackerState, grace: int, env: PassEnv, pod: string, model: string)
    requires pod in Holders(s.loaded, model) && pod !in Holders(Pass(s, grace, env).loaded, model)
    ensures pod in s.podIP && env.unloads(s.podIP[pod], model)
  {
    CopyLeavesExactly(s, grace, env, pod, model);
  }

  /** If no holder of a model accepts its unload, the model keeps its holders, and as a duplicate its
      counter goes on. */
  lemma {:induction false} RefusedStays(s: TrackerState, grace: int, env: PassEnv, model: string)
    requires forall p :: p in Holders(s.loaded, model) && p in s.podIP ==> !env.unloads(s.podIP[p], model)
    ensures Holders(Pass(s, grace, env).loaded, model) == Holders(s.loaded, model)
    ensures env.pressure.Some? && s.firstPoll && |Holders(s.loaded, model)| >= 2 ==>
              var after := Pass(s, grace, env).dupObs;
              model in after && after[model] == (if model in s.dupObs then s.dupObs[model] else 0) + 1
  {
    forall p ensures p in Holders(Pass(s, grace, env).loaded, model) <==> p in Holders(s.loaded, model) {
      CopyLeavesExactly(s, grace, env, p, model);
    }
    CountersExactly(s, grace, env, model);
    if |Holders(s.loaded, model)| >= 2 {
      var p :| p in Holders(s.loaded, model);
      assert model in Duplicates(s.loaded);
      TwoHolders(s, model);
    }
  }

  /** A refusal does not use the pass up: if every ripe model that sorts before has a least loaded holder that
      refuses, the next one that accepts loses its copy in the same pass. */
  lemma {:induction false} RefusalUsesNothingUp(s: TrackerState, grace: int, env: PassEnv, pod: string, model: string)
    requires s.firstPoll && model != "" && env.pressure.Some?
    requires Ripe(s, grace, model) && LeastLoaded(s, env.pressure.value, pod, model) && Accepts(s, env, pod, model)
    requires forall p, m :: Less(m, model) && Ripe(s, grace, m) && LeastLoaded(s, env.pressure.value, p, m) ==>
                              !Accepts(s, env, p, m)
    ensures pod !in Holders(Pass(s, grace, env).loaded, model)
  {
    assert Yields(s, grace, env, pod, model);
    forall p, m | Yields(s, grace, env, p, m) ensures m == model || Less(model, m) { LessTotal(m, model); }
    CopyLeavesExactly(s, grace, env, pod, model);
  }
}
