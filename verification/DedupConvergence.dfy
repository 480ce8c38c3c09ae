/** Left alone, dedup passes drain every duplicate - and how long that takes. */
module DedupConvergence {
  import opened DedupSpec

  ghost function ModelsOf(copies: set<Copy>): set<string>
  {
    set c | c in copies :: c.model
  }

  /** The number of copies beyond one per model: the sum over models of (holders - 1). */
  ghost function Excess(loaded: PodModels): int
  {
    |Copies(loaded)| - |Models(loaded)|
  }

  lemma {:induction false} FewerModelsThanCopies(copies: set<Copy>)
    ensures |ModelsOf(copies)| <= |copies|
  {
    if copies != {} {
      var c :| c in copies;
      FewerModelsThanCopies(copies - {c});
      assert ModelsOf(copies) == ModelsOf(copies - {c}) + {c.model};
    }
  }

  lemma ModelsAreOfCopies(loaded: PodModels)
    ensures Models(loaded) == ModelsOf(Copies(loaded))
  {
    forall m | m in Models(loaded) ensures m in ModelsOf(Copies(loaded)) {
      var p :| p in loaded && m in loaded[p];
      assert Copy(p, m) in Copies(loaded);
    }
  }

  lemma OneFewerCopy(loaded: PodModels, c: Copy)
    requires c in Copies(loaded) && c.model in Duplicates(loaded)
    ensures ModelsOf(Copies(loaded) - {c}) == Models(loaded)
  {
    ModelsAreOfCopies(loaded);
    DuplicateHasAnother(loaded, c.model, c.pod);
    var p :| p in Holders(loaded, c.model) && p != c.pod;
    var other := Copies(loaded) - {c};
    assert Copy(p, c.model) in other;
    forall m | m in Models(loaded) ensures m in ModelsOf(other) {
      var d :| d in Copies(loaded) && d.model == m;
      assert (if d == c then Copy(p, c.model) else d) in other;
    }
  }

  /** While anything is duplicated there is excess, and there is never less than none. */
  lemma ExcessBounds(loaded: PodModels)
    ensures Excess(loaded) >= 0
    ensures Duplicates(loaded) != {} ==> Excess(loaded) >= 1
  {
    ModelsAreOfCopies(loaded);
    FewerModelsThanCopies(Copies(loaded));
    if Duplicates(loaded) != {} {
      var m :| m in Duplicates(loaded);
      var p :| p in loaded && m in loaded[p];
      OneFewerCopy(loaded, Copy(p, m));
      FewerModelsThanCopies(Copies(loaded) - {Copy(p, m)});
    }
  }

  /** A dedup of a named model lowers the excess by exactly one; otherwise a pass leaves it. */
  lemma PassExcess(s: TrackerState, grace: int, env: PassEnv)
    ensures var t := Target(s, grace, env);
            Excess(Pass(s, grace, env).loaded) ==
            Excess(s.loaded) - (if t.Some? && t.value.model != "" then 1 else 0)
  {
    var s' := Pass(s, grace, env);
    var t := Target(s, grace, env);
    PassCopies(s, grace, env);
    ModelsAreOfCopies(s.loaded);
    ModelsAreOfCopies(s'.loaded);
    if t.Some? && t.value.model != "" {
      OneFewerCopy(s.loaded, t.value);
    }
  }

  // ----- Runs of passes only -----

  ghost function Passes(s: TrackerState, grace: int, envs: seq<PassEnv>): TrackerState
    decreases |envs|
  {
    if envs == [] then s else Passes(Pass(s, grace, envs[0]), grace, envs[1..])
  }

  /** The tracker has been seeded and can reach every pod it tracks. */
  predicate Reachable(s: TrackerState)
  {
    s.firstPoll && forall p :: p in s.loaded ==> p != "" && p in s.podIP && s.podIP[p] != ""
  }

  /** Every pass is enabled and every unload it asks for succeeds. */
  ghost predicate AllWork(envs: seq<PassEnv>)
  {
    forall i :: 0 <= i < |envs| ==> envs[i].pressure.Some? && forall ip, m :: envs[i].unloads(ip, m)
  }

  function Window(grace: int): nat
  {
    if grace < 1 then 1 else grace
  }

  lemma HoldersOnlyShrink(s: TrackerState, grace: int, env: PassEnv)
    ensures Duplicates(Pass(s, grace, env).loaded) <= Duplicates(s.loaded)
  {
    forall m | m in Duplicates(Pass(s, grace, env).loaded) ensures m in Duplicates(s.loaded) {
      var p :| p in Holders(Pass(s, grace, env).loaded, m);
      assert p in Holders(s.loaded, m);
      PassKeepsLastCopy(s, grace, env, m);
      SubsetSize(Holders(Pass(s, grace, env).loaded, m), Holders(s.loaded, m));
    }
  }

  lemma {:induction false} StaysClean(s: TrackerState, grace: int, envs: seq<PassEnv>)
    requires Duplicates(s.loaded) == {}
    ensures Duplicates(Passes(s, grace, envs).loaded) == {}
    decreases |envs|
  {
    if envs != [] {
      HoldersOnlyShrink(s, grace, envs[0]);
      StaysClean(Pass(s, grace, envs[0]), grace, envs[1..]);
    }
  }

  /** The measure behind convergence, (excess, grace - counter of a duplicate), goes down with every
      pass: either the counter of `w` grows and stays short of the window, or a copy goes. */
  lemma MeasureDrops(s: TrackerState, grace: int, env: PassEnv, w: string)
    requires Reachable(s) && AllWork([env])
    requires w in Duplicates(s.loaded) && "" !in Duplicates(s.loaded)
    ensures var s' := Pass(s, grace, env);
            && Reachable(s') && "" !in Duplicates(s'.loaded)
            && (Excess(s'.loaded) == Excess(s.loaded) - 1
                || (&& Excess(s'.loaded) == Excess(s.loaded)
                    && w in Duplicates(s'.loaded)
                    && Obs(s'.dupObs, w) == Obs(s.dupObs, w) + 1 < grace))
  {
    assert [env][0] == env;
    PassExcess(s, grace, env);
    PassCopies(s, grace, env);
    HoldersOnlyShrink(s, grace, env);
    if Target(s, grace, env).None? {
      assert Unloadable(s, env, w);
      assert w !in Candidates(s, grace, env);
    }
  }

  /** The number of passes still needed, counted from duplicate `w`. */
  ghost function Measure(s: TrackerState, grace: int, w: string): int
  {
    Needed(Excess(s.loaded), Window(grace), Obs(s.dupObs, w))
  }

  function Needed(excess: int, window: nat, seen: nat): int
  {
    excess * window - (if seen < window then seen else window - 1)
  }

  lemma NeededDrops(excess: int, window: nat, seen: nat, other: nat)
    requires excess >= 1 && window >= 1
    ensures Needed(excess, window, seen) >= 1
    ensures seen + 1 < window ==> Needed(excess, window, seen + 1) < Needed(excess, window, seen)
    ensures Needed(excess - 1, window, other) < Needed(excess, window, seen)
  {
    ExcessTimes(excess, window);
  }

  lemma MeasureStep(s: TrackerState, grace: int, env: PassEnv, w: string) returns (w': string)
    requires Reachable(s) && AllWork([env])
    requires w in Duplicates(s.loaded) && "" !in Duplicates(s.loaded)
    ensures var s' := Pass(s, grace, env);
            && Reachable(s') && "" !in Duplicates(s'.loaded) && Measure(s, grace, w) >= 1
            && (Duplicates(s'.loaded) != {} ==>
                  w' in Duplicates(s'.loaded) && Measure(s', grace, w') < Measure(s, grace, w))
  {
    ExcessBounds(s.loaded);
    var s' := Pass(s, grace, env);
    MeasureDrops(s, grace, env, w);
    w' := w;
    if Duplicates(s'.loaded) != {} && Excess(s'.loaded) != Excess(s.loaded) {
      w' :| w' in Duplicates(s'.loaded);
    }
    NeededDrops(Excess(s.loaded), Window(grace), Obs(s.dupObs, w), Obs(s'.dupObs, w'));
  }

  lemma {:induction false} Drains(s: TrackerState, grace: int, envs: seq<PassEnv>, w: string)
    requires Reachable(s) && AllWork(envs)
    requires w in Duplicates(s.loaded) && "" !in Duplicates(s.loaded)
    requires |envs| >= Measure(s, grace, w)
    ensures Duplicates(Passes(s, grace, envs).loaded) == {}
    decreases |envs|
  {
    ExcessBounds(s.loaded);
    NeededDrops(Excess(s.loaded), Window(grace), Obs(s.dupObs, w), 0);
    assert AllWork([envs[0]]) && AllWork(envs[1..]);
    var w' := MeasureStep(s, grace, envs[0], w);
    var s' := Pass(s, grace, envs[0]);
    if Duplicates(s'.loaded) == {} {
      StaysClean(s', grace, envs[1..]);
    } else {
      Drains(s', grace, envs[1..], w');
    }
  }

  lemma ExcessTimes(e: int, g: nat)
    requires e >= 1 && g >= 1
    ensures e * g >= g
    ensures (e - 1) * g == e * g - g
  {
  }

  /** No run of passes loses a held model, and none touches the copies of the empty name. */
  lemma {:induction false} PassesKeepHolders(s: TrackerState, grace: int, envs: seq<PassEnv>, model: string)
    requires Holders(s.loaded, model) != {}
    ensures Holders(Passes(s, grace, envs).loaded, model) != {}
    ensures model == "" ==> Holders(Passes(s, grace, envs).loaded, model) == Holders(s.loaded, model)
    decreases |envs|
  {
    if envs != [] {
      var s' := Pass(s, grace, envs[0]);
      PassKeepsLastCopy(s, grace, envs[0], model);
      if model == "" {
        PassCopies(s, grace, envs[0]);
        HoldersOfCopies(s.loaded, model);
        HoldersOfCopies(s'.loaded, model);
        assert Holders(s'.loaded, model) == Holders(s.loaded, model);
      }
      PassesKeepHolders(s', grace, envs[1..], model);
    }
  }

  /** Convergence: with no new loads, every pod reachable and every unload working, after
      excess * grace passes no model is duplicated - exactly when no duplicate is unnamed, since the
      tracker refuses to unmark the empty name. (PassesKeepHolders: every held model is still held.) */
  lemma {:induction false} Convergence(s: TrackerState, grace: int, envs: seq<PassEnv>)
    requires Reachable(s) && AllWork(envs)
    requires |envs| >= Excess(s.loaded) * Window(grace)
    ensures Duplicates(Passes(s, grace, envs).loaded) == {} <==> "" !in Duplicates(s.loaded)
  {
    var end := Passes(s, grace, envs);
    if "" in Duplicates(s.loaded) {
      var p :| p in Holders(s.loaded, "");
      PassesKeepHolders(s, grace, envs, "");
      assert p in Holders(end.loaded, "");
      assert "" in Duplicates(end.loaded);
    } else if Duplicates(s.loaded) == {} {
      StaysClean(s, grace, envs);
    } else {
      var w :| w in Duplicates(s.loaded);
      Drains(s, grace, envs, w);
    }
  }
}
