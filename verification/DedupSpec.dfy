/** The dedup pass of internal/modeltracker/tracker.go as a function on values:
    what one pass counts, whom it picks, and what it takes away. */
module DedupSpec {
  import opened StringOrder
  import opened Wrappers

  /** pod key -> models the tracker believes the pod has loaded */
  type PodModels = map<string, set<string>>

  datatype TrackerState = TrackerState(
    loaded: PodModels,
    podIP: map<string, string>,
    dupObs: map<string, nat>,
    firstPoll: bool)

  /** What a pass cannot decide itself: the load scores (None when no provider is
      configured) and whether an unload call (pod IP, model) would succeed. */
  datatype PassEnv = PassEnv(pressure: Option<string -> real>, unloads: (string, string) -> bool)

  /** A copy of a model, by tracker key. */
  datatype Copy = Copy(pod: string, model: string)

  const FRESH := TrackerState(map[], map[], map[], false)

  // ----- Who holds what -----

  ghost function Holders(loaded: PodModels, model: string): set<string>
  {
    set p | p in loaded && model in loaded[p]
  }

  ghost function Copies(loaded: PodModels): set<Copy>
  {
    set p, m | p in loaded && m in loaded[p] :: Copy(p, m)
  }

  ghost function Models(loaded: PodModels): set<string>
  {
    set p, m | p in loaded && m in loaded[p] :: m
  }

  ghost function Duplicates(loaded: PodModels): set<string>
  {
    set m | m in Models(loaded) && |Holders(loaded, m)| >= 2
  }

  // ----- In-place marks -----

  function MarkLoaded(s: TrackerState, pod: string, model: string): TrackerState
  {
    if pod == "" || model == "" then s
    else s.(loaded := s.loaded[pod := (if pod in s.loaded then s.loaded[pod] else {}) + {model}],
            firstPoll := true)
  }

  function MarkUnloaded(s: TrackerState, pod: string, model: string): TrackerState
  {
    if pod == "" || model == "" || pod !in s.loaded then s
    else s.(loaded := s.loaded[pod := s.loaded[pod] - {model}])
  }

  // ----- One pass -----

  ghost predicate Enabled(s: TrackerState, env: PassEnv)
  {
    env.pressure.Some? && s.firstPoll
  }

  function Obs(dupObs: map<string, nat>, model: string): nat
  {
    if model in dupObs then dupObs[model] else 0
  }

  /** The counters after the counting phase: resolved models dropped, duplicates bumped. */
  ghost function Observe(s: TrackerState): map<string, nat>
  {
    map m | m in Duplicates(s.loaded) :: Obs(s.dupObs, m) + 1
  }

  /** The copy a dedup of `model` would give up: least (pressure, pod key). */
  ghost function Loser(s: TrackerState, env: PassEnv, model: string): (p: string)
    requires env.pressure.Some? && model in Duplicates(s.loaded)
    ensures p in Holders(s.loaded, model)
  {
    Min(Holders(s.loaded, model), env.pressure.value)
  }

  /** Whether the unload of `model` would be issued and succeed. */
  ghost predicate Unloadable(s: TrackerState, env: PassEnv, model: string)
    requires env.pressure.Some? && model in Duplicates(s.loaded)
  {
    var p := Loser(s, env, model);
    p != "" && p in s.podIP && s.podIP[p] != "" && env.unloads(s.podIP[p], model)
  }

  ghost function Candidates(s: TrackerState, grace: int, env: PassEnv): set<string>
    requires env.pressure.Some?
  {
    set m | m in Duplicates(s.loaded) && Obs(s.dupObs, m) + 1 >= grace && Unloadable(s, env, m)
  }

  function NoRank(name: string): real { 0.0 }

  function Always(ip: string, model: string): bool { true }

  /** No pod is loaded more than another, and every unload works. */
  const WILLING := PassEnv(Some(NoRank), Always)

  /** The model a pass takes a copy of: the first ripe one, by name, whose unload succeeds. */
  ghost function Winner(s: TrackerState, grace: int, env: PassEnv): (w: Option<string>)
    requires env.pressure.Some?
    ensures w.Some? ==> w.value in Candidates(s, grace, env)
  {
    if Candidates(s, grace, env) == {} then None
    else Some(Min(Candidates(s, grace, env), NoRank))
  }

  ghost function Target(s: TrackerState, grace: int, env: PassEnv): (c: Option<Copy>)
    ensures c.Some? ==> Enabled(s, env)
    ensures c.Some? ==> c.value.model in Duplicates(s.loaded) && c.value.pod in Holders(s.loaded, c.value.model)
  {
    if !Enabled(s, env) then None
    else
      match Winner(s, grace, env)
      case None => None
      case Some(m) => Some(Copy(Loser(s, env, m), m))
  }

  /** Drop the copy a pass has unloaded from whatever the tracker holds by now. */
  function Commit(s: TrackerState, c: Copy): TrackerState
  {
    MarkUnloaded(s, c.pod, c.model).(dupObs := s.dupObs - {c.model})
  }

  /** One whole pass, taken as atomic. */
  ghost function Pass(s: TrackerState, grace: int, env: PassEnv): TrackerState
  {
    if !Enabled(s, env) then s
    else
      var counted := s.(dupObs := Observe(s));
      match Target(s, grace, env)
      case None => counted
      case Some(c) => Commit(counted, c)
  }

  // ----- What one pass may do to the copies -----

  lemma DuplicateHasAnother(loaded: PodModels, model: string, pod: string)
    requires model in Duplicates(loaded)
    ensures exists p :: p in Holders(loaded, model) && p != pod
  {
    if forall p :: p in Holders(loaded, model) ==> p == pod {
      assert Holders(loaded, model) <= {pod};
      SubsetSize(Holders(loaded, model), {pod});
    }
  }

  lemma {:induction false} SubsetSize<T>(a: set<T>, b: set<T>)
    requires a <= b
    ensures |a| <= |b|
    ensures |a| == |b| ==> a == b
  {
    if a != {} {
      var x :| x in a;
      SubsetSize(a - {x}, b - {x});
      assert a == a - {x} + {x} && b == b - {x} + {x};
    }
  }

  lemma TwoHoldersDuplicate(loaded: PodModels, model: string, p: string, q: string)
    requires p in Holders(loaded, model) && q in Holders(loaded, model) && p != q
    ensures model in Duplicates(loaded)
  {
    SubsetSize({p, q}, Holders(loaded, model));
    assert |{p, q}| == 2;
  }

  /** A pass removes exactly the copy it targets - nothing when the model is unnamed,
      which the tracker refuses to unmark - and adds none. */
  lemma PassCopies(s: TrackerState, grace: int, env: PassEnv)
    ensures var t := Target(s, grace, env);
            Copies(Pass(s, grace, env).loaded) ==
            Copies(s.loaded) - (if t.Some? && t.value.model != "" then {t.value} else {})
    ensures var t := Target(s, grace, env); t.Some? ==> t.value in Copies(s.loaded) && t.value.pod != ""
    ensures forall p :: p in Pass(s, grace, env).loaded <==> p in s.loaded
  {
  }

  /** Safety of one pass: every model that some pod holds is still held afterwards, a model that
      loses a copy was on at least two pods, and only one copy goes. */
  lemma PassKeepsLastCopy(s: TrackerState, grace: int, env: PassEnv, model: string)
    requires Holders(s.loaded, model) != {}
    ensures var s' := Pass(s, grace, env);
            && Holders(s'.loaded, model) != {}
            && Holders(s'.loaded, model) <= Holders(s.loaded, model)
            && |Holders(s.loaded, model)| - 1 <= |Holders(s'.loaded, model)|
            && (Holders(s'.loaded, model) != Holders(s.loaded, model) ==> model in Duplicates(s.loaded))
  {
    var s' := Pass(s, grace, env);
    var t := Target(s, grace, env);
    PassCopies(s, grace, env);
    HoldersOfCopies(s.loaded, model);
    HoldersOfCopies(s'.loaded, model);
    if t.Some? && t.value.model == model {
      DuplicateHasAnother(s.loaded, model, t.value.pod);
      if model == "" {
        assert Holders(s'.loaded, model) == Holders(s.loaded, model);
      } else {
        assert Holders(s'.loaded, model) == Holders(s.loaded, model) - {t.value.pod};
      }
    } else {
      assert Holders(s'.loaded, model) == Holders(s.loaded, model);
    }
  }

  lemma HoldersOfCopies(loaded: PodModels, model: string)
    ensures forall p :: p in Holders(loaded, model) <==> Copy(p, model) in Copies(loaded)
  {
  }

  /** Whatever the tracker holds by the time a pass unmarks its copy: nobody is left exactly when the
      loser was the only holder left. */
  lemma LastCopyLost(now: TrackerState, c: Copy)
    requires Holders(now.loaded, c.model) != {}
    ensures Holders(Commit(now, c).loaded, c.model) == {}
            <==> c.pod != "" && c.model != "" && Holders(now.loaded, c.model) == {c.pod}
  {
    var after := Commit(now, c);
    HoldersOfCopies(now.loaded, c.model);
    HoldersOfCopies(after.loaded, c.model);
    if c.pod == "" || c.model == "" || c.pod !in now.loaded {
    } else {
      assert Holders(after.loaded, c.model) == Holders(now.loaded, c.model) - {c.pod};
    }
  }

  /** It can happen: with two holders, a retraction of the copy the pass meant to keep, between its
      snapshot and its unmark, leaves the model on no pod at all. */
  lemma ConcurrentRetractionStrands(s: TrackerState, grace: int, env: PassEnv, kept: string)
    requires Target(s, grace, env).Some? && Target(s, grace, env).value.model != "" && kept != ""
    requires var c := Target(s, grace, env).value;
             Holders(s.loaded, c.model) == {c.pod, kept} && kept != c.pod
    ensures var c := Target(s, grace, env).value;
            var counted := s.(dupObs := Observe(s));
            Holders(Commit(MarkUnloaded(counted, kept, c.model), c).loaded, c.model) == {}
  {
    var c := Target(s, grace, env).value;
    var now := MarkUnloaded(s.(dupObs := Observe(s)), kept, c.model);
    HoldersOfCopies(s.loaded, c.model);
    HoldersOfCopies(now.loaded, c.model);
    assert Holders(now.loaded, c.model) == {c.pod};
    LastCopyLost(now, c);
  }
}
