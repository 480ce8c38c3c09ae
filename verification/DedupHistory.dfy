/** Dedup passes in the middle of everything else that touches the tracker: runs of passes, marks,
    retractions and polls, and what the log of the passes says about counters and fairness. */
module DedupHistory {
  import opened StringOrder
  import opened Wrappers
  import opened DedupSpec
  import opened PollSpec

  datatype Event =
    | PassRun(env: PassEnv)
    | Mark(pod: string, model: string)
    | Retract(pod: string, model: string)
    | Listed(pods: seq<ListedPod>)

  /** One enabled pass: the models it found on two or more pods, those of them whose own unload
      would have succeeded, and the one it deduplicated. */
  datatype Record = Record(dups: set<string>, unloadable: set<string>, issued: Option<string>)

  datatype History = History(state: TrackerState, log: seq<Record>)

  ghost function Apply(s: TrackerState, grace: int, e: Event): TrackerState
  {
    match e
    case PassRun(env) => Pass(s, grace, env)
    case Mark(pod, model) => MarkLoaded(s, pod, model)
    case Retract(pod, model) => MarkUnloaded(s, pod, model)
    case Listed(pods) => Refresh(s, pods)
  }

  ghost function RecordOf(s: TrackerState, grace: int, env: PassEnv): Record
    requires Enabled(s, env)
  {
    Record(Duplicates(s.loaded),
           (set m | m in Duplicates(s.loaded) && Unloadable(s, env, m)),
           Winner(s, grace, env))
  }

  ghost function Extend(h: History, grace: int, e: Event): History
  {
    History(Apply(h.state, grace, e),
            if e.PassRun? && Enabled(h.state, e.env) then h.log + [RecordOf(h.state, grace, e.env)] else h.log)
  }

  ghost function Run(grace: int, events: seq<Event>): History
  {
    if events == [] then History(FRESH, [])
    else Extend(Run(grace, events[..|events| - 1]), grace, events[|events| - 1])
  }

  // ----- The counter and the log -----

  /** How many of the most recent passes saw `model` duplicated, since it was last deduplicated. */
  ghost function Streak(log: seq<Record>, model: string): nat
  {
    if log == [] then 0
    else
      var last := log[|log| - 1];
      if model !in last.dups || last.issued == Some(model) then 0
      else Streak(log[..|log| - 1], model) + 1
  }

  ghost predicate Sighted(r: Record, model: string)
  {
    model in r.dups && r.issued != Some(model)
  }

  /** `Streak` is the length of the longest unbroken run of sightings at the end of the log. */
  lemma {:induction false} StreakIsLongest(log: seq<Record>, model: string)
    ensures Streak(log, model) <= |log|
    ensures forall i :: |log| - Streak(log, model) <= i < |log| ==> Sighted(log[i], model)
    ensures Streak(log, model) < |log| ==> !Sighted(log[|log| - 1 - Streak(log, model)], model)
  {
    if log != [] {
      StreakIsLongest(log[..|log| - 1], model);
    }
  }

  /** What a record must say, given the passes before it. */
  ghost predicate ValidRecord(before: seq<Record>, r: Record, grace: int)
  {
    && r.unloadable <= r.dups
    && (r.issued.Some? ==> IsCandidate(before, r, grace, r.issued.value))
    && (forall x :: IsCandidate(before, r, grace, x) ==> r.issued.Some? && Leq(r.issued.value, x))
  }

  ghost predicate IsCandidate(before: seq<Record>, r: Record, grace: int, model: string)
  {
    model in r.dups && model in r.unloadable && Streak(before, model) + 1 >= grace
  }

  ghost predicate ValidLog(log: seq<Record>, grace: int)
  {
    forall i :: 0 <= i < |log| ==> ValidRecord(log[..i], log[i], grace)
  }

  /** The counter refines history: in every run, whatever comes between the passes, a model's
      counter is its streak in the log; every pass picks the first ripe model whose unload works. */
  lemma {:induction false} CounterRefinesHistory(grace: int, events: seq<Event>)
    ensures var h := Run(grace, events);
            && ValidLog(h.log, grace)
            && forall m :: Obs(h.state.dupObs, m) == Streak(h.log, m)
  {
    if events != [] {
      var h := Run(grace, events[..|events| - 1]);
      var e := events[|events| - 1];
      CounterRefinesHistory(grace, events[..|events| - 1]);
      if e.PassRun? && Enabled(h.state, e.env) {
        PassExtendsLog(h, grace, e.env);
      }
    }
  }

  lemma PassExtendsLog(h: History, grace: int, env: PassEnv)
    requires ValidLog(h.log, grace)
    requires forall m :: Obs(h.state.dupObs, m) == Streak(h.log, m)
    requires Enabled(h.state, env)
    ensures var h' := Extend(h, grace, PassRun(env));
            && ValidLog(h'.log, grace)
            && forall m :: Obs(h'.state.dupObs, m) == Streak(h'.log, m)
  {
    var h' := Extend(h, grace, PassRun(env));
    var r := RecordOf(h.state, grace, env);
    assert h'.log[..|h.log|] == h.log;
    var c := Candidates(h.state, grace, env);
    assert forall x :: x in c <==> IsCandidate(h.log, r, grace, x);
    if r.issued.Some? {
      assert IsMin(r.issued.value, c, NoRank);
      assert forall x :: x in c ==> Precedes(NoRank, r.issued.value, x);
    }
    assert ValidRecord(h.log, r, grace);
    forall i | 0 <= i < |h'.log| ensures ValidRecord(h'.log[..i], h'.log[i], grace) {
      if i < |h.log| { assert h'.log[..i] == h.log[..i] && h'.log[i] == h.log[i]; }
    }
    forall m ensures Obs(h'.state.dupObs, m) == Streak(h'.log, m) {
      assert Streak(h'.log, m) == if Sighted(r, m) then Streak(h.log, m) + 1 else 0;
    }
  }

  // ----- Consequences for every valid log -----

  /** An unload of `model` is preceded by a full grace window of consecutive sightings. */
  lemma UnloadNeedsFullGrace(log: seq<Record>, grace: int, i: nat, model: string)
    requires ValidLog(log, grace) && i < |log| && log[i].issued == Some(model)
    ensures grace <= i + 1
    ensures model in log[i].dups
    ensures forall k :: i + 1 - grace <= k < i ==> Sighted(log[k], model)
  {
    assert ValidRecord(log[..i], log[i], grace);
    StreakIsLongest(log[..i], model);
    forall k | i + 1 - grace <= k < i ensures Sighted(log[k], model) {
      assert log[..i][k] == log[k];
    }
  }

  /** Two unloads of the same model are at least `grace` passes apart. */
  lemma UnloadsSpaced(log: seq<Record>, grace: int, i: nat, j: nat, model: string)
    requires ValidLog(log, grace) && i < j < |log|
    requires log[i].issued == log[j].issued == Some(model)
    ensures j - i >= grace
  {
    UnloadNeedsFullGrace(log, grace, j, model);
    assert !Sighted(log[i], model);
  }

  lemma {:induction false} Pigeonhole(s: seq<string>, t: set<string>)
    requires forall i, j :: 0 <= i < j < |s| ==> s[i] != s[j]
    requires forall i :: 0 <= i < |s| ==> s[i] in t
    ensures |s| <= |t|
  {
    if s != [] {
      var last := s[|s| - 1];
      Pigeonhole(s[..|s| - 1], t - {last});
    }
  }

  /** A model that stays duplicated, and was not deduplicated, stays ripe. */
  lemma {:induction false} StaysRipe(log: seq<Record>, model: string, i: nat, k: nat)
    requires i <= k <= |log|
    requires forall j :: i <= j < k ==> Sighted(log[j], model)
    ensures Streak(log[..k], model) == Streak(log[..i], model) + (k - i)
    decreases k
  {
    if i < k {
      StaysRipe(log, model, i, k - 1);
      assert log[..k][..k - 1] == log[..k - 1];
    }
  }

  /** Bounded waiting: a ripe model that stays duplicated and whose own unload would succeed is
      deduplicated within |earlier| + 1 passes, where `earlier` covers the duplicated models that
      sort before it and is smaller than the grace window - even when the environment keeps
      duplicating those again. */
  lemma BoundedWaiting(log: seq<Record>, grace: int, model: string, i: nat, earlier: set<string>)
    requires ValidLog(log, grace)
    requires |earlier| < grace
    requires i + |earlier| < |log|
    requires Streak(log[..i], model) + 1 >= grace
    requires forall k :: i <= k <= i + |earlier| ==> model in log[k].dups && model in log[k].unloadable
    requires forall k, x :: i <= k <= i + |earlier| && x in log[k].dups && Less(x, model) ==> x in earlier
    ensures exists k :: i <= k <= i + |earlier| && log[k].issued == Some(model)
  {
    if forall k :: i <= k <= i + |earlier| ==> log[k].issued != Some(model) {
      forall k | i <= k <= i + |earlier|
        ensures log[k].issued.Some? && log[k].issued.value in earlier
      {
        OvertakenByEarlier(log, grace, model, i, k);
      }
      var winners := seq(|earlier| + 1, j requires 0 <= j <= |earlier| => log[i + j].issued.value);
      WinnersDistinct(log, grace, i, winners);
      Pigeonhole(winners, earlier);
    }
  }

  /** A pass that leaves a ripe, unloadable model waiting has served one that sorts before it. */
  lemma OvertakenByEarlier(log: seq<Record>, grace: int, model: string, i: nat, k: nat)
    requires ValidLog(log, grace) && i <= k < |log|
    requires Streak(log[..i], model) + 1 >= grace
    requires forall j :: i <= j < k ==> Sighted(log[j], model)
    requires Sighted(log[k], model) && model in log[k].unloadable
    ensures log[k].issued.Some? && log[k].issued.value in log[k].dups && Less(log[k].issued.value, model)
  {
    StaysRipe(log, model, i, k);
    assert ValidRecord(log[..k], log[k], grace);
    assert IsCandidate(log[..k], log[k], grace, model);
  }

  lemma WinnersDistinct(log: seq<Record>, grace: int, i: nat, winners: seq<string>)
    requires ValidLog(log, grace)
    requires |winners| <= grace && i + |winners| <= |log|
    requires forall j :: 0 <= j < |winners| ==> log[i + j].issued == Some(winners[j])
    ensures forall a, b :: 0 <= a < b < |winners| ==> winners[a] != winners[b]
  {
    forall a, b | 0 <= a < b < |winners| ensures winners[a] != winners[b] {
      if winners[a] == winners[b] { UnloadsSpaced(log, grace, i + a, i + b, winners[a]); }
    }
  }

  /** Bounded waiting on the tracker itself, in any run from a fresh tracker: once the counter of
      `model` says ripe, and while nothing else than its turn keeps it from being unloaded. */
  lemma BoundedWaitingInRuns(grace: int, events: seq<Event>, n: nat, model: string, earlier: set<string>)
    requires n <= |events|
    requires Obs(Run(grace, events[..n]).state.dupObs, model) + 1 >= grace
    requires |earlier| < grace
    requires var i := |Run(grace, events[..n]).log|; var log := Run(grace, events).log;
             && i + |earlier| < |log|
             && (forall k :: i <= k <= i + |earlier| ==> model in log[k].dups && model in log[k].unloadable)
             && (forall k, x :: i <= k <= i + |earlier| && x in log[k].dups && Less(x, model) ==> x in earlier)
    ensures var i := |Run(grace, events[..n]).log|; var log := Run(grace, events).log;
            exists k :: i <= k <= i + |earlier| && k < |log| && log[k].issued == Some(model)
  {
    var i := |Run(grace, events[..n]).log|;
    var log := Run(grace, events).log;
    CounterRefinesHistory(grace, events);
    CounterRefinesHistory(grace, events[..n]);
    LogGrows(grace, events, n);
    BoundedWaiting(log, grace, model, i, earlier);
  }

  lemma {:induction false} LogGrows(grace: int, events: seq<Event>, n: nat)
    requires n <= |events|
    ensures var i := |Run(grace, events[..n]).log|;
            i <= |Run(grace, events).log| && Run(grace, events).log[..i] == Run(grace, events[..n]).log
    decreases |events|
  {
    if n == |events| {
      assert events[..n] == events;
    } else {
      LogGrows(grace, events[..|events| - 1], n);
      assert events[..|events| - 1][..n] == events[..n];
    }
  }

  // ----- Safety over whole runs -----

  /** Whatever mix of passes and loads follows, a model that some pod holds is never lost, and with
      no pressure provider, or before anything was recorded, passes change nothing. */
  lemma {:induction false} NoModelLost(s: TrackerState, grace: int, events: seq<Event>, model: string)
    requires forall e :: e in events ==> e.PassRun? || e.Mark?
    requires Holders(s.loaded, model) != {}
    ensures Holders(ApplyAll(s, grace, events).loaded, model) != {}
  {
    if events != [] {
      var init := events[..|events| - 1];
      NoModelLost(s, grace, init, model);
      var mid := ApplyAll(s, grace, init);
      var e := events[|events| - 1];
      if e.PassRun? {
        PassKeepsLastCopy(mid, grace, e.env, model);
      } else {
        var p :| p in Holders(mid.loaded, model);
        assert p in Holders(MarkLoaded(mid, e.pod, e.model).loaded, model);
      }
    }
  }

  ghost function ApplyAll(s: TrackerState, grace: int, events: seq<Event>): TrackerState
  {
    if events == [] then s
    else Apply(ApplyAll(s, grace, events[..|events| - 1]), grace, events[|events| - 1])
  }

  lemma {:induction false} DisabledPassesDoNothing(s: TrackerState, grace: int, events: seq<Event>)
    requires forall e :: e in events ==> e.PassRun?
    requires !s.firstPoll || forall e :: e in events ==> e.env.pressure.None?
    ensures ApplyAll(s, grace, events) == s
  {
    if events != [] {
      DisabledPassesDoNothing(s, grace, events[..|events| - 1]);
    }
  }

  // ----- Between a pass's snapshot and its unmark -----

  /** The event marks or retracts the copy; pods without a key are ignored. */
  predicate Touches(e: Event, c: Copy)
  {
    c.pod != "" && c.model != "" && (e == Mark(c.pod, c.model) || e == Retract(c.pod, c.model))
  }

  ghost predicate LastTouch(events: seq<Event>, c: Copy, i: nat)
  {
    i < |events| && Touches(events[i], c) && forall j :: i < j < |events| ==> !Touches(events[j], c)
  }

  /** Going by the events: the copy's last mark or retraction is a mark, or it has none and was there
      before. */
  ghost predicate StillHas(s: TrackerState, events: seq<Event>, c: Copy)
  {
    || (exists i: nat :: LastTouch(events, c, i) && events[i].Mark?)
    || (c.pod in Holders(s.loaded, c.model) && forall e :: e in events ==> !Touches(e, c))
  }

  lemma {:induction false} StillHasExactly(s: TrackerState, grace: int, events: seq<Event>, c: Copy)
    requires forall e :: e in events ==> e.Mark? || e.Retract?
    ensures c.pod in Holders(ApplyAll(s, grace, events).loaded, c.model) <==> StillHas(s, events, c)
  {
    if events != [] {
      var last := |events| - 1;
      var init, e := events[..last], events[last];
      assert e in events && forall x :: x in init ==> x in events;
      StillHasExactly(s, grace, init, c);
      assert events == init + [e];
      if Touches(e, c) {
        assert LastTouch(events, c, last);
      } else {
        forall i: nat | i < last ensures LastTouch(events, c, i) <==> LastTouch(init, c, i) { }
      }
    }
  }

  /** A pass releases its locks between its snapshot `s` and its unmark. Whatever is marked and retracted
      in between, its model is left on no pod exactly if no pod but the loser still has it by those
      events. (Polls cannot come in between: passes and polls take turns.) */
  lemma {:induction false} PassLosesModelExactly(s: TrackerState, grace: int, env: PassEnv, events: seq<Event>)
    requires Target(s, grace, env).Some? && Target(s, grace, env).value.model != ""
    requires forall e :: e in events ==> e.Mark? || e.Retract?
    ensures var c := Target(s, grace, env).value;
            var now := ApplyAll(s.(dupObs := Observe(s)), grace, events);
            Holders(Commit(now, c).loaded, c.model) == {}
            <==> forall p :: p != c.pod ==> !StillHas(s, events, Copy(p, c.model))
  {
    var c := Target(s, grace, env).value;
    var counted := s.(dupObs := Observe(s));
    var now := ApplyAll(counted, grace, events);
    PassCopies(s, grace, env);
    forall p ensures p in Holders(now.loaded, c.model) <==> StillHas(s, events, Copy(p, c.model)) {
      StillHasExactly(counted, grace, events, Copy(p, c.model));
    }
    forall p ensures p in Holders(Commit(now, c).loaded, c.model) <==> p != c.pod && p in Holders(now.loaded, c.model) {
    }
  }
}
