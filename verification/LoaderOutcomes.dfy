/** How the requests of LoaderProtocol end: which step of a run decides a request's outcome, and what it
    takes back, or does not, before it finishes. */
module LoaderOutcomes {
  import opened Wrappers
  import opened LoaderProtocol

  /** The outcome a request is bound for once it is decided. */
  predicate BoundFor(pc: PC, outcome: Outcome)
  {
    (pc.Unmarking? || pc.Invalidating? || pc.Finished?) && pc.outcome == outcome
  }

  /** The request's next step, given what the environment supplies, decides it for this outcome: a
      cancellation during a wait, a closed result with or without error, its own load's end, or the
      mark after a warm answer or a cache hit. An early waiter that sees an error decides nothing. */
  predicate Decides(s: State, t: Tid, o: Oracle, outcome: Outcome)
    requires t in s.pcs
  {
    var pc := s.pcs[t];
    match outcome
    case GaveUp => Waits(pc) && o == Cancel
    case Joined(r) =>
      Waits(pc) && o != Cancel && pc.rid == r && r < |s.results| && s.results[r].closes > 0 && s.results[r].err == None
    case Failed(r) =>
      && (pc.LateWaiting? || pc.Closing?) && pc.rid == r && r < |s.results|
      && (pc.LateWaiting? ==> o != Cancel && s.results[r].closes > 0 && s.results[r].err != None)
      && (pc.Closing? ==> pc.err != None)
    case Loaded(r) => pc.Closing? && pc.rid == r && r < |s.results| && pc.err == None
    case Warm => pc.MarkingWarm?
  }

  lemma BoundStep(s: State, t: Tid, o: Oracle, outcome: Outcome)
    requires t in s.pcs
    ensures t in Step(s, t, o).pcs
    ensures BoundFor(Step(s, t, o).pcs[t], outcome) <==> BoundFor(s.pcs[t], outcome) || Decides(s, t, o, outcome)
  {
    var pc := s.pcs[t];
    if Waits(pc) {
      WaiterBound(s, t, o, outcome);
    } else if pc.Closing? || pc.MarkingWarm? {
      EnderBound(s, t, o, outcome);
    } else {
      OthersBound(s, t, o, outcome);
    }
  }

  lemma WaiterBound(s: State, t: Tid, o: Oracle, outcome: Outcome)
    requires t in s.pcs && Waits(s.pcs[t])
    ensures t in Step(s, t, o).pcs && (BoundFor(Step(s, t, o).pcs[t], outcome) <==> Decides(s, t, o, outcome))
  {
  }

  lemma EnderBound(s: State, t: Tid, o: Oracle, outcome: Outcome)
    requires t in s.pcs && (s.pcs[t].Closing? || s.pcs[t].MarkingWarm?)
    ensures t in Step(s, t, o).pcs && (BoundFor(Step(s, t, o).pcs[t], outcome) <==> Decides(s, t, o, outcome))
  {
  }

  lemma OthersBound(s: State, t: Tid, o: Oracle, outcome: Outcome)
    requires t in s.pcs && !Waits(s.pcs[t]) && !s.pcs[t].Closing? && !s.pcs[t].MarkingWarm?
    ensures t in Step(s, t, o).pcs && (BoundFor(Step(s, t, o).pcs[t], outcome) <==> BoundFor(s.pcs[t], outcome))
  {
  }

  ghost predicate DecidedAt(actions: seq<Action>, t: Tid, outcome: Outcome, i: nat)
  {
    && i < |actions| && actions[i].Advance? && actions[i].tid == t
    && t in Run(INIT, actions[..i]).pcs && Decides(Run(INIT, actions[..i]), t, actions[i].oracle, outcome)
  }

  lemma DecidedGrows(init: seq<Action>, a: Action, t: Tid, outcome: Outcome, i: nat)
    requires i < |init|
    ensures DecidedAt(init + [a], t, outcome, i) <==> DecidedAt(init, t, outcome, i)
  {
    assert (init + [a])[..i] == init[..i];
  }

  /** In every run a request is bound for an outcome exactly if one of its own steps decided it so. */
  lemma {:induction false} OutcomeExactly(actions: seq<Action>, t: Tid, outcome: Outcome)
    ensures var s := Run(INIT, actions);
            t in s.pcs && BoundFor(s.pcs[t], outcome) <==> exists i: nat :: DecidedAt(actions, t, outcome, i)
  {
    if actions != [] {
      var last := |actions| - 1;
      var init, a := actions[..last], actions[last];
      OutcomeExactly(init, t, outcome);
      OutcomeGrows(init, a, t, outcome);
      assert actions == init + [a];
      var s := Run(INIT, init);
      if !Moves(a, t) { OthersKeepPlace(s, a, t); } else if t in s.pcs { BoundStep(s, t, a.oracle, outcome); }
    }
  }

  lemma OutcomeGrows(init: seq<Action>, a: Action, t: Tid, outcome: Outcome)
    ensures (exists i: nat :: DecidedAt(init + [a], t, outcome, i))
       <==> (exists i: nat :: DecidedAt(init, t, outcome, i))
            || (var s := Run(INIT, init); Moves(a, t) && t in s.pcs && Decides(s, t, a.oracle, outcome))
  {
    var actions := init + [a];
    var n := |init|;
    assert actions[..n] == init && actions[n] == a;
    forall i: nat | i < n ensures DecidedAt(actions, t, outcome, i) <==> DecidedAt(init, t, outcome, i) {
      DecidedGrows(init, a, t, outcome, i);
    }
    assert DecidedAt(actions, t, outcome, n)
      <==> (var s := Run(INIT, init); Moves(a, t) && t in s.pcs && Decides(s, t, a.oracle, outcome));
  }

  /** So a request gives up exactly if it was cancelled while it waited. */
  lemma {:induction false} GaveUpExactly(actions: seq<Action>, t: Tid)
    ensures var s := Run(INIT, actions);
            t in s.pcs && BoundFor(s.pcs[t], GaveUp)
            <==> exists i :: 0 <= i < |actions| && actions[i] == Advance(t, Cancel)
                             && (var before := Run(INIT, actions[..i]); t in before.pcs && Waits(before.pcs[t]))
  {
    OutcomeExactly(actions, t, GaveUp);
    if i: nat :| DecidedAt(actions, t, GaveUp, i) {
      assert actions[i] == Advance(t, Cancel);
    }
    if i :| 0 <= i < |actions| && actions[i] == Advance(t, Cancel)
            && (var before := Run(INIT, actions[..i]); t in before.pcs && Waits(before.pcs[t])) {
      assert DecidedAt(actions, t, GaveUp, i);
    }
  }

  // ----- What is taken back -----

  /** A waiter whose load worked finishes in that step, and takes nothing back. */
  lemma JoinedKeepsAll(s: State, t: Tid, o: Oracle)
    requires t in s.pcs && Waits(s.pcs[t]) && o != Cancel
    requires var r := s.pcs[t].rid; r < |s.results| && s.results[r].closes > 0 && s.results[r].err == None
    ensures var s' := Step(s, t, o);
            && t in s'.pcs && s'.pcs[t] == Finished(s.pcs[t].key, Joined(s.pcs[t].rid))
            && s'.marks == s.marks && s'.cached == s.cached
  {
  }

  /** The request turns back: a late wait that is cancelled or sees an error, or a load of its own that failed. */
  predicate Turns(s: State, t: Tid, o: Oracle)
    requires t in s.pcs
  {
    var pc := s.pcs[t];
    || (pc.LateWaiting? &&
        (o == Cancel || (pc.rid < |s.results| && s.results[pc.rid].closes > 0 && s.results[pc.rid].err != None)))
    || (pc.Closing? && pc.rid < |s.results| && pc.err != None)
  }

  predicate Unmarks(s: State, t: Tid)
    requires t in s.pcs
  {
    s.pcs[t].Unmarking?
  }

  lemma TurnStep(s: State, t: Tid, o: Oracle)
    requires t in s.pcs
    ensures var s' := Step(s, t, o);
            && t in s'.pcs
            && (Unmarks(s', t) <==> Turns(s, t, o))
            && (Unmarks(s, t) ==> s.pcs[t].key !in s'.marks)
            && (s'.pcs[t].Invalidating? ==> Unmarks(s, t))
  {
    if Waits(s.pcs[t]) { WaiterTurns(s, t, o); }
  }

  lemma WaiterTurns(s: State, t: Tid, o: Oracle)
    requires t in s.pcs && Waits(s.pcs[t])
    ensures t in Step(s, t, o).pcs && (Unmarks(Step(s, t, o), t) <==> Turns(s, t, o))
    ensures !Step(s, t, o).pcs[t].Invalidating?
  {
  }

  ghost predicate TurnsAt(actions: seq<Action>, t: Tid, i: nat)
  {
    && i < |actions| && Moves(actions[i], t)
    && t in Run(INIT, actions[..i]).pcs && Turns(Run(INIT, actions[..i]), t, actions[i].oracle)
  }

  /** The `i`th action is its own, and after it the mark of its pair is gone. */
  ghost predicate TakesBackAt(actions: seq<Action>, t: Tid, i: nat)
  {
    && i < |actions| && Moves(actions[i], t)
    && (var s := Run(INIT, actions[..i]);
        t in s.pcs && Unmarks(s, t) && s.pcs[t].key !in Apply(s, actions[i]).marks)
  }

  ghost predicate HasTurned(actions: seq<Action>, t: Tid)
  {
    exists i: nat :: TurnsAt(actions, t, i)
  }

  ghost predicate HasTakenBack(actions: seq<Action>, t: Tid)
  {
    exists i: nat :: TakesBackAt(actions, t, i)
  }

  lemma {:induction false} TurnedGrows(init: seq<Action>, a: Action, t: Tid)
    ensures var s := Run(INIT, init);
            HasTurned(init + [a], t)
            <==> HasTurned(init, t) || (Moves(a, t) && t in s.pcs && Turns(s, t, a.oracle))
  {
    var actions := init + [a];
    var n := |init|;
    assert actions[..n] == init && actions[n] == a;
    forall i: nat | i < n ensures TurnsAt(actions, t, i) <==> TurnsAt(init, t, i) {
      assert actions[..i] == init[..i];
    }
    if Moves(a, t) && t in Run(INIT, init).pcs && Turns(Run(INIT, init), t, a.oracle) {
      assert TurnsAt(actions, t, n);
    }
  }

  lemma {:induction false} TakenBackGrows(init: seq<Action>, a: Action, t: Tid)
    ensures var s := Run(INIT, init);
            HasTakenBack(init + [a], t)
            <==> HasTakenBack(init, t)
                 || (Moves(a, t) && t in s.pcs && Unmarks(s, t) && s.pcs[t].key !in Apply(s, a).marks)
  {
    var actions := init + [a];
    var n := |init|;
    assert actions[..n] == init && actions[n] == a;
    forall i: nat | i < n ensures TakesBackAt(actions, t, i) <==> TakesBackAt(init, t, i) {
      assert actions[..i] == init[..i];
    }
    var s := Run(INIT, init);
    if Moves(a, t) && t in s.pcs && Unmarks(s, t) && s.pcs[t].key !in Apply(s, a).marks {
      assert TakesBackAt(actions, t, n);
    }
  }

  predicate AboutTo(s: State, t: Tid)
  {
    t in s.pcs && Unmarks(s, t)
  }

  lemma {:induction false} BackStep(s: State, a: Action, t: Tid)
    ensures var s' := Apply(s, a); var own := Moves(a, t) && t in s.pcs;
            && (AboutTo(s', t) <==> (own && Turns(s, t, a.oracle)) || (!own && AboutTo(s, t)))
            && (own && AboutTo(s, t) ==> s.pcs[t].key !in s'.marks)
            && (t in s'.pcs && s'.pcs[t].Invalidating? ==>
                  (own && AboutTo(s, t)) || (!own && t in s.pcs && s.pcs[t].Invalidating?))
  {
    if !Moves(a, t) { OthersKeepPlace(s, a, t); } else if t in s.pcs { TurnStep(s, t, a.oracle); }
  }

  /** In every run: a request that has turned back is about to take its mark back or has done so, and no
      other ever does. So one that finishes took its mark back exactly if it turned back. */
  lemma {:induction false} TakesBackExactly(actions: seq<Action>, t: Tid)
    ensures HasTurned(actions, t) <==> AboutTo(Run(INIT, actions), t) || HasTakenBack(actions, t)
    ensures var s := Run(INIT, actions); t in s.pcs && s.pcs[t].Invalidating? ==> HasTakenBack(actions, t)
  {
    if actions != [] {
      var last := |actions| - 1;
      var init, a := actions[..last], actions[last];
      TakesBackExactly(init, t);
      TurnedGrows(init, a, t);
      TakenBackGrows(init, a, t);
      BackStep(Run(INIT, init), a, t);
      assert actions == init + [a];
    }
  }

  // ----- Early waiters -----

  /** The load that the request waits for, runs, or goes by at its end. */
  function Concern(pc: PC): Option<Rid>
  {
    if Waits(pc) || Owns(pc) then Some(pc.rid)
    else if (pc.Unmarking? || pc.Invalidating? || pc.Finished?) && !pc.outcome.Warm? && !pc.outcome.GaveUp? then
      Some(pc.outcome.rid)
    else None
  }

  /** The request takes no further part in load `r`, which has ended. */
  predicate DoneWith(s: State, t: Tid, r: Rid)
  {
    r < |s.results| && s.results[r].closes > 0 && t in s.pcs && Concern(s.pcs[t]) != Some(r)
  }

  lemma ConcernStep(s: State, t: Tid, o: Oracle)
    requires t in s.pcs
    ensures t in Step(s, t, o).pcs
    ensures var after := Concern(Step(s, t, o).pcs[t]); var pc := s.pcs[t];
            || after == None || after == Concern(pc)
            || (pc.key in s.loading && after == Some(s.loading[pc.key]))
            || after == Some(|s.results|)
  {
    if s.pcs[t].Entering? || s.pcs[t].Checking? {
      EntryConcern(s, t, o);
    } else if Waits(s.pcs[t]) {
      WaiterConcern(s, t, o);
    }
  }

  lemma EntryConcern(s: State, t: Tid, o: Oracle)
    requires t in s.pcs && (s.pcs[t].Entering? || s.pcs[t].Checking?)
    ensures t in Step(s, t, o).pcs
    ensures var after := Concern(Step(s, t, o).pcs[t]); var pc := s.pcs[t];
            after == None || (pc.key in s.loading && after == Some(s.loading[pc.key])) || after == Some(|s.results|)
  {
  }

  lemma WaiterConcern(s: State, t: Tid, o: Oracle)
    requires t in s.pcs && Waits(s.pcs[t])
    ensures t in Step(s, t, o).pcs
    ensures var after := Concern(Step(s, t, o).pcs[t]); after == None || after == Concern(s.pcs[t])
  {
  }

  lemma StillDone(s: State, a: Action, t: Tid, r: Rid)
    requires Inv(s) && DoneWith(s, t, r)
    ensures DoneWith(Apply(s, a), t, r)
  {
    ClosedStays(s, a, r);
    if !Moves(a, t) { OthersKeepPlace(s, a, t); } else { ConcernStep(s, t, a.oracle); }
  }

  lemma {:induction false} DoneForGood(s: State, actions: seq<Action>, t: Tid, r: Rid)
    requires Inv(s) && DoneWith(s, t, r)
    ensures DoneWith(Run(s, actions), t, r)
  {
    if actions != [] {
      var last := |actions| - 1;
      DoneForGood(s, actions[..last], t, r);
      RunInv(s, actions[..last]);
      StillDone(Run(s, actions[..last]), actions[last], t, r);
    }
  }

  /** An early waiter that sees an error goes on to ask the pod, with cache and marks as they were, and
      whatever follows never ends by that load. */
  lemma {:induction false} EarlyFailureGoesOn(s: State, t: Tid, o: Oracle, actions: seq<Action>)
    requires Inv(s) && t in s.pcs && s.pcs[t].EarlyWaiting? && o != Cancel
    requires var r := s.pcs[t].rid; r < |s.results| && s.results[r].closes > 0 && s.results[r].err != None
    ensures var s' := Apply(s, Advance(t, o)); var r := s.pcs[t].rid;
            && t in s'.pcs && s'.pcs[t] == Querying(s.pcs[t].key) && s'.cached == s.cached && s'.marks == s.marks
            && DoneWith(Run(s', actions), t, r)
  {
    var s' := Apply(s, Advance(t, o));
    ApplyInv(s, Advance(t, o));
    AsksNext(s, t, o);
    DoneForGood(s', actions, t, s.pcs[t].rid);
  }

  lemma AsksNext(s: State, t: Tid, o: Oracle)
    requires t in s.pcs && s.pcs[t].EarlyWaiting? && o != Cancel
    requires var r := s.pcs[t].rid; r < |s.results| && s.results[r].closes > 0 && s.results[r].err != None
    ensures var s' := Step(s, t, o);
            && t in s'.pcs && s'.pcs[t] == Querying(s.pcs[t].key) && s'.cached == s.cached && s'.marks == s.marks
            && s'.results == s.results
  {
  }

  // ----- What an owner says -----

  /** A load that breaks with a message publishes that very message to everyone. */
  lemma BrokenIsPublished(s: State, t: Tid, msg: string)
    requires Inv(s) && t in s.pcs && (s.pcs[t].Posting? || s.pcs[t].Polling?)
    ensures var r := s.pcs[t].rid; var s' := Apply(Apply(s, Advance(t, Broken(msg))), Advance(t, Go));
            && r < |s'.results| && s'.results[r].closes > 0 && s'.results[r].err == Some(msg)
            && t in s'.pcs && s'.pcs[t] == Unmarking(s.pcs[t].key, Failed(r))
  {
    assert RequestOk(s, t);
    var mid := Step(s, t, Broken(msg));
    assert mid.pcs[t] == Closing(s.pcs[t].key, s.pcs[t].rid, Some(msg)) && mid.results == s.results;
  }
}
