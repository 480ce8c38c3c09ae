/** How the requests of RouterProtocol end: a lone request in every case, and in any run the step that decides
    whether a load works and what a request returns. */
module RouterOutcomes {
  import opened Wrappers
  import opened RouterProtocol
  import opened RouterLiveness

  // ----- A request that runs alone -----

  /** On a warm model it returns at its check, and touches nothing. */
  lemma WarmReturns(s: State, t: Tid, slot: Slot)
    requires t !in s.pcs && slot in s.warm
    ensures Apply(Apply(s, Arrive(t, slot)), Advance(t, Go)) == s.(pcs := s.pcs[t := Returned(slot, WasWarm)])
  {
    var mid := Apply(s, Arrive(t, slot));
    assert mid.pcs[t] == Checking(slot);
    assert mid.pcs[t := Returned(slot, WasWarm)] == s.pcs[t := Returned(slot, WasWarm)];
  }

  /** Unhindered steps of `t` lead from `s` to `end`. */
  ghost predicate Goes(s: State, t: Tid, actions: seq<Action>, end: State)
  {
    end == Run(s, actions) && forall a :: a in actions ==> a == Advance(t, Go)
  }

  lemma GoesOn(s: State, t: Tid, actions: seq<Action>, mid: State) returns (longer: seq<Action>, next: State)
    requires Goes(s, t, actions, mid) && t in mid.pcs
    ensures next == Step(mid, t, Go) && Goes(s, t, longer, next) && |longer| == |actions| + 1
  {
    next := Step(mid, t, Go);
    longer := Followed(s, mid, next, actions, Advance(t, Go));
  }

  /** Where a lone request is, with its load registered as `i` and everything else as in `s`. */
  ghost predicate Alone(s: State, now: State, t: Tid, slot: Slot, i: Sid)
  {
    && t in now.pcs && now.pcs == s.pcs[t := now.pcs[t]] && now.pcs[t].slot == slot
    && i == |s.states| && |now.states| == i + 1 && now.states[..i] == s.states
    && now.loading == s.loading[slot := i] && now.lost == s.lost
    && (BeforeSend(now.pcs[t]) ==> now.states[i].channel == None)
    && (Owns(now.pcs[t]) ==> now.pcs[t].sid == i)
  }

  lemma StartSteps(s: State, t: Tid, slot: Slot)
    requires t !in s.pcs && slot !in s.warm && slot !in s.loading
    ensures var first := Apply(s, Arrive(t, slot)); var mid := Apply(first, Advance(t, Go));
            var now := Apply(mid, Advance(t, Go));
            && t in first.pcs && t in mid.pcs
            && Alone(s, now, t, slot, |s.states|) && now.pcs[t].Creating?
            && now.warm == s.warm && now.leases == s.leases
  {
  }

  lemma Starts(s: State, t: Tid, slot: Slot) returns (actions: seq<Action>, now: State)
    requires t !in s.pcs && slot !in s.warm && slot !in s.loading
    ensures Goes(Apply(s, Arrive(t, slot)), t, actions, now) && |actions| == 2
    ensures Alone(s, now, t, slot, |s.states|) && now.pcs[t].Creating? && now.warm == s.warm && now.leases == s.leases
  {
    var first := Apply(s, Arrive(t, slot));
    StartSteps(s, t, slot);
    actions, now := GoesOn(first, t, [], first);
    actions, now := GoesOn(first, t, actions, now);
  }

  predicate FreeOrOwn(s: State, slot: Slot)
  {
    slot.model in s.leases ==> s.leases[slot.model] == slot.replica
  }

  /** The lease is free, or its replica's already: one step acquires it, or two. */
  lemma AcquireSteps(s: State, now: State, t: Tid, slot: Slot)
    requires Alone(s, now, t, slot, |s.states|) && now.pcs[t].Creating?
    ensures var next := Step(now, t, Go);
            && Alone(s, next, t, slot, |s.states|) && next.warm == now.warm
            && (slot.model !in now.leases ==>
                  next.pcs[t].LoadingModel? && next.leases == now.leases[slot.model := slot.replica])
            && (slot.model in now.leases ==> next.pcs[t].Getting? && next.leases == now.leases)
  {
  }

  lemma GetSteps(s: State, now: State, t: Tid, slot: Slot)
    requires Alone(s, now, t, slot, |s.states|) && now.pcs[t].Getting? && slot.model in now.leases
    ensures var next := Step(now, t, Go); var own := now.leases[slot.model] == slot.replica;
            && Alone(s, next, t, slot, |s.states|) && next.warm == now.warm && next.leases == now.leases
            && next.pcs[t] == if own then LoadingModel(slot, |s.states|)
                              else Sending(slot, |s.states|, LoadFailed, false)
  {
  }

  lemma Acquires(s: State, t: Tid, slot: Slot) returns (actions: seq<Action>, now: State)
    requires t !in s.pcs && slot !in s.warm && slot !in s.loading && FreeOrOwn(s, slot)
    ensures Goes(Apply(s, Arrive(t, slot)), t, actions, now) && |actions| <= 4
    ensures Alone(s, now, t, slot, |s.states|) && now.pcs[t].LoadingModel?
    ensures now.warm == s.warm && now.leases == s.leases[slot.model := slot.replica]
  {
    var first := Apply(s, Arrive(t, slot));
    actions, now := Starts(s, t, slot);
    AcquireSteps(s, now, t, slot);
    actions, now := GoesOn(first, t, actions, now);
    if slot.model in s.leases {
      GetSteps(s, now, t, slot);
      actions, now := GoesOn(first, t, actions, now);
      assert s.leases[slot.model := slot.replica] == s.leases;
    }
  }

  lemma SendStep(now: State, t: Tid)
    requires t in now.pcs && now.pcs[t].Sending? && RoomToSend(now, t)
    ensures var pc := now.pcs[t]; var s' := Step(now, t, Go); var ok := pc.msg.Loaded?;
            && s'.pcs == now.pcs[t := if pc.held then Releasing(pc.slot, pc.sid, ok) else Cleaning(pc.slot, pc.sid, ok)]
            && s'.loading == now.loading && s'.warm == now.warm && s'.leases == now.leases
  {
  }

  lemma ReleaseStep(now: State, t: Tid)
    requires t in now.pcs && now.pcs[t].Releasing?
    ensures var pc := now.pcs[t];
            Step(now, t, Go) == now.(pcs := now.pcs[t := Cleaning(pc.slot, pc.sid, pc.ok)],
                                     leases := now.leases - {pc.slot.model})
  {
  }

  lemma CleanStep(now: State, t: Tid)
    requires t in now.pcs && now.pcs[t].Cleaning?
    ensures var pc := now.pcs[t];
            Step(now, t, Go) == now.(pcs := now.pcs[t := Returned(pc.slot, Own(pc.sid, pc.ok))],
                                     loading := now.loading - {pc.slot})
  {
  }

  /** From the moment it has something to send. */
  lemma {:induction false} Reports(from: State, t: Tid, before: seq<Action>, now: State)
    returns (actions: seq<Action>, end: State)
    requires Goes(from, t, before, now) && t in now.pcs && now.pcs[t].Sending? && RoomToSend(now, t)
    ensures Goes(from, t, actions, end) && |actions| <= |before| + 3
    ensures var pc := now.pcs[t];
            && end.pcs == now.pcs[t := Returned(pc.slot, Own(pc.sid, pc.msg.Loaded?))]
            && end.loading == now.loading - {pc.slot} && end.warm == now.warm
            && end.leases == if pc.held then now.leases - {pc.slot.model} else now.leases
  {
    SendStep(now, t);
    actions, end := GoesOn(from, t, before, now);
    if now.pcs[t].held {
      ReleaseStep(end, t);
      actions, end := GoesOn(from, t, actions, end);
    }
    CleanStep(end, t);
    actions, end := GoesOn(from, t, actions, end);
  }

  /** ... nothing is left of it but its outcome. */
  lemma Settles(s: State, now: State, end: State, t: Tid, slot: Slot, ok: bool)
    requires Alone(s, now, t, slot, |s.states|) && slot !in s.loading
    requires end.pcs == now.pcs[t := Returned(slot, Own(|s.states|, ok))] && end.loading == now.loading - {slot}
    ensures end.pcs == s.pcs[t := Returned(slot, Own(|s.states|, ok))] && end.loading == s.loading
  {
  }

  lemma LoadSteps(now: State, t: Tid)
    requires t in now.pcs && now.pcs[t].LoadingModel?
    ensures var pc := now.pcs[t];
            && Step(now, t, Go) == now.(pcs := now.pcs[t := Writing(pc.slot, pc.sid)])
            && (forall effect :: Step(now, t, Fail(effect)) ==
                                 now.(pcs := now.pcs[t := Sending(pc.slot, pc.sid, LoadFailed, true)]))
  {
  }

  lemma WriteStep(now: State, t: Tid)
    requires t in now.pcs && now.pcs[t].Writing? && now.pcs[t].sid < |now.states|
    requires now.states[now.pcs[t].sid].channel == None
    ensures var pc := now.pcs[t]; var s' := Step(now, t, Go);
            && s'.pcs == now.pcs[t := Sending(pc.slot, pc.sid, Loaded, true)] && RoomToSend(s', t)
            && s'.warm == now.warm + {pc.slot} && s'.leases == now.leases && s'.loading == now.loading
  {
  }

  lemma {:induction false} Writes(from: State, t: Tid, before: seq<Action>, mid: State)
    returns (actions: seq<Action>, now: State)
    requires Goes(from, t, before, mid) && t in mid.pcs && mid.pcs[t].LoadingModel?
    requires mid.pcs[t].sid < |mid.states| && mid.states[mid.pcs[t].sid].channel == None
    ensures Goes(from, t, actions, now) && |actions| == |before| + 2
    ensures var pc := mid.pcs[t];
            && now.pcs == mid.pcs[t := Sending(pc.slot, pc.sid, Loaded, true)] && RoomToSend(now, t)
            && now.warm == mid.warm + {pc.slot} && now.leases == mid.leases && now.loading == mid.loading
  {
    LoadSteps(mid, t);
    actions, now := GoesOn(from, t, before, mid);
    WriteStep(now, t);
    actions, now := GoesOn(from, t, actions, now);
  }

  lemma CreateFailStep(now: State, t: Tid, effect: bool)
    requires t in now.pcs && now.pcs[t].Creating?
    ensures var pc := now.pcs[t]; var m := pc.slot.model;
            Step(now, t, Fail(effect)) ==
            now.(pcs := now.pcs[t := Sending(pc.slot, pc.sid, LoadFailed, false)],
                 leases := if effect && m !in now.leases then now.leases[m := pc.slot.replica] else now.leases)
  {
  }

  /** If no call fails, and the lease is free or its replica's own, the load works: the model is warm at its
      replica, no lease of it and no entry is left. */
  lemma {:induction false} LoneLoadWorks(s: State, t: Tid, slot: Slot) returns (actions: seq<Action>, end: State)
    requires t !in s.pcs && slot !in s.warm && slot !in s.loading && FreeOrOwn(s, slot)
    ensures Goes(Apply(s, Arrive(t, slot)), t, actions, end) && |actions| <= 9
    ensures end.pcs == s.pcs[t := Returned(slot, Own(|s.states|, true))]
    ensures end.warm == s.warm + {slot} && end.leases == s.leases - {slot.model} && end.loading == s.loading
  {
    var first := Apply(s, Arrive(t, slot));
    var before, mid := Acquires(s, t, slot);
    var until, now := Writes(first, t, before, mid);
    actions, end := Reports(first, t, until, now);
    Settles(s, mid, end, t, slot, true);
    assert s.leases[slot.model := slot.replica] - {slot.model} == s.leases - {slot.model};
  }

  /** If the load itself fails, the model does not become warm, and the lease is given back. */
  lemma {:induction false} LoneLoadFails(s: State, t: Tid, slot: Slot, o: Oracle)
    returns (before: seq<Action>, mid: State, actions: seq<Action>, end: State)
    requires t !in s.pcs && slot !in s.warm && slot !in s.loading && FreeOrOwn(s, slot) && o.Fail?
    ensures Goes(Apply(s, Arrive(t, slot)), t, before, mid) && t in mid.pcs && mid.pcs[t].LoadingModel?
    ensures Goes(Apply(mid, Advance(t, o)), t, actions, end) && |actions| <= 3
    ensures end.pcs == s.pcs[t := Returned(slot, Own(|s.states|, false))]
    ensures end.warm == s.warm && end.leases == s.leases - {slot.model} && end.loading == s.loading
  {
    before, mid := Acquires(s, t, slot);
    LoadSteps(mid, t);
    var now := Apply(mid, Advance(t, o));
    actions, end := Reports(now, t, [], now);
    Settles(s, mid, end, t, slot, false);
    assert s.leases[slot.model := slot.replica] - {slot.model} == s.leases - {slot.model};
  }

  /** If another replica has the lease, the request fails, and leaves lease and models as they are. */
  lemma {:induction false} LoneRequestRefused(s: State, t: Tid, slot: Slot) returns (actions: seq<Action>, end: State)
    requires t !in s.pcs && slot !in s.warm && slot !in s.loading && !FreeOrOwn(s, slot)
    ensures Goes(Apply(s, Arrive(t, slot)), t, actions, end) && |actions| <= 7
    ensures end.pcs == s.pcs[t := Returned(slot, Own(|s.states|, false))]
    ensures end.warm == s.warm && end.leases == s.leases && end.loading == s.loading
  {
    var first := Apply(s, Arrive(t, slot));
    var before, mid := Starts(s, t, slot);
    AcquireSteps(s, mid, t, slot);
    before, mid := GoesOn(first, t, before, mid);
    GetSteps(s, mid, t, slot);
    before, mid := GoesOn(first, t, before, mid);
    actions, end := Reports(first, t, before, mid);
    Settles(s, mid, end, t, slot, false);
  }

  /** If the create call fails, so does the request, with no lease but one the call made in spite of it. */
  lemma {:induction false} LoneCreateFails(s: State, t: Tid, slot: Slot, effect: bool)
    returns (before: seq<Action>, mid: State, actions: seq<Action>, end: State)
    requires t !in s.pcs && slot !in s.warm && slot !in s.loading
    ensures Goes(Apply(s, Arrive(t, slot)), t, before, mid) && t in mid.pcs && mid.pcs[t].Creating?
    ensures Goes(Apply(mid, Advance(t, Fail(effect))), t, actions, end) && |actions| <= 3
    ensures end.pcs == s.pcs[t := Returned(slot, Own(|s.states|, false))]
    ensures end.warm == s.warm && end.loading == s.loading
    ensures end.leases == if effect && slot.model !in s.leases then s.leases[slot.model := slot.replica] else s.leases
  {
    before, mid := Starts(s, t, slot);
    CreateFailStep(mid, t, effect);
    var now := Apply(mid, Advance(t, Fail(effect)));
    actions, end := Reports(now, t, [], now);
    Settles(s, mid, end, t, slot, false);
  }

  // ----- What decides in any run -----

  /** Something that is settled about a request, once and for all: that its load worked, that it broke, or
      what it returns. */
  datatype Fact = Works(sid: Sid) | Breaks(sid: Sid) | Returns(outcome: Outcome)

  predicate Settled(pc: PC, fact: Fact)
  {
    match fact
    case Returns(outcome) => pc.Returned? && pc.outcome == outcome
    case Works(i) => Reported(pc, i, true)
    case Breaks(i) => Reported(pc, i, false)
  }

  predicate Reported(pc: PC, i: Sid, ok: bool)
  {
    || (pc.Sending? && pc.sid == i && pc.msg.Loaded? == ok)
    || ((pc.Releasing? || pc.Cleaning?) && pc.sid == i && pc.ok == ok)
    || (pc.Returned? && pc.outcome == Own(i, ok))
  }

  /** The request's next step settles the fact: a load works by the models write, and breaks by a failing
      call or a lease that is not its replica's; a waiter goes by the message it takes and the models map
      it finds then. */
  predicate Decides(s: State, t: Tid, o: Oracle, fact: Fact)
    requires t in s.pcs
  {
    var pc := s.pcs[t];
    match fact
    case Works(i) => pc.Writing? && pc.sid == i && i < |s.states|
    case Breaks(i) =>
      && (pc.Creating? || pc.Getting? || pc.LoadingModel?) && pc.sid == i
      && (o.Fail?
          || (pc.Getting? && (pc.slot.model !in s.leases || s.leases[pc.slot.model] != pc.slot.replica)))
    case Returns(WasWarm) => pc.Checking? && pc.slot in s.warm
    case Returns(Own(i, ok)) => pc.Cleaning? && pc.sid == i && pc.ok == ok
    case Returns(Told(i, found)) => pc.Looking? && pc.sid == i && found == (pc.slot in s.warm)
    case Returns(ToldFailed(i)) =>
      pc.Waiting? && pc.sid == i && o != Cancel && i < |s.states| && s.states[i].channel == Some(LoadFailed)
    case Returns(GaveUp) => pc.Waiting? && o == Cancel
  }

  lemma SettleStep(s: State, t: Tid, o: Oracle, fact: Fact)
    requires t in s.pcs
    ensures var s' := Step(s, t, o);
            && t in s'.pcs && s'.pcs[t].slot == s.pcs[t].slot
            && (Settled(s'.pcs[t], fact) <==> Settled(s.pcs[t], fact) || Decides(s, t, o, fact))
  {
    var pc := s.pcs[t];
    if pc.Creating? || pc.Getting? || pc.LoadingModel? {
      LoaderSettles(s, t, o, fact);
    } else if pc.Writing? || pc.Sending? {
      SenderSettles(s, t, o, fact);
    } else if pc.Waiting? || pc.Looking? {
      WaiterSettles(s, t, o, fact);
    } else {
      OthersSettle(s, t, o, fact);
    }
  }

  lemma LoaderSettles(s: State, t: Tid, o: Oracle, fact: Fact)
    requires t in s.pcs && (s.pcs[t].Creating? || s.pcs[t].Getting? || s.pcs[t].LoadingModel?)
    ensures var s' := Step(s, t, o);
            && t in s'.pcs && s'.pcs[t].slot == s.pcs[t].slot
            && (Settled(s'.pcs[t], fact) <==> Settled(s.pcs[t], fact) || Decides(s, t, o, fact))
  {
  }

  lemma SenderSettles(s: State, t: Tid, o: Oracle, fact: Fact)
    requires t in s.pcs && (s.pcs[t].Writing? || s.pcs[t].Sending?)
    ensures var s' := Step(s, t, o);
            && t in s'.pcs && s'.pcs[t].slot == s.pcs[t].slot
            && (Settled(s'.pcs[t], fact) <==> Settled(s.pcs[t], fact) || Decides(s, t, o, fact))
  {
  }

  lemma WaiterSettles(s: State, t: Tid, o: Oracle, fact: Fact)
    requires t in s.pcs && (s.pcs[t].Waiting? || s.pcs[t].Looking?)
    ensures var s' := Step(s, t, o);
            && t in s'.pcs && s'.pcs[t].slot == s.pcs[t].slot
            && (Settled(s'.pcs[t], fact) <==> Settled(s.pcs[t], fact) || Decides(s, t, o, fact))
  {
  }

  lemma OthersSettle(s: State, t: Tid, o: Oracle, fact: Fact)
    requires t in s.pcs
    requires s.pcs[t].Checking? || s.pcs[t].Joining? || s.pcs[t].Releasing? || s.pcs[t].Cleaning? || s.pcs[t].Returned?
    ensures var s' := Step(s, t, o);
            && t in s'.pcs && s'.pcs[t].slot == s.pcs[t].slot
            && (Settled(s'.pcs[t], fact) <==> Settled(s.pcs[t], fact) || Decides(s, t, o, fact))
  {
  }

  predicate Moves(a: Action, t: Tid)
  {
    a.Advance? && a.tid == t
  }

  predicate At(s: State, t: Tid, slot: Slot)
  {
    t in s.pcs && s.pcs[t].slot == slot
  }

  /** The `i`th action is the request's own and settles the fact, and its replica has not crashed since. */
  ghost predicate DecidedAt(actions: seq<Action>, t: Tid, slot: Slot, fact: Fact, i: nat)
  {
    && i < |actions| && Moves(actions[i], t)
    && (var s := Run(INIT, actions[..i]); At(s, t, slot) && Decides(s, t, actions[i].oracle, fact))
    && (forall j :: i < j < |actions| ==> actions[j] != Crash(slot.replica))
  }

  ghost predicate Decided(actions: seq<Action>, t: Tid, slot: Slot, fact: Fact)
  {
    exists i: nat :: DecidedAt(actions, t, slot, fact, i)
  }

  lemma {:induction false} DecidedGrows(init: seq<Action>, a: Action, t: Tid, slot: Slot, fact: Fact)
    ensures var s := Run(INIT, init);
            Decided(init + [a], t, slot, fact)
            <==> (Decided(init, t, slot, fact) && a != Crash(slot.replica))
                 || (Moves(a, t) && At(s, t, slot) && Decides(s, t, a.oracle, fact))
  {
    var actions := init + [a];
    var n := |init|;
    var s := Run(INIT, init);
    assert actions[..n] == init && actions[n] == a;
    forall i: nat | i < n
      ensures DecidedAt(actions, t, slot, fact, i)
         <==> DecidedAt(init, t, slot, fact, i) && a != Crash(slot.replica)
    {
      assert actions[..i] == init[..i];
      assert forall j :: 0 <= j < n ==> actions[j] == init[j];
    }
    if Moves(a, t) && At(s, t, slot) && Decides(s, t, a.oracle, fact) {
      assert DecidedAt(actions, t, slot, fact, n);
    }
  }

  ghost predicate SettledNow(s: State, t: Tid, slot: Slot, fact: Fact)
  {
    At(s, t, slot) && Settled(s.pcs[t], fact)
  }

  lemma {:induction false} SettledStep(s: State, a: Action, t: Tid, slot: Slot, fact: Fact)
    ensures SettledNow(Apply(s, a), t, slot, fact)
       <==> (SettledNow(s, t, slot, fact) && a != Crash(slot.replica))
            || (Moves(a, t) && At(s, t, slot) && Decides(s, t, a.oracle, fact))
  {
    if Moves(a, t) {
      if t in s.pcs { SettleStep(s, t, a.oracle, fact); }
    } else if a.Advance? && a.tid in s.pcs {
      OnlyOneMoves(s, a.tid, a.oracle);
    }
  }

  /** In every run, for every request and fact: it is settled exactly if one of the request's own steps
      decided it. So `GaveUp` takes a cancellation during the wait, `WasWarm` a warm model at the check,
      `Told` says whether the model was in the map at that step; and a load breaks only by a failing call or
      a foreign lease. */
  lemma {:induction false} FactsExactly(actions: seq<Action>, t: Tid, slot: Slot, fact: Fact)
    ensures SettledNow(Run(INIT, actions), t, slot, fact) <==> Decided(actions, t, slot, fact)
  {
    if actions != [] {
      var last := |actions| - 1;
      var init, a := actions[..last], actions[last];
      FactsExactly(init, t, slot, fact);
      DecidedGrows(init, a, t, slot, fact);
      SettledStep(Run(INIT, init), a, t, slot, fact);
      assert actions == init + [a];
    }
  }

  /** A load that ends is one or the other, and says so: its owner sends and returns exactly that. */
  lemma {:induction false} OwnReturnsExactly(actions: seq<Action>, t: Tid, i: Sid, ok: bool)
    requires t in Run(INIT, actions).pcs && Run(INIT, actions).pcs[t].Returned?
    requires Run(INIT, actions).pcs[t].outcome == Own(i, ok)
    ensures var s := Run(INIT, actions); var slot := s.pcs[t].slot;
            && Decided(actions, t, slot, if ok then Works(i) else Breaks(i))
            && Said(s, i, slot, MsgOf(ok))
  {
    var s := Run(INIT, actions);
    RunInv(INIT, actions);
    assert RequestOk(s, t);
    FactsExactly(actions, t, s.pcs[t].slot, if ok then Works(i) else Breaks(i));
  }
}
