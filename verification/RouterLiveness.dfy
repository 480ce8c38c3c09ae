/** What the router's lock does not promise, and exactly when: a waiter whose turn never comes, and a
    lease that nobody gives back. */
module RouterLiveness {
  import opened Wrappers
  import opened RouterProtocol

  lemma {:induction false} RunAppend(s: State, actions: seq<Action>, a: Action)
    ensures Run(s, actions + [a]) == Apply(Run(s, actions), a)
  {
    assert (actions + [a])[..|actions|] == actions;
  }

  lemma Followed(s: State, mid: State, next: State, actions: seq<Action>, a: Action) returns (longer: seq<Action>)
    requires mid == Run(s, actions) && next == Apply(mid, a)
    ensures longer == actions + [a] && next == Run(s, longer)
  {
    RunAppend(s, actions, a);
    longer := actions + [a];
  }

  // ----- The one message of a load -----

  /** Its context is never cancelled, and its replica never crashes. */
  ghost predicate NeverStopped(actions: seq<Action>, t: Tid, replica: Name)
  {
    forall a :: a in actions ==> a != Advance(t, Cancel) && a != Crash(replica)
  }

  ghost predicate Stuck(s: State, t: Tid, i: Sid)
  {
    && t in s.pcs && s.pcs[t].Waiting? && s.pcs[t].sid == i
    && i < |s.states| && s.states[i].received == 1
  }

  lemma StuckStep(s: State, a: Action, t: Tid, i: Sid)
    requires Inv(s) && Stuck(s, t, i) && a != Advance(t, Cancel) && a != Crash(s.pcs[t].slot.replica)
    ensures Stuck(Apply(s, a), t, i) && Apply(s, a).pcs[t] == s.pcs[t]
  {
    assert LoadingOk(s, i);
    if a.Advance? && a.tid in s.pcs { NothingToReceive(s, a.tid, a.oracle, t, i); }
  }

  lemma NothingToReceive(s: State, u: Tid, o: Oracle, t: Tid, i: Sid)
    requires u in s.pcs && (u == t ==> !o.Cancel?)
    requires t in s.pcs && s.pcs[t].Waiting? && s.pcs[t].sid == i
    requires i < |s.states| && s.states[i].channel.None?
    ensures var s' := Step(s, u, o);
            && t in s'.pcs && s'.pcs[t] == s.pcs[t]
            && i < |s'.states| && s'.states[i].received == s.states[i].received
  {
  }

  /** The channel passes one message to one waiter. Once that has happened, every other waiter on it
      waits for ever, unless its own context is cancelled or its replica crashes. */
  lemma {:induction false} StuckForever(s: State, actions: seq<Action>, t: Tid, i: Sid)
    requires Inv(s) && Stuck(s, t, i) && NeverStopped(actions, t, s.pcs[t].slot.replica)
    ensures Stuck(Run(s, actions), t, i) && Run(s, actions).pcs[t] == s.pcs[t]
  {
    if actions != [] {
      var init := actions[..|actions| - 1];
      assert forall a :: a in init ==> a in actions;
      StuckForever(s, init, t, i);
      RunInv(s, init);
      assert actions[|actions| - 1] in actions;
      StuckStep(Run(s, init), actions[|actions| - 1], t, i);
    }
  }

  lemma {:induction false} ToSending(s: State, u: Tid) returns (actions: seq<Action>, end: State)
    requires Inv(s) && u in s.pcs && BeforeSend(s.pcs[u])
    ensures end == Run(s, actions) && Inv(end)
    ensures forall a :: a in actions ==> a.Advance? && a.tid == u && a.oracle != Cancel
    ensures u in end.pcs && end.pcs[u].Sending? && end.pcs[u].sid == s.pcs[u].sid
    ensures forall t :: t in s.pcs && t != u ==> t in end.pcs && end.pcs[t] == s.pcs[t]
  {
    assert RequestOk(s, u);
    actions, end := [], s;
    if !s.pcs[u].Sending? {
      var o := if s.pcs[u].Writing? then Go else Fail(false);
      end := Apply(s, Advance(u, o));
      ApplyInv(s, Advance(u, o));
      actions := Followed(s, s, end, [], Advance(u, o));
    }
  }

  lemma Send(s: State, u: Tid) returns (end: State)
    requires Inv(s) && u in s.pcs && s.pcs[u].Sending?
    ensures end == Apply(s, Advance(u, Go))
    ensures s.pcs[u].sid < |end.states| && end.states[s.pcs[u].sid].channel.Some?
    ensures forall t :: t in s.pcs && t != u ==> t in end.pcs && end.pcs[t] == s.pcs[t]
  {
    assert RequestOk(s, u);
    assert LoadingOk(s, s.pcs[u].sid);
    end := Apply(s, Advance(u, Go));
  }

  lemma Receive(s: State, t: Tid) returns (end: State)
    requires t in s.pcs && s.pcs[t].Waiting? && s.pcs[t].sid < |s.states| && s.states[s.pcs[t].sid].channel.Some?
    ensures end == Apply(s, Advance(t, Go)) && t in end.pcs && !end.pcs[t].Waiting?
  {
    end := Apply(s, Advance(t, Go));
  }

  lemma {:induction false} ToMessage(s: State, t: Tid) returns (actions: seq<Action>, end: State)
    requires Inv(s) && t in s.pcs && s.pcs[t].Waiting?
    requires s.pcs[t].sid < |s.states| && s.states[s.pcs[t].sid].received == 0
    ensures end == Run(s, actions) && NeverStopped(actions, t, s.pcs[t].slot.replica)
    ensures t in end.pcs && end.pcs[t] == s.pcs[t]
    ensures s.pcs[t].sid < |end.states| && end.states[s.pcs[t].sid].channel.Some?
  {
    var i := s.pcs[t].sid;
    assert LoadingOk(s, i);
    actions, end := [], s;
    if s.states[i].channel.None? {
      var u := s.states[i].owner;
      var first, mid := ToSending(s, u);
      end := Send(mid, u);
      actions := Followed(s, mid, end, first, Advance(u, Go));
    }
  }

  /** A waiter can still leave its wait without being cancelled exactly while nobody has received the
      load's message. */
  lemma {:induction false} WaiterCanLeave(s: State, t: Tid)
    requires Inv(s) && t in s.pcs && s.pcs[t].Waiting?
    ensures s.pcs[t].sid < |s.states|
    ensures (exists actions :: NeverStopped(actions, t, s.pcs[t].slot.replica)
                               && t in Run(s, actions).pcs && !Run(s, actions).pcs[t].Waiting?)
            <==> s.states[s.pcs[t].sid].received == 0
  {
    assert RequestOk(s, t);
    var i := s.pcs[t].sid;
    assert LoadingOk(s, i);
    if s.states[i].received == 0 {
      var first, mid := ToMessage(s, t);
      var end := Receive(mid, t);
      var actions := Followed(s, mid, end, first, Advance(t, Go));
    } else {
      forall actions | NeverStopped(actions, t, s.pcs[t].slot.replica)
        ensures t in Run(s, actions).pcs && Run(s, actions).pcs[t].Waiting?
      {
        StuckForever(s, actions, t, i);
      }
    }
  }

  /** It happens: two requests wait for a third one's load, and one of them is left behind. */
  lemma SecondWaiterLeftBehind(slot: Slot) returns (actions: seq<Action>)
    ensures Stuck(Run(INIT, actions), 2, 0)
  {
    var s: State;
    s, actions := OneLoadsTwoWait(slot);
    s, actions := Follow(s, actions, Advance(0, Fail(false)));
    s, actions := Follow(s, actions, Advance(0, Go));
    s, actions := Follow(s, actions, Advance(1, Go));
  }

  lemma OneLoadsTwoWait(slot: Slot) returns (s: State, actions: seq<Action>)
    ensures s == Run(INIT, actions)
    ensures s == State(map[0 := Creating(slot, 0), 1 := Waiting(slot, 0), 2 := Waiting(slot, 0)],
                       [Loading(slot, 0, None, 0, None, 0, false)], map[slot := 0], {}, map[], {})
  {
    s, actions := ThreeJoining(slot);
    s, actions := Follow(s, actions, Advance(0, Go));
    s, actions := Follow(s, actions, Advance(1, Go));
    s, actions := Follow(s, actions, Advance(2, Go));
  }

  lemma ThreeJoining(slot: Slot) returns (s: State, actions: seq<Action>)
    ensures s == Run(INIT, actions)
    ensures s == State(map[0 := Joining(slot), 1 := Joining(slot), 2 := Joining(slot)], [], map[], {}, map[], {})
  {
    s, actions := INIT, [];
    s, actions := Follow(s, actions, Arrive(0, slot));
    s, actions := Follow(s, actions, Arrive(1, slot));
    s, actions := Follow(s, actions, Arrive(2, slot));
    s, actions := Follow(s, actions, Advance(0, Go));
    s, actions := Follow(s, actions, Advance(1, Go));
    s, actions := Follow(s, actions, Advance(2, Go));
  }

  lemma Follow(s: State, actions: seq<Action>, a: Action) returns (s': State, actions': seq<Action>)
    requires s == Run(INIT, actions)
    ensures s' == Apply(s, a) && actions' == actions + [a] && s' == Run(INIT, actions')
  {
    s' := Apply(s, a);
    actions' := Followed(INIT, s, s', actions, a);
  }

  // ----- A lease left behind -----

  /** The holder of the lease has nobody at work on the model. */
  ghost predicate Abandoned(s: State, slot: Slot)
  {
    && slot.model in s.leases && s.leases[slot.model] == slot.replica
    && forall t :: t in s.pcs && s.pcs[t].slot == slot ==> Passive(s.pcs[t])
  }

  predicate Passive(pc: PC)
  {
    pc.Waiting? || pc.Looking? || pc.Returned?
  }

  lemma StaysPassive(s: State, t: Tid, o: Oracle)
    requires t in s.pcs
    ensures var s' := Step(s, t, o); t in s'.pcs && s'.pcs[t].slot == s.pcs[t].slot
    ensures Passive(s.pcs[t]) ==> Passive(Step(s, t, o).pcs[t])
  {
  }

  lemma AbandonedStep(s: State, a: Action, slot: Slot)
    requires Inv(s) && Abandoned(s, slot) && !(a.Arrive? && a.slot == slot)
    ensures Abandoned(Apply(s, a), slot)
  {
    if a.Advance? && a.tid in s.pcs {
      NobodyCritical(s, slot);
      LeaseStays(s, a.tid, a.oracle, slot.model);
      StaysPassive(s, a.tid, a.oracle);
      OnlyOneMoves(s, a.tid, a.oracle);
    }
  }

  /** The lease duration is written but never read: after a release that failed, as long as the holding
      replica itself has no new request for the model, the lease stays, and no request of any replica
      ever gets to load that model. */
  lemma {:induction false} LeaseNeverExpires(s: State, actions: seq<Action>, slot: Slot)
    requires Inv(s) && Abandoned(s, slot)
    requires forall a :: a in actions ==> !(a.Arrive? && a.slot == slot)
    ensures var end := Run(s, actions);
            && Abandoned(end, slot)
            && forall t :: t in end.pcs && end.pcs[t].slot.model == slot.model ==> !Critical(end.pcs[t])
  {
    if actions != [] {
      var init := actions[..|actions| - 1];
      LeaseNeverExpires(s, init, slot);
      RunInv(s, init);
      AbandonedStep(Run(s, init), actions[|actions| - 1], slot);
    }
    RunInv(s, actions);
    NobodyCritical(Run(s, actions), slot);
  }

  lemma NobodyCritical(s: State, slot: Slot)
    requires Inv(s) && Abandoned(s, slot)
    ensures forall t :: t in s.pcs && s.pcs[t].slot.model == slot.model ==> !Critical(s.pcs[t])
  {
    forall t | t in s.pcs && s.pcs[t].slot.model == slot.model ensures !Critical(s.pcs[t]) {
      assert RequestOk(s, t);
    }
  }

  /** One call that leaks is enough to get there, a delete or a create, exactly if those of its replica
      that ask for the model have nothing more to do with the lease: the request itself just returns. */
  lemma {:induction false} LeakAbandons(s: State, a: Action) returns (actions: seq<Action>, end: State)
    requires Inv(s) && LeakingCall(s, a)
    ensures end == Run(s, actions) && a.tid in end.pcs && end.pcs[a.tid].Returned?
    ensures actions == [a] + OnlyGoes(a.tid, |actions| - 1) && 2 <= |actions| <= 3
    ensures Abandoned(end, s.pcs[a.tid].slot) <==> OthersPassive(s, a.tid)
  {
    var mid := Leak(s, a);
    var n;
    n, end := ToReturned(mid, a.tid);
    actions := [a] + OnlyGoes(a.tid, n);
    PrependRun(s, a, OnlyGoes(a.tid, n));
    AbandonedBy(s, mid, end, a.tid);
  }

  /** `n` unhindered steps of request `t`. */
  function OnlyGoes(t: Tid, n: int): (actions: seq<Action>)
    ensures |actions| == if n < 0 then 0 else n
  {
    if n <= 0 then [] else OnlyGoes(t, n - 1) + [Advance(t, Go)]
  }

  lemma GoOn(s: State, mid: State, next: State, t: Tid, n: nat)
    requires mid == Run(s, OnlyGoes(t, n)) && next == Apply(mid, Advance(t, Go))
    ensures next == Run(s, OnlyGoes(t, n + 1))
  {
    RunAppend(s, OnlyGoes(t, n), Advance(t, Go));
  }

  /** A crash between acquisition and release is enough too: what the replica's name is on is abandoned
      at once. */
  lemma CrashAbandons(s: State, slot: Slot)
    requires Inv(s)
    ensures Abandoned(Apply(s, Crash(slot.replica)), slot)
            <==> slot.model in s.leases && s.leases[slot.model] == slot.replica
    ensures (exists t :: Holds(s, t, slot.model, slot.replica)) ==>
              Leaks(s, Crash(slot.replica)) && Abandoned(Apply(s, Crash(slot.replica)), slot)
  {
    if t :| Holds(s, t, slot.model, slot.replica) { assert RequestOk(s, t); }
  }

  /** What a crash takes, and what it leaves: the replica's requests and entries go, those of all others and
      every lease stay. */
  lemma CrashTakesExactly(s: State, replica: Name, t: Tid, slot: Slot)
    ensures var s' := Apply(s, Crash(replica));
            && (t in s'.pcs <==> t in s.pcs && s.pcs[t].slot.replica != replica)
            && (t in s'.pcs ==> s'.pcs[t] == s.pcs[t])
            && (slot in s'.loading <==> slot in s.loading && slot.replica != replica)
            && (slot in s'.loading ==> s'.loading[slot] == s.loading[slot])
            && (slot in s'.warm <==> slot in s.warm && slot.replica != replica)
            && s'.leases == s.leases && s'.states == s.states
  {
  }

  /** No other request of its replica has anything more to do with the lease. */
  ghost predicate OthersPassive(s: State, t: Tid)
    requires t in s.pcs
  {
    forall u :: u in s.pcs && u != t && s.pcs[u].slot == s.pcs[t].slot ==> Passive(s.pcs[u])
  }

  lemma Leak(s: State, a: Action) returns (next: State)
    requires Inv(s) && LeakingCall(s, a)
    ensures next == Apply(s, a) && a.tid in next.pcs && RoomToSend(next, a.tid)
    ensures next.pcs == s.pcs[a.tid := next.pcs[a.tid]]
    ensures (next.pcs[a.tid].Sending? && !Critical(next.pcs[a.tid])) || next.pcs[a.tid].Cleaning?
    ensures var slot := s.pcs[a.tid].slot;
            && next.pcs[a.tid].slot == slot
            && slot.model in next.leases && next.leases[slot.model] == slot.replica
  {
    LeakStep(s, a.tid, a.oracle);
    ApplyInv(s, a);
    next := Apply(s, a);
    OwnersHaveRoom(next, a.tid);
  }

  /** Without the lease there is only the failure to report and the entry to remove. */
  lemma {:induction false} ToReturned(s: State, t: Tid) returns (n: nat, end: State)
    requires t in s.pcs && RoomToSend(s, t)
    requires (s.pcs[t].Sending? && !Critical(s.pcs[t])) || s.pcs[t].Cleaning?
    ensures 1 <= n <= 2 && end == Run(s, OnlyGoes(t, n)) && end.leases == s.leases
    ensures t in end.pcs && end.pcs == s.pcs[t := end.pcs[t]]
    ensures end.pcs[t].Returned? && end.pcs[t].slot == s.pcs[t].slot
  {
    n, end := 0, s;
    if s.pcs[t].Sending? {
      end := SendFailure(s, t);
      GoOn(s, s, end, t, 0);
      n := 1;
    }
    var last := Clean(end, t);
    GoOn(s, end, last, t, n);
    n, end := n + 1, last;
  }

  lemma AbandonedBy(s: State, mid: State, end: State, t: Tid)
    requires t in s.pcs && t in mid.pcs && t in end.pcs && end.leases == mid.leases
    requires mid.pcs == s.pcs[t := mid.pcs[t]] && end.pcs == mid.pcs[t := end.pcs[t]]
    requires end.pcs[t].Returned? && end.pcs[t].slot == s.pcs[t].slot
    requires var slot := s.pcs[t].slot; slot.model in mid.leases && mid.leases[slot.model] == slot.replica
    ensures Abandoned(end, s.pcs[t].slot) <==> OthersPassive(s, t)
  {
    forall u | u in s.pcs && u != t ensures u in end.pcs && end.pcs[u] == s.pcs[u] { }
  }

  lemma SendFailure(s: State, t: Tid) returns (end: State)
    requires t in s.pcs && RoomToSend(s, t) && s.pcs[t].Sending? && !Critical(s.pcs[t])
    ensures end == Apply(s, Advance(t, Go)) && end.leases == s.leases
    ensures t in end.pcs && end.pcs == s.pcs[t := end.pcs[t]]
    ensures end.pcs[t].Cleaning? && end.pcs[t].slot == s.pcs[t].slot
  {
    end := Step(s, t, Go);
  }

  predicate RoomToSend(s: State, t: Tid)
    requires t in s.pcs
  {
    s.pcs[t].Sending? ==> s.pcs[t].sid < |s.states| && s.states[s.pcs[t].sid].channel.None?
  }

  lemma OwnersHaveRoom(s: State, t: Tid)
    requires Inv(s) && t in s.pcs
    ensures RoomToSend(s, t)
  {
    assert RequestOk(s, t);
    if s.pcs[t].Sending? { assert LoadingOk(s, s.pcs[t].sid); }
  }

  lemma Clean(s: State, t: Tid) returns (end: State)
    requires t in s.pcs && s.pcs[t].Cleaning?
    ensures end == Apply(s, Advance(t, Go)) && end.leases == s.leases
    ensures t in end.pcs && end.pcs == s.pcs[t := end.pcs[t]]
    ensures end.pcs[t].Returned? && end.pcs[t].slot == s.pcs[t].slot
  {
    end := Step(s, t, Go);
  }

  // ----- And how it is taken back -----

  /** The holding replica's next request for the model, unless it finds the model warm, takes the stale
      lease over and gets to load. */
  lemma {:induction false} NextRequestTakesOver(s: State, slot: Slot, t: Tid) returns (actions: seq<Action>, end: State)
    requires Inv(s) && Abandoned(s, slot) && slot !in s.warm && t !in s.pcs
    ensures actions == [Arrive(t, slot), Advance(t, Go), Advance(t, Go), Advance(t, Go), Advance(t, Go)]
    ensures end == Run(s, actions) && t in end.pcs && Critical(end.pcs[t]) && end.pcs[t].slot == slot
    ensures end.leases == s.leases
  {
    NobodyLoading(s, slot);
    var s1 := Apply(s, Arrive(t, slot));
    actions := Followed(s, s, s1, [], Arrive(t, slot));
    var s2 := Apply(s1, Advance(t, Go));
    actions := Followed(s, s1, s2, actions, Advance(t, Go));
    var s3 := Apply(s2, Advance(t, Go));
    actions := Followed(s, s2, s3, actions, Advance(t, Go));
    var s4 := Apply(s3, Advance(t, Go));
    actions := Followed(s, s3, s4, actions, Advance(t, Go));
    end := Apply(s4, Advance(t, Go));
    actions := Followed(s, s4, end, actions, Advance(t, Go));
  }

  lemma NobodyLoading(s: State, slot: Slot)
    requires Inv(s) && Abandoned(s, slot)
    ensures slot !in s.loading
  {
    if slot in s.loading {
      EntryHasOwner(s, slot);
    }
  }

  ghost predicate AskedOnly(actions: seq<Action>, asking: iset<Slot>)
  {
    forall a :: a in actions && a.Arrive? ==> a.slot in asking
  }

  ghost predicate SomebodyLoads(s: State, model: string)
  {
    exists t :: t in s.pcs && Critical(s.pcs[t]) && s.pcs[t].slot.model == model
  }

  lemma {:induction false} FreshTid(used: set<Tid>) returns (t: Tid)
    ensures forall u :: u in used ==> u < t
  {
    t := 0;
    if used != {} {
      var u :| u in used;
      var rest := FreshTid(used - {u});
      t := rest + u + 1;
      forall v | v in used ensures v < t { assert v == u || v in used - {u}; }
    }
  }

  /** So of an abandoned model: if new requests come only from `asking`, it can ever be loaded again
      exactly if the holding replica is among those asking for it. */
  lemma {:induction false} TakenOverExactly(s: State, slot: Slot, asking: iset<Slot>)
    requires Inv(s) && Abandoned(s, slot)
    ensures (exists actions :: AskedOnly(actions, asking) && SomebodyLoads(Run(s, actions), slot.model))
       <==> slot in asking
  {
    if slot in asking {
      var cold := Apply(s, Discover({}));
      ApplyInv(s, Discover({}));
      var t := FreshTid(s.pcs.Keys);
      var actions, end := NextRequestTakesOver(cold, slot, t);
      PrependRun(s, Discover({}), actions);
      assert AskedOnly([Discover({})] + actions, asking);
      assert SomebodyLoads(end, slot.model);
    } else {
      forall actions | AskedOnly(actions, asking) ensures !SomebodyLoads(Run(s, actions), slot.model) {
        LeaseNeverExpires(s, actions, slot);
      }
    }
  }

  lemma {:induction false} PrependRun(s: State, a: Action, actions: seq<Action>)
    ensures Run(s, [a] + actions) == Run(Apply(s, a), actions)
  {
    if actions == [] {
      assert [a] + actions == [] + [a];
      RunAppend(s, [], a);
    } else {
      var last := |actions| - 1;
      PrependRun(s, a, actions[..last]);
      assert [a] + actions == [a] + actions[..last] + [actions[last]];
      RunAppend(s, [a] + actions[..last], actions[last]);
    }
  }
}
