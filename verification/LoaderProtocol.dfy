/** The cold loader of internal/plugins/modelloader/loader.go as interleaved steps: any number of
    requests, each step one critical section or one external call. */
module LoaderProtocol {
  import opened Wrappers

  type Key = string
  type Tid = nat
  type Rid = nat
  type Verdict = Option<string>   // the load's error, None for success

  /** One loadResult object. `closes` counts close(done); `confirmed` and `recorded` remember that
      its owner saw the model warm and wrote it into the cache. */
  datatype LoadResult = LoadResult(key: Key, owner: Tid, closes: nat, err: Verdict, confirmed: bool, recorded: bool)

  /** How a request ends. */
  datatype Outcome =
    | Warm                 // found in the cache, or the pod answered warm
    | Loaded(rid: Rid)     // loaded the model itself
    | Joined(rid: Rid)     // waited for a load that worked
    | Failed(rid: Rid)     // its own load, or the one it waited for, failed
    | GaveUp               // its context was cancelled

  /** Where a request is. */
  datatype PC =
    | Checking(key: Key)                          // about to look at both maps
    | EarlyWaiting(key: Key, rid: Rid)            // joined a load in the first check
    | Querying(key: Key)                          // asking the pod
    | Caching(key: Key)                           // about to record a warm answer
    | MarkingWarm(key: Key)                       // about to mark the tracker, then done
    | MarkingCold(key: Key)                       // about to mark the tracker, then load
    | Entering(key: Key)                          // about to register the load
    | LateWaiting(key: Key, rid: Rid)             // joined a load while registering
    | Posting(key: Key, rid: Rid)                 // owner: load request sent
    | Polling(key: Key, rid: Rid)                 // owner: waiting for a warm status
    | Recording(key: Key, rid: Rid)               // owner: saw it warm, about to cache it
    | Closing(key: Key, rid: Rid, err: Verdict)   // owner: deferred cleanup
    | Unmarking(key: Key, outcome: Outcome)       // load failed: about to unmark the tracker
    | Invalidating(key: Key, outcome: Outcome)    // ... whose observer invalidates the cache
    | Finished(key: Key, outcome: Outcome)

  /** A request that left a wait because the channel was closed, or its own load, and what it went by. */
  datatype Seen = Seen(tid: Tid, rid: Rid, verdict: Verdict)

  /** The loader's maps, the tracker's marks, and what is so outside: `actual` holds the keys whose pod
      has the model, `pending` those unloaded by a dedup pass whose observer has yet to be called. */
  datatype State = State(
    pcs: map<Tid, PC>,
    results: seq<LoadResult>,
    loading: map<Key, Rid>,
    cached: set<Key>,
    marks: set<Key>,
    seen: set<Seen>,
    actual: set<Key>,
    pending: set<Key>)

  /** What the environment supplies to one step of one request. */
  datatype Oracle =
    | Go                    // nothing to decide
    | Cancel                // the request's context is cancelled
    | Answer(warm: bool)    // a status query's answer, warm only from a pod that has the model
    | Accepted              // the load request was accepted
    | Broken(msg: string)   // it, or the wait, failed
    | Unknown               // the tracker does not know the pod

  datatype Action =
    | Arrive(tid: Tid, key: Key)
    | Advance(tid: Tid, oracle: Oracle)
    | Warmed(key: Key)            // the pod finishes loading the model
    | Unload(key: Key)            // a dedup pass unloads it
    | Drop(key: Key)              // ... and its observer invalidates the entry
    | Vanish(key: Key)            // the pod loses the model by itself, say by a restart
    | Clear                       // the cache is cleared
    | Remark(marks: set<Key>)     // a poll or pass rewrites the tracker's view

  const INIT := State(map[], [], map[], {}, {}, {}, {}, {})

  function Goto(s: State, t: Tid, pc: PC): State
  {
    s.(pcs := s.pcs[t := pc])
  }

  /** One step of request `t`; a step its position does not allow leaves everything as it is. */
  function Step(s: State, t: Tid, o: Oracle): State
    requires t in s.pcs
  {
    match s.pcs[t]
    case Checking(k) =>
      if k in s.cached then Goto(s, t, MarkingWarm(k))
      else if k in s.loading then Goto(s, t, EarlyWaiting(k, s.loading[k]))
      else Goto(s, t, Querying(k))
    case EarlyWaiting(k, r) =>
      if o.Cancel? then Goto(s, t, Finished(k, GaveUp))
      else if r < |s.results| && s.results[r].closes > 0 then
        var v := s.results[r].err;
        Goto(s, t, if v == None then Finished(k, Joined(r)) else Querying(k)).(
          seen := s.seen + {Seen(t, r, v)})
      else s
    case Querying(k) =>
      if o != Answer(true) then Goto(s, t, MarkingCold(k))
      else if k in s.actual then Goto(s, t, Caching(k))
      else s
    case Caching(k) => Goto(s, t, MarkingWarm(k)).(cached := s.cached + {k})
    case MarkingWarm(k) => Goto(s, t, Finished(k, Warm)).(marks := s.marks + {k})
    case MarkingCold(k) => Goto(s, t, Entering(k)).(marks := s.marks + {k})
    case Entering(k) =>
      if k in s.loading then Goto(s, t, LateWaiting(k, s.loading[k]))
      else
        var r := |s.results|;
        Goto(s, t, Posting(k, r)).(results := s.results + [LoadResult(k, t, 0, None, false, false)],
                                   loading := s.loading[k := r])
    case LateWaiting(k, r) =>
      if o.Cancel? then Goto(s, t, Unmarking(k, GaveUp))
      else if r < |s.results| && s.results[r].closes > 0 then
        var v := s.results[r].err;
        Goto(s, t, if v == None then Finished(k, Joined(r)) else Unmarking(k, Failed(r))).(
          seen := s.seen + {Seen(t, r, v)})
      else s
    case Posting(k, r) =>
      if o.Accepted? then Goto(s, t, Polling(k, r))
      else if o.Broken? then Goto(s, t, Closing(k, r, Some(o.msg)))
      else s
    case Polling(k, r) =>
      if o == Answer(true) && r < |s.results| && k in s.actual then
        Goto(s, t, Recording(k, r)).(results := s.results[r := s.results[r].(confirmed := true)])
      else if o.Broken? then Goto(s, t, Closing(k, r, Some(o.msg)))
      else s
    case Recording(k, r) =>
      if r < |s.results| then
        Goto(s, t, Closing(k, r, None)).(cached := s.cached + {k},
                                         results := s.results[r := s.results[r].(recorded := true)])
      else s
    case Closing(k, r, err) =>
      if r < |s.results| then
        var x := s.results[r];
        Goto(s, t, if err == None then Finished(k, Loaded(r)) else Unmarking(k, Failed(r))).(
          loading := s.loading - {k},
          results := s.results[r := x.(err := err, closes := x.closes + 1)],
          seen := s.seen + {Seen(t, r, err)})
      else s
    case Unmarking(k, why) =>
      if o.Unknown? && k !in s.marks then Goto(s, t, Finished(k, why))
      else Goto(s, t, Invalidating(k, why)).(marks := s.marks - {k})
    case Invalidating(k, why) => Goto(s, t, Finished(k, why)).(cached := s.cached - {k})
    case Finished(_, _) => s
  }

  function Apply(s: State, a: Action): State
  {
    match a
    case Arrive(t, k) => if t in s.pcs then s else Goto(s, t, Checking(k))
    case Advance(t, o) => if t in s.pcs then Step(s, t, o) else s
    case Warmed(k) => s.(actual := s.actual + {k})
    case Unload(k) => s.(actual := s.actual - {k}, pending := s.pending + {k})
    case Vanish(k) => s.(actual := s.actual - {k})
    case Drop(k) => s.(cached := s.cached - {k}, pending := s.pending - {k})
    case Clear => s.(cached := {})
    case Remark(marks) => s.(marks := marks)
  }

  function Run(s: State, actions: seq<Action>): State
  {
    if actions == [] then s else Apply(Run(s, actions[..|actions| - 1]), actions[|actions| - 1])
  }

  // ----- The invariant -----

  predicate Owns(pc: PC)
  {
    pc.Posting? || pc.Polling? || pc.Recording? || pc.Closing?
  }

  predicate Waits(pc: PC)
  {
    pc.EarlyWaiting? || pc.LateWaiting?
  }

  predicate Open(s: State, r: Rid)
  {
    r < |s.results| && s.results[r].closes == 0
  }

  /** An open result is registered under its key, and its owner is still on it. */
  ghost predicate ResultOk(s: State, r: Rid)
    requires r < |s.results|
  {
    var x := s.results[r];
    && (x.closes == 0 ==>
          && x.key in s.loading && s.loading[x.key] == r
          && x.owner in s.pcs && Owns(s.pcs[x.owner]) && s.pcs[x.owner].rid == r)
    && x.closes <= 1
    && (x.closes == 1 ==> Seen(x.owner, r, x.err) in s.seen)
    && (x.closes == 1 && x.err == None ==> x.confirmed && x.recorded)
  }

  predicate ClosedFor(s: State, r: Rid, key: Key)
  {
    r < |s.results| && s.results[r].key == key && s.results[r].closes == 1
  }

  predicate SaysOf(s: State, e: Seen)
  {
    e.rid < |s.results| && s.results[e.rid].closes == 1 && s.results[e.rid].err == e.verdict
  }

  /** What a request goes by at its end is the closed result of its key. */
  ghost predicate OutcomeOk(s: State, t: Tid, key: Key, outcome: Outcome)
  {
    match outcome
    case Loaded(r) => ClosedFor(s, r, key) && s.results[r].err == None && s.results[r].owner == t
    case Joined(r) => ClosedFor(s, r, key) && s.results[r].err == None
    case Failed(r) => ClosedFor(s, r, key) && s.results[r].err != None
    case Warm => true
    case GaveUp => true
  }

  ghost predicate RequestOk(s: State, t: Tid)
    requires t in s.pcs
  {
    var pc := s.pcs[t];
    && (Owns(pc) ==>
          && Open(s, pc.rid) && s.results[pc.rid].owner == t && s.results[pc.rid].key == pc.key
          && (pc.Recording? ==> s.results[pc.rid].confirmed)
          && (pc.Closing? && pc.err == None ==> s.results[pc.rid].confirmed && s.results[pc.rid].recorded))
    && (Waits(pc) ==> pc.rid < |s.results| && s.results[pc.rid].key == pc.key)
    && (pc.Unmarking? || pc.Invalidating? || pc.Finished? ==> OutcomeOk(s, t, pc.key, pc.outcome))
    && (pc.Unmarking? || pc.Invalidating? ==> pc.outcome.Failed? || pc.outcome.GaveUp?)
  }

  ghost predicate Inv(s: State)
  {
    && (forall k :: k in s.loading ==> Open(s, s.loading[k]) && s.results[s.loading[k]].key == k)
    && (forall r: Rid :: r < |s.results| ==> ResultOk(s, r))
    && (forall t :: t in s.pcs ==> RequestOk(s, t))
    && (forall e :: e in s.seen ==> SaysOf(s, e))
  }

  /** Only request `t` moves, and it owns nothing before or after. */
  lemma MoveInv(s: State, s': State, t: Tid)
    requires Inv(s)
    requires t in s'.pcs && s'.pcs == s.pcs[t := s'.pcs[t]]
    requires s'.results == s.results && s'.loading == s.loading
    requires (t in s.pcs ==> !Owns(s.pcs[t])) && !Owns(s'.pcs[t]) && RequestOk(s', t)
    requires s.seen <= s'.seen
    requires forall e :: e in s'.seen && e !in s.seen ==>
               e.rid < |s.results| && s.results[e.rid].closes > 0 && s.results[e.rid].err == e.verdict
    ensures Inv(s')
  {
    forall r: Rid | r < |s'.results| ensures ResultOk(s', r) { assert ResultOk(s, r); }
    forall u | u in s'.pcs ensures RequestOk(s', u) {
      if u != t { assert RequestOk(s, u); }
    }
    forall e | e in s'.seen ensures SaysOf(s', e) {
      if e in s.seen { assert SaysOf(s, e); } else { assert ResultOk(s, e.rid); }
    }
  }

  /** The owner of open result `r` moves on, and may note something about it. */
  lemma OwnerInv(s: State, s': State, t: Tid, r: Rid)
    requires Inv(s) && t in s.pcs && Owns(s.pcs[t]) && s.pcs[t].rid == r
    requires t in s'.pcs && s'.pcs == s.pcs[t := s'.pcs[t]]
    requires Owns(s'.pcs[t]) && s'.pcs[t].rid == r && RequestOk(s', t)
    requires r < |s.results| && s'.loading == s.loading && s'.seen == s.seen
    requires exists x :: s'.results == s.results[r := x]
                         && x.key == s.results[r].key && x.owner == s.results[r].owner && x.closes == 0
    ensures Inv(s')
  {
    assert RequestOk(s, t);
    forall q: Rid | q < |s'.results| ensures ResultOk(s', q) { assert ResultOk(s, q); }
    forall u | u in s'.pcs ensures RequestOk(s', u) {
      if u != t { assert RequestOk(s, u); }
    }
  }

  lemma EnterInv(s: State, t: Tid, k: Key)
    requires Inv(s) && t in s.pcs && s.pcs[t] == Entering(k) && k !in s.loading
    ensures Inv(Step(s, t, Go))
  {
    var s' := Step(s, t, Go);
    forall q: Rid | q < |s'.results| ensures ResultOk(s', q) {
      if q < |s.results| { assert ResultOk(s, q); }
    }
    forall u | u in s'.pcs ensures RequestOk(s', u) {
      if u != t { assert RequestOk(s, u); }
    }
  }

  lemma CloseInv(s: State, t: Tid)
    requires Inv(s) && t in s.pcs && s.pcs[t].Closing?
    ensures Inv(Step(s, t, Go))
  {
    var s' := Step(s, t, Go);
    var r := s.pcs[t].rid;
    assert RequestOk(s, t);
    assert ResultOk(s, r);
    forall q: Rid | q < |s'.results| ensures ResultOk(s', q) { assert ResultOk(s, q); }
    forall u | u in s'.pcs ensures RequestOk(s', u) {
      if u != t { assert RequestOk(s, u); }
    }
  }

  lemma OwnerStepInv(s: State, t: Tid, o: Oracle)
    requires Inv(s) && t in s.pcs && Owns(s.pcs[t]) && !s.pcs[t].Closing?
    ensures Inv(Step(s, t, o))
  {
    var s' := Step(s, t, o);
    var r := s.pcs[t].rid;
    assert RequestOk(s, t);
    if s' != s {
      assert s'.results == s.results[r := s'.results[r]];
      OwnerInv(s, s', t, r);
    }
  }

  lemma WaiterStepInv(s: State, t: Tid, o: Oracle)
    requires Inv(s) && t in s.pcs && Waits(s.pcs[t])
    ensures Inv(Step(s, t, o))
  {
    assert RequestOk(s, t);
    assert ResultOk(s, s.pcs[t].rid);
    if Step(s, t, o) != s { MoveInv(s, Step(s, t, o), t); }
  }

  lemma MarkStepInv(s: State, t: Tid, o: Oracle)
    requires Inv(s) && t in s.pcs
    requires s.pcs[t].Querying? || s.pcs[t].Caching? || s.pcs[t].MarkingWarm? || s.pcs[t].MarkingCold?
    ensures Inv(Step(s, t, o))
  {
    if Step(s, t, o) != s { MoveInv(s, Step(s, t, o), t); }
  }

  lemma RetractStepInv(s: State, t: Tid, o: Oracle)
    requires Inv(s) && t in s.pcs && (s.pcs[t].Unmarking? || s.pcs[t].Invalidating? || s.pcs[t].Finished?)
    ensures Inv(Step(s, t, o))
  {
    assert RequestOk(s, t);
    MoveInv(s, Step(s, t, o), t);
  }

  lemma JoinStepInv(s: State, t: Tid, o: Oracle)
    requires Inv(s) && t in s.pcs
    requires s.pcs[t].Checking? || (s.pcs[t].Entering? && s.pcs[t].key in s.loading)
    ensures Inv(Step(s, t, o))
  {
    MoveInv(s, Step(s, t, o), t);
  }

  lemma StepInv(s: State, t: Tid, o: Oracle)
    requires Inv(s) && t in s.pcs
    ensures Inv(Step(s, t, o))
  {
    var pc := s.pcs[t];
    if pc.Closing? {
      CloseInv(s, t);
    } else if Owns(pc) {
      OwnerStepInv(s, t, o);
    } else if Waits(pc) {
      WaiterStepInv(s, t, o);
    } else if pc.Entering? && pc.key !in s.loading {
      EnterInv(s, t, pc.key);
    } else if pc.Checking? || pc.Entering? {
      JoinStepInv(s, t, o);
    } else if pc.Unmarking? || pc.Invalidating? || pc.Finished? {
      RetractStepInv(s, t, o);
    } else {
      MarkStepInv(s, t, o);
    }
  }

  lemma {:induction false} RunInv(s: State, actions: seq<Action>)
    requires Inv(s)
    ensures Inv(Run(s, actions))
  {
    if actions != [] {
      RunInv(s, actions[..|actions| - 1]);
      ApplyInv(Run(s, actions[..|actions| - 1]), actions[|actions| - 1]);
    }
  }

  lemma ApplyInv(s: State, a: Action)
    requires Inv(s)
    ensures Inv(Apply(s, a))
  {
    match a
    case Arrive(t, k) =>
      if t !in s.pcs { MoveInv(s, Apply(s, a), t); }
    case Advance(t, o) =>
      if t in s.pcs { StepInv(s, t, o); }
    case _ => SameRequestsInv(s, Apply(s, a));
  }

  lemma SameRequestsInv(s: State, s': State)
    requires Inv(s) && s'.pcs == s.pcs && s'.results == s.results && s'.loading == s.loading && s'.seen == s.seen
    ensures Inv(s')
  {
    forall r: Rid | r < |s'.results| ensures ResultOk(s', r) { assert ResultOk(s, r); }
    forall u | u in s'.pcs ensures RequestOk(s', u) { assert RequestOk(s, u); }
  }

  // ----- What every interleaving guarantees -----

  ghost predicate OwnerOf(s: State, t: Tid, k: Key)
  {
    t in s.pcs && Owns(s.pcs[t]) && s.pcs[t].key == k
  }

  /** Single flight: at most one request is loading a key, it is the one the map names, and the map
      has no entry for a key nobody is loading. */
  lemma {:induction false} SingleFlight(actions: seq<Action>, k: Key)
    ensures var s := Run(INIT, actions);
            && (forall t, u :: OwnerOf(s, t, k) && OwnerOf(s, u, k) ==> t == u)
            && (k in s.loading <==> exists t :: OwnerOf(s, t, k))
  {
    var s := Run(INIT, actions);
    RunInv(INIT, actions);
    forall t, u | OwnerOf(s, t, k) && OwnerOf(s, u, k) ensures t == u && k in s.loading {
      assert RequestOk(s, t) && RequestOk(s, u);
      assert ResultOk(s, s.pcs[t].rid) && ResultOk(s, s.pcs[u].rid);
    }
    if k in s.loading {
      var r := s.loading[k];
      assert ResultOk(s, r);
      assert RequestOk(s, s.results[r].owner);
      assert OwnerOf(s, s.results[r].owner, k);
    }
  }

  /** No stranded waiter: the result a request waits for is closed, or registered under the
      request's key with a live owner. */
  lemma {:induction false} NoStrandedWaiter(actions: seq<Action>, t: Tid)
    requires t in Run(INIT, actions).pcs && Waits(Run(INIT, actions).pcs[t])
    ensures var s := Run(INIT, actions); var k, r := s.pcs[t].key, s.pcs[t].rid;
            && r < |s.results|
            && (s.results[r].closes == 1
                || (k in s.loading && s.loading[k] == r
                    && OwnerOf(s, s.results[r].owner, k) && s.pcs[s.results[r].owner].rid == r))
  {
    var s := Run(INIT, actions);
    RunInv(INIT, actions);
    assert RequestOk(s, t);
    var r := s.pcs[t].rid;
    assert ResultOk(s, r);
    if s.results[r].closes == 0 { assert RequestOk(s, s.results[r].owner); }
  }

  /** A closed result is closed once and never changes again. */
  lemma {:induction false} ClosedForever(s: State, actions: seq<Action>, r: Rid)
    requires Inv(s) && r < |s.results| && s.results[r].closes > 0
    ensures var end := Run(s, actions);
            r < |end.results| && end.results[r] == s.results[r] && end.results[r].closes == 1
  {
    assert ResultOk(s, r);
    if actions != [] {
      var init := actions[..|actions| - 1];
      ClosedForever(s, init, r);
      RunInv(s, init);
      ClosedStays(Run(s, init), actions[|actions| - 1], r);
    }
  }

  lemma ClosedStays(s: State, a: Action, r: Rid)
    requires Inv(s) && r < |s.results| && s.results[r].closes > 0
    ensures r < |Apply(s, a).results| && Apply(s, a).results[r] == s.results[r]
  {
    if a.Advance? && a.tid in s.pcs {
      assert RequestOk(s, a.tid);
    }
  }

  /** Broadcast: everyone who went by a closed result, its owner included, went by one verdict, and
      that was success only if the owner had seen the model warm and recorded it. */
  lemma {:induction false} Broadcast(actions: seq<Action>, a: Seen)
    requires a in Run(INIT, actions).seen
    ensures var s := Run(INIT, actions);
            && a.rid < |s.results| && s.results[a.rid].closes == 1
            && Seen(s.results[a.rid].owner, a.rid, a.verdict) in s.seen
            && (forall b :: b in s.seen && b.rid == a.rid ==> b.verdict == a.verdict)
            && (a.verdict == None ==> s.results[a.rid].confirmed && s.results[a.rid].recorded)
  {
    RunInv(INIT, actions);
    assert ResultOk(Run(INIT, actions), a.rid);
  }

  /** A request that ends by a load ends by what that load's owner published for its key; and only a
      failed or abandoned load is ever retracted. */
  lemma {:induction false} OutcomeIsTheVerdict(actions: seq<Action>, t: Tid)
    requires t in Run(INIT, actions).pcs
    ensures var s := Run(INIT, actions); var pc := s.pcs[t];
            && (pc.Finished? ==> OutcomeOk(s, t, pc.key, pc.outcome))
            && (pc.Finished? && (pc.outcome.Joined? || pc.outcome.Loaded?) ==>
                  s.results[pc.outcome.rid].confirmed && s.results[pc.outcome.rid].recorded)
            && (pc.Unmarking? ==> OutcomeOk(s, t, pc.key, pc.outcome) && (pc.outcome.Failed? || pc.outcome.GaveUp?))
  {
    var s := Run(INIT, actions);
    RunInv(INIT, actions);
    assert RequestOk(s, t);
    forall r: Rid | r < |s.results|
      ensures s.results[r].closes == 1 && s.results[r].err == None ==>
                s.results[r].confirmed && s.results[r].recorded
    {
      assert ResultOk(s, r);
    }
  }

  /** A result is noted as confirmed only when its owner gets a warm answer from a pod that has the
      model, and as recorded only by the step that puts its key into the cache. */
  lemma NotedWhenDone(s: State, a: Action, r: Rid)
    requires Inv(s) && r < |s.results|
    ensures var s' := Apply(s, a);
            && r < |s'.results|
            && (s'.results[r].confirmed && !s.results[r].confirmed ==>
                  a == Advance(s.results[r].owner, Answer(true)) && s.results[r].key in s.actual)
            && (s'.results[r].recorded && !s.results[r].recorded ==>
                  s.results[r].confirmed && s.results[r].key in s'.cached)
  {
    if a.Advance? && a.tid in s.pcs {
      assert RequestOk(s, a.tid);
    }
  }

  lemma {:induction false} RunAppend(s: State, actions: seq<Action>, a: Action)
    ensures Run(s, actions + [a]) == Apply(Run(s, actions), a)
  {
    assert (actions + [a])[..|actions|] == actions;
  }

  predicate Moves(a: Action, t: Tid)
  {
    a.Advance? && a.tid == t
  }

  lemma OthersKeepPlace(s: State, a: Action, t: Tid)
    requires !Moves(a, t)
    ensures t in s.pcs ==> t in Apply(s, a).pcs && Apply(s, a).pcs[t] == s.pcs[t]
    ensures t !in s.pcs && t in Apply(s, a).pcs ==> Apply(s, a).pcs[t].Checking?
  {
    if a.Advance? && a.tid in s.pcs { OnlyOneMoves(s, a.tid, a.oracle, t); }
  }

  lemma OnlyOneMoves(s: State, t: Tid, o: Oracle, u: Tid)
    requires t in s.pcs && u != t
    ensures u in s.pcs ==> u in Step(s, t, o).pcs && Step(s, t, o).pcs[u] == s.pcs[u]
    ensures u !in s.pcs ==> u !in Step(s, t, o).pcs
  {
  }

  ghost predicate OthersStay(s: State, s': State, u: Tid)
  {
    forall t :: t in s.pcs && t != u ==> t in s'.pcs && s'.pcs[t] == s.pcs[t]
  }

  lemma CanReachClosing(s: State, u: Tid) returns (o: Oracle, s': State)
    requires Inv(s) && u in s.pcs && Owns(s.pcs[u]) && !s.pcs[u].Closing?
    ensures s' == Apply(s, Advance(u, o)) && Inv(s') && o != Cancel
    ensures u in s'.pcs && s'.pcs[u].Closing? && s'.pcs[u].rid == s.pcs[u].rid && OthersStay(s, s', u)
  {
    assert RequestOk(s, u);
    o := if s.pcs[u].Recording? then Go else Broken("");
    s' := Step(s, u, o);
    StepInv(s, u, o);
  }

  lemma CloseCloses(s: State, u: Tid) returns (s': State)
    requires Inv(s) && u in s.pcs && s.pcs[u].Closing?
    ensures s' == Apply(s, Advance(u, Go))
    ensures var r := s.pcs[u].rid; r < |s'.results| && s'.results[r].closes > 0 && OthersStay(s, s', u)
  {
    assert RequestOk(s, u);
    s' := Step(s, u, Go);
  }

  lemma WaiterLeaves(s: State, t: Tid) returns (s': State)
    requires t in s.pcs && Waits(s.pcs[t]) && s.pcs[t].rid < |s.results| && s.results[s.pcs[t].rid].closes > 0
    ensures s' == Apply(s, Advance(t, Go)) && t in s'.pcs && !Waits(s'.pcs[t])
  {
    s' := Step(s, t, Go);
  }

  ghost predicate OnlyBy(actions: seq<Action>, u: Tid, t: Tid)
  {
    forall a :: a in actions ==> a.Advance? && a.oracle != Cancel && (a.tid == t || a.tid == u)
  }

  lemma {:induction false} ToClosing(s: State, u: Tid) returns (actions: seq<Action>, end: State)
    requires Inv(s) && u in s.pcs && Owns(s.pcs[u])
    ensures |actions| <= 1 && OnlyBy(actions, u, u) && end == Run(s, actions) && Inv(end)
    ensures u in end.pcs && end.pcs[u].Closing? && end.pcs[u].rid == s.pcs[u].rid && OthersStay(s, end, u)
  {
    actions, end := [], s;
    if !s.pcs[u].Closing? {
      var o;
      o, end := CanReachClosing(s, u);
      actions := Followed(s, s, end, [], Advance(u, o));
    }
  }

  lemma {:induction false} OwnerCanClose(s: State, u: Tid) returns (actions: seq<Action>, end: State)
    requires Inv(s) && u in s.pcs && Owns(s.pcs[u])
    ensures |actions| <= 2 && OnlyBy(actions, u, u) && end == Run(s, actions)
    ensures var r := s.pcs[u].rid; r < |end.results| && end.results[r].closes > 0 && OthersStay(s, end, u)
  {
    var first, mid := ToClosing(s, u);
    end := CloseCloses(mid, u);
    actions := Followed(s, mid, end, first, Advance(u, Go));
  }

  lemma Followed(s: State, mid: State, next: State, actions: seq<Action>, a: Action) returns (longer: seq<Action>)
    requires mid == Run(s, actions) && next == Apply(mid, a)
    ensures longer == actions + [a] && next == Run(s, longer)
  {
    RunAppend(s, actions, a);
    longer := actions + [a];
  }

  /** And no waiter has to wait for more than its owner: from every reachable state at most two steps
      of the owner, and one of the waiter, end the wait. */
  lemma {:induction false} WaitCanEnd(s: State, t: Tid) returns (actions: seq<Action>, end: State)
    requires Inv(s) && t in s.pcs && Waits(s.pcs[t])
    ensures |actions| <= 3 && s.pcs[t].rid < |s.results| && OnlyBy(actions, s.results[s.pcs[t].rid].owner, t)
    ensures end == Run(s, actions) && t in end.pcs && !Waits(end.pcs[t])
  {
    var r := s.pcs[t].rid;
    assert RequestOk(s, t);
    assert ResultOk(s, r);
    actions, end := [], s;
    if s.results[r].closes == 0 {
      actions, end := OwnerCanClose(s, s.results[r].owner);
    }
    var last := WaiterLeaves(end, t);
    actions := Followed(s, end, last, actions, Advance(t, Go));
    end := last;
  }

  // ----- What it does not guarantee -----

  /** The step takes the mark of `k`: a rewrite of the tracker's view that leaves it out, or a request
      retracting it. */
  predicate Retracts(s: State, a: Action, k: Key)
  {
    || (a.Remark? && k !in a.marks)
    || (a.Advance? && a.tid in s.pcs && s.pcs[a.tid].Unmarking? && s.pcs[a.tid].key == k)
  }

  lemma MarkLostExactly(s: State, a: Action, k: Key)
    requires k in s.marks
    ensures k !in Apply(s, a).marks <==> Retracts(s, a, k)
  {
    if a.Advance? && a.tid in s.pcs { MarkStep(s, a.tid, a.oracle, k); }
  }

  /** And it is there again exactly by a rewrite that has it, or a request marking that very pair. */
  lemma MarkGainedExactly(s: State, a: Action, k: Key)
    requires k !in s.marks
    ensures k in Apply(s, a).marks
       <==> (a.Remark? && k in a.marks)
            || (a.Advance? && a.tid in s.pcs && s.pcs[a.tid].key == k
                && (s.pcs[a.tid].MarkingWarm? || s.pcs[a.tid].MarkingCold?))
  {
    if a.Advance? && a.tid in s.pcs { NewMarkStep(s, a.tid, a.oracle, k); }
  }

  lemma NewMarkStep(s: State, t: Tid, o: Oracle, k: Key)
    requires t in s.pcs && k !in s.marks
    ensures k in Step(s, t, o).marks
       <==> s.pcs[t].key == k && (s.pcs[t].MarkingWarm? || s.pcs[t].MarkingCold?)
  {
  }

  lemma MarkStep(s: State, t: Tid, o: Oracle, k: Key)
    requires t in s.pcs && k in s.marks
    ensures k !in Step(s, t, o).marks <==> s.pcs[t].Unmarking? && s.pcs[t].key == k
  {
  }

  predicate MarkedAfter(s: State, actions: seq<Action>, k: Key, i: nat)
    requires i <= |actions|
  {
    k in Run(s, actions[..i]).marks
  }

  predicate RetractedAt(s: State, actions: seq<Action>, k: Key, i: nat)
    requires i < |actions|
  {
    Retracts(Run(s, actions[..i]), actions[i], k)
  }

  /** From any state with the mark it stays along a run exactly if no step of the run takes it. */
  lemma {:induction false} MarkStays(s: State, actions: seq<Action>, k: Key)
    requires k in s.marks
    ensures (forall i :: 0 <= i <= |actions| ==> MarkedAfter(s, actions, k, i))
       <==> (forall i :: 0 <= i < |actions| ==> !RetractedAt(s, actions, k, i))
  {
    if actions == [] {
      assert MarkedAfter(s, actions, k, 0);
    } else {
      var last := |actions| - 1;
      var init := actions[..last];
      MarkStays(s, init, k);
      forall i | 0 <= i <= last
        ensures MarkedAfter(s, actions, k, i) <==> MarkedAfter(s, init, k, i)
        ensures i < last ==> (RetractedAt(s, actions, k, i) <==> RetractedAt(s, init, k, i))
      {
        assert init[..i] == actions[..i];
      }
      MarkInRun(s, actions, k);
    }
  }

  lemma MarkInRun(s: State, actions: seq<Action>, k: Key)
    requires actions != []
    ensures var last := |actions| - 1;
            MarkedAfter(s, actions, k, last) ==>
              (MarkedAfter(s, actions, k, last + 1) <==> !RetractedAt(s, actions, k, last))
  {
    var last := |actions| - 1;
    assert actions[..last + 1] == actions;
    if MarkedAfter(s, actions, k, last) { MarkLostExactly(Run(s, actions[..last]), actions[last], k); }
  }

  /** So a load is marked from the step before it starts for as long as nobody takes the mark, and no
      longer. */
  lemma MarkedWhileLoading(s: State, t: Tid, o: Oracle, k: Key, actions: seq<Action>)
    requires t in s.pcs && s.pcs[t] == MarkingCold(k)
    ensures var s' := Apply(s, Advance(t, o));
            && t in s'.pcs && s'.pcs[t] == Entering(k)
            && ((forall i :: 0 <= i <= |actions| ==> MarkedAfter(s', actions, k, i))
                <==> (forall i :: 0 <= i < |actions| ==> !RetractedAt(s', actions, k, i)))
  {
    MarkStays(Apply(s, Advance(t, o)), actions, k);
  }

  /** The request that takes it need not be the one loading: a waiter whose context is cancelled retracts the mark
      while the load is still going on. */
  lemma CancelledWaiterUnmarks(k: Key) returns (actions: seq<Action>)
    ensures var s := Run(INIT, actions); OwnerOf(s, 0, k) && s.pcs[0].Posting? && k !in s.marks
    ensures forall a :: a in actions ==> a.Arrive? || a.Advance?
  {
    var s: State;
    s, actions := BothEntering(k);
    s, actions := Follow(s, actions, Advance(0, Go));
    s, actions := Follow(s, actions, Advance(1, Go));
    s, actions := Follow(s, actions, Advance(1, Cancel));
    s, actions := Follow(s, actions, Advance(1, Go));
  }

  lemma BothEntering(k: Key) returns (s: State, actions: seq<Action>)
    ensures s == Run(INIT, actions)
    ensures s == State(map[0 := Entering(k), 1 := Entering(k)], [], map[], {}, {k}, {}, {}, {})
    ensures forall a :: a in actions ==> a.Arrive? || a.Advance?
  {
    s, actions := BothQuerying(k);
    s, actions := Follow(s, actions, Advance(0, Answer(false)));
    s, actions := Follow(s, actions, Advance(1, Answer(false)));
    s, actions := Follow(s, actions, Advance(0, Go));
    s, actions := Follow(s, actions, Advance(1, Go));
  }

  lemma BothQuerying(k: Key) returns (s: State, actions: seq<Action>)
    ensures s == Run(INIT, actions)
    ensures s == State(map[0 := Querying(k), 1 := Querying(k)], [], map[], {}, {}, {}, {}, {})
    ensures forall a :: a in actions ==> a.Arrive? || a.Advance?
  {
    s, actions := INIT, [];
    s, actions := Follow(s, actions, Arrive(0, k));
    s, actions := Follow(s, actions, Arrive(1, k));
    s, actions := Follow(s, actions, Advance(0, Go));
    s, actions := Follow(s, actions, Advance(1, Go));
  }

  lemma Follow(s: State, actions: seq<Action>, a: Action) returns (s': State, actions': seq<Action>)
    requires s == Run(INIT, actions)
    ensures s' == Apply(s, a) && actions' == actions + [a] && s' == Run(INIT, actions')
  {
    s' := Apply(s, a);
    actions' := Followed(INIT, s, s', actions, a);
  }
}
