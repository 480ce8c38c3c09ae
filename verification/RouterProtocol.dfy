/** The two-level load lock of internal/router/router.go as interleaved steps: any number of replicas,
    requests and models. Level one is a replica's own map of loads, level two a Kubernetes Lease per
    model. Every step is one critical section, one channel operation or one API call. */
module RouterProtocol {
  import opened Wrappers

  type Name = string
  type Tid = nat
  type Sid = nat

  datatype Msg = Loaded | LoadFailed

  /** A model at one replica: a key of that replica's maps. */
  datatype Slot = Slot(replica: Name, model: string)

  /** One LoadingState object; its channel holds at most one message. `sent`, `said`, `received` and
      `wrote` remember how often and what its owner sent, how often that was received, and whether
      the owner wrote the models map. */
  datatype Loading = Loading(
    slot: Slot,
    owner: Tid,
    channel: Option<Msg>,
    sent: nat,
    said: Option<Msg>,
    received: nat,
    wrote: bool)

  /** How a request ended. */
  datatype Outcome =
    | WasWarm                    // found the model warm
    | Own(sid: Sid, ok: bool)    // ran the load itself
    | Told(sid: Sid, found: bool)  // was told it is loaded, and found it in the map or not
    | ToldFailed(sid: Sid)       // was told the load failed
    | GaveUp                     // its context was cancelled

  datatype PC =
    | Checking(slot: Slot)                             // about to look for a warm model
    | Joining(slot: Slot)                              // about to look for a load in progress
    | Waiting(slot: Slot, sid: Sid)                    // on somebody else's channel
    | Looking(slot: Slot, sid: Sid)                    // was told the model is loaded
    | Creating(slot: Slot, sid: Sid)                   // lease create call
    | Getting(slot: Slot, sid: Sid)                    // lease get call, after "already exists"
    | LoadingModel(slot: Slot, sid: Sid)               // lease acquired
    | Writing(slot: Slot, sid: Sid)                    // pod loaded, about to write the models map
    | Sending(slot: Slot, sid: Sid, msg: Msg, held: bool)
    | Releasing(slot: Slot, sid: Sid, ok: bool)        // lease delete call
    | Cleaning(slot: Slot, sid: Sid, ok: bool)         // deferred delete from the map of loads
    | Returned(slot: Slot, outcome: Outcome)

  /** `lost` holds the loads whose replica has crashed since. */
  datatype State = State(
    pcs: map<Tid, PC>,
    states: seq<Loading>,
    loading: map<Slot, Sid>,
    warm: set<Slot>,
    leases: map<string, Name>,
    lost: set<Sid>)

  /** `Fail(effect)`: the call reports an error, having taken effect or not. */
  datatype Oracle = Go | Cancel | Fail(effect: bool)

  datatype Action =
    | Arrive(tid: Tid, slot: Slot)
    | Advance(tid: Tid, oracle: Oracle)
    | Discover(warm: set<Slot>)       // warm-model discovery rewrites the models maps
    | Crash(replica: Name)            // a replica loses its requests and its maps, and may start again

  const INIT := State(map[], [], map[], {}, map[], {})

  function Goto(s: State, t: Tid, pc: PC): State
  {
    s.(pcs := s.pcs[t := pc])
  }

  function Step(s: State, t: Tid, o: Oracle): State
    requires t in s.pcs
  {
    var pc := s.pcs[t];
    var m := pc.slot.model;
    var me := pc.slot.replica;
    match pc
    case Checking(slot) => if slot in s.warm then Goto(s, t, Returned(slot, WasWarm)) else Goto(s, t, Joining(slot))
    case Joining(slot) =>
      if slot in s.loading then Goto(s, t, Waiting(slot, s.loading[slot]))
      else
        Goto(s, t, Creating(slot, |s.states|)).(states := s.states + [Loading(slot, t, None, 0, None, 0, false)],
                                                loading := s.loading[slot := |s.states|])
    case Waiting(slot, i) =>
      if o.Cancel? then Goto(s, t, Returned(slot, GaveUp))
      else if i < |s.states| && s.states[i].channel.Some? then
        Goto(s, t, if s.states[i].channel.value.Loaded? then Looking(slot, i) else Returned(slot, ToldFailed(i))).(
          states := s.states[i := s.states[i].(channel := None, received := s.states[i].received + 1)])
      else s
    case Looking(slot, i) => Goto(s, t, Returned(slot, Told(i, slot in s.warm)))
    case Creating(slot, i) =>
      if o.Fail? then
        Goto(s, t, Sending(slot, i, LoadFailed, false)).(
          leases := if o.effect && m !in s.leases then s.leases[m := me] else s.leases)
      else if m in s.leases then Goto(s, t, Getting(slot, i))
      else Goto(s, t, LoadingModel(slot, i)).(leases := s.leases[m := me])
    case Getting(slot, i) =>
      if o.Fail? || m !in s.leases || s.leases[m] != me then Goto(s, t, Sending(slot, i, LoadFailed, false))
      else Goto(s, t, LoadingModel(slot, i))
    case LoadingModel(slot, i) =>
      if o.Fail? then Goto(s, t, Sending(slot, i, LoadFailed, true)) else Goto(s, t, Writing(slot, i))
    case Writing(slot, i) =>
      if i < |s.states| then
        Goto(s, t, Sending(slot, i, Loaded, true)).(
          warm := s.warm + {slot}, states := s.states[i := s.states[i].(wrote := true)])
      else s
    case Sending(slot, i, msg, held) =>
      if i < |s.states| && s.states[i].channel.None? then
        Goto(s, t, if held then Releasing(slot, i, msg.Loaded?) else Cleaning(slot, i, msg.Loaded?)).(
          states := s.states[i := s.states[i].(channel := Some(msg), said := Some(msg), sent := s.states[i].sent + 1)])
      else s
    case Releasing(slot, i, ok) =>
      Goto(s, t, Cleaning(slot, i, ok)).(leases := if o.Fail? && !o.effect then s.leases else s.leases - {m})
    case Cleaning(slot, i, ok) => Goto(s, t, Returned(slot, Own(i, ok))).(loading := s.loading - {slot})
    case Returned(_, _) => s
  }

  function Apply(s: State, a: Action): State
  {
    match a
    case Arrive(t, slot) => if t in s.pcs then s else Goto(s, t, Checking(slot))
    case Advance(t, o) => if t in s.pcs then Step(s, t, o) else s
    case Discover(warm) => s.(warm := warm)
    case Crash(replica) =>
      s.(pcs := (map t | t in s.pcs && s.pcs[t].slot.replica != replica :: s.pcs[t]),
         loading := (map slot | slot in s.loading && slot.replica != replica :: s.loading[slot]),
         warm := (set slot | slot in s.warm && slot.replica != replica),
         lost := s.lost + (set i: Sid | 0 <= i < |s.states| && s.states[i].slot.replica == replica))
  }

  function Run(s: State, actions: seq<Action>): State
  {
    if actions == [] then s else Apply(Run(s, actions[..|actions| - 1]), actions[|actions| - 1])
  }

  // ----- The invariant -----

  predicate BeforeSend(pc: PC)
  {
    pc.Creating? || pc.Getting? || pc.LoadingModel? || pc.Writing? || pc.Sending?
  }

  predicate Owns(pc: PC)
  {
    BeforeSend(pc) || pc.Releasing? || pc.Cleaning?
  }

  /** Between lease acquisition and release. */
  predicate Critical(pc: PC)
  {
    pc.LoadingModel? || pc.Writing? || pc.Releasing? || (pc.Sending? && pc.held)
  }

  predicate Registered(s: State, i: Sid)
    requires i < |s.states|
  {
    s.states[i].slot in s.loading && s.loading[s.states[i].slot] == i
  }

  ghost predicate LoadingOk(s: State, i: Sid)
    requires i < |s.states|
  {
    var x := s.states[i];
    && x.sent <= 1 && x.received + (if x.channel.Some? then 1 else 0) == x.sent
    && (x.sent == 0 && i !in s.lost ==> Registered(s, i))
    && (Registered(s, i) ==> i !in s.lost && x.owner in s.pcs && Owns(s.pcs[x.owner]) && s.pcs[x.owner].sid == i)
    && (x.channel.Some? ==> x.said == x.channel)
    && (x.said.Some? <==> x.sent == 1)
    && (x.said == Some(Loaded) ==> x.wrote)
  }

  ghost predicate Said(s: State, i: Sid, slot: Slot, msg: Msg)
  {
    i < |s.states| && s.states[i].slot == slot && s.states[i].said == Some(msg)
  }

  function MsgOf(ok: bool): Msg
  {
    if ok then Loaded else LoadFailed
  }

  ghost predicate RequestOk(s: State, t: Tid)
    requires t in s.pcs
  {
    var pc := s.pcs[t];
    && (Owns(pc) ==>
          && pc.sid < |s.states| && s.states[pc.sid].owner == t && s.states[pc.sid].slot == pc.slot
          && Registered(s, pc.sid)
          && s.states[pc.sid].sent == (if BeforeSend(pc) then 0 else 1)
          && (!BeforeSend(pc) ==> s.states[pc.sid].said == Some(MsgOf(pc.ok)))
          && (pc.Sending? && pc.msg.Loaded? ==> s.states[pc.sid].wrote))
    && (Critical(pc) ==> pc.slot.model in s.leases && s.leases[pc.slot.model] == pc.slot.replica)
    && (pc.Waiting? ==> pc.sid < |s.states| && s.states[pc.sid].slot == pc.slot && pc.sid !in s.lost)
    && (pc.Looking? ==> Said(s, pc.sid, pc.slot, Loaded))
    && (pc.Returned? ==>
          match pc.outcome {
            case Own(i, ok) => Said(s, i, pc.slot, MsgOf(ok)) && s.states[i].owner == t
            case Told(i, _) => Said(s, i, pc.slot, Loaded)
            case ToldFailed(i) => Said(s, i, pc.slot, LoadFailed)
            case WasWarm => true
            case GaveUp => true
          })
  }

  ghost predicate Inv(s: State)
  {
    && (forall k :: k in s.loading ==> s.loading[k] < |s.states| && s.states[s.loading[k]].slot == k)
    && (forall i: Sid :: i < |s.states| ==> LoadingOk(s, i))
    && (forall i :: i in s.lost ==> i < |s.states|)
    && (forall t :: t in s.pcs ==> RequestOk(s, t))
  }

  /** No request but `t` moves from `s` to `s'`. */
  ghost predicate OnlyMoves(s: State, s': State, t: Tid)
  {
    && t in s'.pcs && s'.pcs == s.pcs[t := s'.pcs[t]]
  }

  /** Request `t` moves without owning anything; the loads and leases stay. */
  lemma MoveInv(s: State, s': State, t: Tid)
    requires Inv(s) && OnlyMoves(s, s', t)
    requires s'.states == s.states && s'.loading == s.loading && s'.leases == s.leases && s'.lost == s.lost
    requires (t in s.pcs ==> !Owns(s.pcs[t])) && !Owns(s'.pcs[t]) && !Critical(s'.pcs[t]) && RequestOk(s', t)
    ensures Inv(s')
  {
    forall i: Sid | i < |s'.states| ensures LoadingOk(s', i) { assert LoadingOk(s, i); }
    forall u | u in s'.pcs ensures RequestOk(s', u) {
      if u != t { assert RequestOk(s, u); }
    }
  }

  lemma JoinInv(s: State, t: Tid)
    requires Inv(s) && t in s.pcs && s.pcs[t].Joining?
    ensures Inv(Step(s, t, Go))
  {
    if s.pcs[t].slot in s.loading {
      assert LoadingOk(s, s.loading[s.pcs[t].slot]);
      MoveInv(s, Step(s, t, Go), t);
    } else {
      StartInv(s, t);
    }
  }

  lemma StartInv(s: State, t: Tid)
    requires Inv(s) && t in s.pcs && s.pcs[t].Joining? && s.pcs[t].slot !in s.loading
    ensures Inv(Step(s, t, Go))
  {
    var s' := Step(s, t, Go);
    forall i: Sid | i < |s'.states| ensures LoadingOk(s', i) {
      if i < |s.states| { assert LoadingOk(s, i); }
    }
    forall u | u in s'.pcs ensures RequestOk(s', u) {
      if u != t { assert RequestOk(s, u); }
    }
  }

  lemma ReceiveInv(s: State, t: Tid)
    requires Inv(s) && t in s.pcs && s.pcs[t].Waiting?
    ensures Inv(Step(s, t, Go))
  {
    assert RequestOk(s, t);
    assert LoadingOk(s, s.pcs[t].sid);
    ReceiveLoads(s, t);
    ReceiveRequests(s, t);
  }

  lemma ReceiveLoads(s: State, t: Tid)
    requires Inv(s) && t in s.pcs && s.pcs[t].Waiting? && s.pcs[t].sid < |s.states|
    ensures forall j: Sid :: j < |Step(s, t, Go).states| ==> LoadingOk(Step(s, t, Go), j)
  {
    var s' := Step(s, t, Go);
    forall j: Sid | j < |s'.states| ensures LoadingOk(s', j) { assert LoadingOk(s, j); }
  }

  lemma ReceiveRequests(s: State, t: Tid)
    requires Inv(s) && t in s.pcs && s.pcs[t].Waiting? && s.pcs[t].sid < |s.states| && LoadingOk(s, s.pcs[t].sid)
    ensures forall u :: u in Step(s, t, Go).pcs ==> RequestOk(Step(s, t, Go), u)
  {
    var s' := Step(s, t, Go);
    assert RequestOk(s, t);
    forall u | u in s'.pcs ensures RequestOk(s', u) {
      assert RequestOk(s, u);
    }
  }

  /** No two requests are between acquisition and release of one model's lease. */
  lemma CriticalUnique(s: State, t: Tid, u: Tid)
    requires Inv(s) && t in s.pcs && u in s.pcs
    requires Critical(s.pcs[t]) && Critical(s.pcs[u]) && s.pcs[t].slot.model == s.pcs[u].slot.model
    ensures t == u
  {
    assert RequestOk(s, t) && RequestOk(s, u);
  }

  /** The owner of load `i` moves on and stays its owner: what the step does to the lease of its model
      is harmless as long as nobody else is relying on it. */
  lemma OwnerInv(s: State, s': State, t: Tid, i: Sid)
    requires Inv(s) && t in s.pcs && Owns(s.pcs[t]) && s.pcs[t].sid == i && i < |s.states|
    requires OnlyMoves(s, s', t) && Owns(s'.pcs[t]) && s'.pcs[t].sid == i && RequestOk(s', t)
    requires s'.loading == s.loading && s'.lost == s.lost
    requires exists x :: s'.states == s.states[i := x] && x.slot == s.states[i].slot && x.owner == t
                         && (s.states[i].said.Some? ==> x.said == s.states[i].said) && LoadingOk(s', i)
    requires forall u :: u in s.pcs && u != t && Critical(s.pcs[u]) ==>
               s.pcs[u].slot.model in s'.leases && s'.leases[s.pcs[u].slot.model] == s.leases[s.pcs[u].slot.model]
    ensures Inv(s')
  {
    assert RequestOk(s, t);
    forall j: Sid | j < |s'.states| ensures LoadingOk(s', j) {
      if j != i { assert LoadingOk(s, j); }
    }
    forall u | u in s'.pcs ensures RequestOk(s', u) {
      if u != t { assert RequestOk(s, u); }
    }
  }

  lemma CreateInv(s: State, t: Tid, o: Oracle)
    requires Inv(s) && t in s.pcs && s.pcs[t].Creating?
    ensures Inv(Step(s, t, o))
  {
    assert RequestOk(s, t);
    var s' := Step(s, t, o);
    var i := s.pcs[t].sid;
    assert LoadingOk(s, i);
    assert s'.states == s.states[i := s.states[i]];
    forall u | u in s.pcs && u != t && Critical(s.pcs[u])
      ensures s.pcs[u].slot.model in s'.leases && s'.leases[s.pcs[u].slot.model] == s.leases[s.pcs[u].slot.model]
    {
      assert RequestOk(s, u);
    }
    OwnerInv(s, s', t, i);
  }

  lemma WorkInv(s: State, t: Tid, o: Oracle)
    requires Inv(s) && t in s.pcs && (s.pcs[t].Getting? || s.pcs[t].LoadingModel? || s.pcs[t].Writing?)
    ensures Inv(Step(s, t, o))
  {
    assert RequestOk(s, t);
    var i := s.pcs[t].sid;
    assert LoadingOk(s, i);
    var s' := Step(s, t, o);
    assert s'.states == s.states[i := s'.states[i]];
    OthersKeepLeases(s);
    OwnerInv(s, s', t, i);
  }

  lemma OthersKeepLeases(s: State)
    requires Inv(s)
    ensures forall u :: u in s.pcs && Critical(s.pcs[u]) ==> s.pcs[u].slot.model in s.leases
  {
    forall u | u in s.pcs && Critical(s.pcs[u]) ensures s.pcs[u].slot.model in s.leases { assert RequestOk(s, u); }
  }

  /** The channel is empty when the owner sends, so the send does not block. */
  lemma SendInv(s: State, t: Tid, o: Oracle)
    requires Inv(s) && t in s.pcs && s.pcs[t].Sending?
    ensures Inv(Step(s, t, o)) && !Step(s, t, o).pcs[t].Sending?
  {
    assert RequestOk(s, t);
    var i := s.pcs[t].sid;
    assert LoadingOk(s, i);
    var s' := Step(s, t, o);
    assert s'.states == s.states[i := s'.states[i]];
    OthersKeepLeases(s);
    OwnerInv(s, s', t, i);
  }

  /** Releasing deletes a lease that nobody else is relying on. */
  lemma ReleaseInv(s: State, t: Tid, o: Oracle)
    requires Inv(s) && t in s.pcs && s.pcs[t].Releasing?
    ensures Inv(Step(s, t, o))
  {
    assert RequestOk(s, t);
    var i := s.pcs[t].sid;
    assert LoadingOk(s, i);
    var s' := Step(s, t, o);
    assert s'.states == s.states[i := s.states[i]];
    OthersKeepLeases(s);
    forall u | u in s.pcs && u != t && Critical(s.pcs[u])
      ensures s.pcs[u].slot.model in s'.leases && s'.leases[s.pcs[u].slot.model] == s.leases[s.pcs[u].slot.model]
    {
      if s.pcs[u].slot.model == s.pcs[t].slot.model { CriticalUnique(s, t, u); }
    }
    OwnerInv(s, s', t, i);
  }

  lemma CleanInv(s: State, t: Tid)
    requires Inv(s) && t in s.pcs && s.pcs[t].Cleaning?
    ensures Inv(Step(s, t, Go))
  {
    assert RequestOk(s, t);
    var s' := Step(s, t, Go);
    forall i: Sid | i < |s'.states| ensures LoadingOk(s', i) { assert LoadingOk(s, i); }
    forall u | u in s'.pcs ensures RequestOk(s', u) {
      if u != t { assert RequestOk(s, u); }
    }
  }

  lemma PlainInv(s: State, t: Tid, o: Oracle)
    requires Inv(s) && t in s.pcs
    requires s.pcs[t].Checking? || s.pcs[t].Looking? || s.pcs[t].Returned? || (s.pcs[t].Waiting? && o.Cancel?)
    ensures Inv(Step(s, t, o))
  {
    assert RequestOk(s, t);
    MoveInv(s, Step(s, t, o), t);
  }

  lemma StepInv(s: State, t: Tid, o: Oracle)
    requires Inv(s) && t in s.pcs
    ensures Inv(Step(s, t, o))
  {
    var pc := s.pcs[t];
    if pc.Joining? {
      JoinInv(s, t);
    } else if pc.Waiting? && !o.Cancel? {
      ReceiveInv(s, t);
    } else if pc.Creating? {
      CreateInv(s, t, o);
    } else if pc.Getting? || pc.LoadingModel? || pc.Writing? {
      WorkInv(s, t, o);
    } else if pc.Sending? {
      SendInv(s, t, o);
    } else if pc.Releasing? {
      ReleaseInv(s, t, o);
    } else if pc.Cleaning? {
      CleanInv(s, t);
    } else {
      PlainInv(s, t, o);
    }
  }

  lemma ApplyInv(s: State, a: Action)
    requires Inv(s)
    ensures Inv(Apply(s, a))
  {
    match a
    case Arrive(t, _) => if t !in s.pcs { MoveInv(s, Apply(s, a), t); }
    case Advance(t, o) => if t in s.pcs { StepInv(s, t, o); }
    case Discover(warm) =>
      var s' := Apply(s, a);
      forall i: Sid | i < |s'.states| ensures LoadingOk(s', i) { assert LoadingOk(s, i); }
      forall u | u in s'.pcs ensures RequestOk(s', u) { assert RequestOk(s, u); }
    case Crash(replica) => CrashInv(s, replica);
  }

  /** A crash takes nothing that another replica relies on. */
  lemma CrashInv(s: State, replica: Name)
    requires Inv(s)
    ensures Inv(Apply(s, Crash(replica)))
  {
    var s' := Apply(s, Crash(replica));
    forall i: Sid | i < |s'.states| ensures LoadingOk(s', i) {
      assert LoadingOk(s, i);
      if Registered(s, i) { assert RequestOk(s, s.states[i].owner); }
    }
    forall u | u in s'.pcs ensures RequestOk(s', u) { assert RequestOk(s, u); }
  }

  lemma {:induction false} RunInv(s: State, actions: seq<Action>)
    requires Inv(s)
    ensures Inv(Run(s, actions))
  {
    if actions != [] {
      RunInv(s, actions[..|actions| - 1]);
      ApplyInv(Run(s, actions[..|actions| - 1]), actions[|actions| - 1]);
    }
  }

  // ----- What every interleaving guarantees -----

  /** Mutual exclusion across replicas: whatever calls fail, with or without effect, at most one request
      in the whole system is between acquiring and releasing the lease of a model. */
  lemma {:induction false} MutualExclusion(actions: seq<Action>, t: Tid, u: Tid)
    requires var s := Run(INIT, actions);
             && t in s.pcs && Critical(s.pcs[t]) && u in s.pcs && Critical(s.pcs[u])
             && s.pcs[t].slot.model == s.pcs[u].slot.model
    ensures t == u
  {
    RunInv(INIT, actions);
    CriticalUnique(Run(INIT, actions), t, u);
  }

  /** ... because its replica holds that lease and it owns its replica's entry for the model, also when
      an earlier release failed, or the lease changed hands between create and get. */
  lemma {:induction false} CriticalHoldsLease(actions: seq<Action>, t: Tid)
    requires t in Run(INIT, actions).pcs && Critical(Run(INIT, actions).pcs[t])
    ensures var s := Run(INIT, actions); var pc := s.pcs[t];
            && pc.slot.model in s.leases && s.leases[pc.slot.model] == pc.slot.replica
            && pc.slot in s.loading && s.loading[pc.slot] == pc.sid
            && pc.sid < |s.states| && s.states[pc.sid].owner == t
  {
    var s := Run(INIT, actions);
    RunInv(INIT, actions);
    assert RequestOk(s, t);
  }

  /** Local single flight: a replica's map has an entry for a model exactly while one of its requests
      is loading it, and only one is. */
  lemma {:induction false} LocalSingleFlight(actions: seq<Action>, slot: Slot)
    ensures var s := Run(INIT, actions);
            && (forall t, u :: Runs(s, t, slot) && Runs(s, u, slot) ==> t == u)
            && (slot in s.loading <==> exists t :: Runs(s, t, slot))
  {
    var s := Run(INIT, actions);
    RunInv(INIT, actions);
    forall t, u | Runs(s, t, slot) && Runs(s, u, slot) ensures t == u && slot in s.loading {
      assert RequestOk(s, t) && RequestOk(s, u);
    }
    if slot in s.loading {
      EntryHasOwner(s, slot);
    }
  }

  lemma EntryHasOwner(s: State, slot: Slot)
    requires Inv(s) && slot in s.loading
    ensures exists u :: Runs(s, u, slot)
  {
    var i := s.loading[slot];
    assert LoadingOk(s, i);
    assert RequestOk(s, s.states[i].owner);
    assert Runs(s, s.states[i].owner, slot);
  }

  ghost predicate Runs(s: State, t: Tid, slot: Slot)
  {
    t in s.pcs && Owns(s.pcs[t]) && s.pcs[t].slot == slot
  }

  /** Every load sends exactly one result, unless its replica crashes first, before its entry is removed
      and with room in the channel; at most one waiter receives it; and success is sent only once the
      owner wrote the model. */
  lemma {:induction false} OneResultPerLoad(actions: seq<Action>, i: Sid)
    requires i < |Run(INIT, actions).states|
    ensures var s := Run(INIT, actions); var x := s.states[i];
            && x.sent <= 1 && x.received <= x.sent
            && (!Registered(s, i) ==> x.sent == 1 || i in s.lost)
            && (x.said == Some(Loaded) ==> x.wrote)
            && (forall t :: t in s.pcs && s.pcs[t].Sending? && s.pcs[t].sid == i ==> x.channel == None)
  {
    var s := Run(INIT, actions);
    RunInv(INIT, actions);
    assert LoadingOk(s, i);
    forall t | t in s.pcs && s.pcs[t].Sending? && s.pcs[t].sid == i
      ensures s.states[i].channel == None
    {
      assert RequestOk(s, t);
    }
  }

  /** Every request that ends by a load, its own or another's, ends by what that load's owner said. */
  lemma {:induction false} OutcomeIsWhatWasSaid(actions: seq<Action>, t: Tid)
    requires t in Run(INIT, actions).pcs && Run(INIT, actions).pcs[t].Returned?
    ensures var s := Run(INIT, actions); var pc := s.pcs[t];
            match pc.outcome {
              case Own(i, ok) => Said(s, i, pc.slot, MsgOf(ok)) && s.states[i].owner == t && (ok ==> s.states[i].wrote)
              case Told(i, _) => Said(s, i, pc.slot, Loaded) && s.states[i].wrote
              case ToldFailed(i) => Said(s, i, pc.slot, LoadFailed)
              case WasWarm => true
              case GaveUp => true
            }
  {
    var s := Run(INIT, actions);
    RunInv(INIT, actions);
    assert RequestOk(s, t);
    forall i: Sid | i < |s.states| ensures s.states[i].said == Some(Loaded) ==> s.states[i].wrote {
      assert LoadingOk(s, i);
    }
  }

  /** `wrote` is set only by the step that puts the model into the replica's map. */
  lemma WroteMeansWarm(s: State, a: Action, i: Sid)
    requires Inv(s) && i < |s.states|
    ensures var s' := Apply(s, a);
            i < |s'.states| && (s'.states[i].wrote && !s.states[i].wrote ==> s.states[i].slot in s'.warm)
  {
    if a.Advance? && a.tid in s.pcs { assert RequestOk(s, a.tid); }
  }

  // ----- Leases and who holds them -----

  /** A lease call whose error hides a state nobody cleans up: a create that took effect, or a delete
      that did not. */
  predicate LeakingCall(s: State, a: Action)
  {
    && a.Advance? && a.tid in s.pcs
    && (|| (s.pcs[a.tid].Creating? && a.oracle == Fail(true) && s.pcs[a.tid].slot.model !in s.leases)
        || (s.pcs[a.tid].Releasing? && a.oracle == Fail(false)))
  }

  /** Such a call, or the crash of a replica between acquisition and release. */
  predicate Leaks(s: State, a: Action)
  {
    || LeakingCall(s, a)
    || (a.Crash? && exists t :: t in s.pcs && Critical(s.pcs[t]) && s.pcs[t].slot.replica == a.replica)
  }

  ghost predicate Holds(s: State, t: Tid, model: string, replica: Name)
  {
    t in s.pcs && Critical(s.pcs[t]) && s.pcs[t].slot == Slot(replica, model)
  }

  ghost predicate HeldByCritical(s: State, model: string)
  {
    model in s.leases && exists t :: Holds(s, t, model, s.leases[model])
  }

  /** Every lease belongs to a request between acquisition and release. */
  ghost predicate AllHeld(s: State)
  {
    forall model :: model in s.leases ==> HeldByCritical(s, model)
  }

  lemma OnlyOneMoves(s: State, t: Tid, o: Oracle)
    requires t in s.pcs
    ensures forall u :: u != t ==>
              (u in Step(s, t, o).pcs <==> u in s.pcs) && (u in s.pcs ==> Step(s, t, o).pcs[u] == s.pcs[u])
  {
  }

  /** A lease in place changes hands only through the delete of a request for its model. */
  lemma LeaseStays(s: State, t: Tid, o: Oracle, model: string)
    requires t in s.pcs && model in s.leases
    requires s.pcs[t].Releasing? ==> s.pcs[t].slot.model != model
    ensures var s' := Step(s, t, o); model in s'.leases && s'.leases[model] == s.leases[model]
  {
  }

  /** A request that holds a lease keeps it until its delete takes effect. */
  lemma HolderStep(s: State, t: Tid, o: Oracle)
    requires t in s.pcs && Critical(s.pcs[t]) && !(s.pcs[t].Releasing? && o == Fail(false))
    ensures var s' := Step(s, t, o); var slot := s.pcs[t].slot;
            (t in s'.pcs && Critical(s'.pcs[t]) && s'.pcs[t].slot == slot) || slot.model !in s'.leases
  {
  }

  lemma NewLease(s: State, t: Tid, o: Oracle, model: string)
    requires t in s.pcs && model !in s.leases && model in Step(s, t, o).leases
    requires !(s.pcs[t].Creating? && o == Fail(true))
    ensures Holds(Step(s, t, o), t, model, Step(s, t, o).leases[model])
  {
  }

  lemma LeaseStepHeld(s: State, a: Action, model: string)
    requires Inv(s) && (model in s.leases ==> HeldByCritical(s, model)) && !Leaks(s, a)
    requires model in Apply(s, a).leases
    ensures HeldByCritical(Apply(s, a), model)
  {
    var s' := Apply(s, a);
    if a.Advance? && a.tid in s.pcs {
      if model in s.leases {
        var t :| Holds(s, t, model, s.leases[model]);
        assert RequestOk(s, a.tid);
        if s.pcs[a.tid].Releasing? && s.pcs[a.tid].slot.model == model { CriticalUnique(s, t, a.tid); }
        OnlyOneMoves(s, a.tid, a.oracle);
        if a.tid == t {
          HolderStep(s, t, a.oracle);
        }
        if !(s.pcs[a.tid].Releasing? && s.pcs[a.tid].slot.model == model) {
          LeaseStays(s, a.tid, a.oracle, model);
        }
        assert Holds(s', t, model, s'.leases[model]);
      } else {
        NewLease(s, a.tid, a.oracle, model);
      }
    } else {
      var t :| Holds(s, t, model, s.leases[model]);
      assert Holds(s', t, model, s'.leases[model]);
    }
  }

  /** What such a call leaves: its replica's lease, and nobody between acquisition and release. */
  lemma LeakStep(s: State, t: Tid, o: Oracle)
    requires Inv(s) && t in s.pcs && LeakingCall(s, Advance(t, o))
    ensures var s' := Step(s, t, o); var slot := s.pcs[t].slot;
            && t in s'.pcs && s'.pcs == s.pcs[t := s'.pcs[t]]
            && ((s'.pcs[t].Sending? && !Critical(s'.pcs[t])) || s'.pcs[t].Cleaning?)
            && s'.pcs[t].slot == slot && slot.model in s'.leases && s'.leases[slot.model] == slot.replica
  {
    assert RequestOk(s, t);
  }

  lemma LeakLeavesLease(s: State, t: Tid, o: Oracle)
    requires Inv(s) && t in s.pcs && LeakingCall(s, Advance(t, o))
    ensures s.pcs[t].slot.model in Step(s, t, o).leases && !HeldByCritical(Step(s, t, o), s.pcs[t].slot.model)
  {
    var s' := Step(s, t, o);
    var slot := s.pcs[t].slot;
    LeakStep(s, t, o);
    OnlyOneMoves(s, t, o);
    forall u | Holds(s', u, slot.model, slot.replica) ensures false {
      assert u != t && RequestOk(s, u);
      if s.pcs[t].Releasing? { CriticalUnique(s, t, u); }
    }
  }

  lemma CrashLeavesLease(s: State, t: Tid)
    requires Inv(s) && t in s.pcs && Critical(s.pcs[t])
    ensures var s' := Apply(s, Crash(s.pcs[t].slot.replica));
            s.pcs[t].slot.model in s'.leases && !HeldByCritical(s', s.pcs[t].slot.model)
  {
    assert RequestOk(s, t);
  }

  /** One step keeps every lease in the hands of a critical request exactly if it is no such call and no
      such crash. */
  lemma LeasesStayHeldExactly(s: State, a: Action)
    requires Inv(s) && AllHeld(s)
    ensures AllHeld(Apply(s, a)) <==> !Leaks(s, a)
  {
    if LeakingCall(s, a) {
      LeakLeavesLease(s, a.tid, a.oracle);
    } else if Leaks(s, a) {
      var t :| t in s.pcs && Critical(s.pcs[t]) && s.pcs[t].slot.replica == a.replica;
      CrashLeavesLease(s, t);
    } else {
      forall model | model in Apply(s, a).leases ensures HeldByCritical(Apply(s, a), model) {
        LeaseStepHeld(s, a, model);
      }
    }
  }

  ghost predicate HeldAfter(actions: seq<Action>, i: nat)
    requires i <= |actions|
  {
    AllHeld(Run(INIT, actions[..i]))
  }

  predicate LeaksAt(actions: seq<Action>, i: nat)
    requires i < |actions|
  {
    Leaks(Run(INIT, actions[..i]), actions[i])
  }

  /** In every run all leases are in the hands of requests between acquisition and release throughout,
      so that none is left once every load has ended, exactly if no lease call fails in that way and no
      replica crashes in between. */
  lemma {:induction false} NoLeaseLeft(actions: seq<Action>)
    ensures (forall i :: 0 <= i <= |actions| ==> HeldAfter(actions, i))
       <==> (forall i :: 0 <= i < |actions| ==> !LeaksAt(actions, i))
  {
    if actions == [] {
      assert HeldAfter(actions, 0);
    } else {
      var last := |actions| - 1;
      var init := actions[..last];
      NoLeaseLeft(init);
      forall i | 0 <= i <= last
        ensures HeldAfter(actions, i) <==> HeldAfter(init, i)
        ensures i < last ==> (LeaksAt(actions, i) <==> LeaksAt(init, i))
      {
        assert init[..i] == actions[..i];
      }
      HeldInRun(actions);
    }
  }

  lemma HeldInRun(actions: seq<Action>)
    requires actions != []
    ensures var last := |actions| - 1;
            HeldAfter(actions, last) ==> (HeldAfter(actions, last + 1) <==> !LeaksAt(actions, last))
  {
    var last := |actions| - 1;
    assert actions[..last + 1] == actions;
    RunInv(INIT, actions[..last]);
    if HeldAfter(actions, last) { LeasesStayHeldExactly(Run(INIT, actions[..last]), actions[last]); }
  }
}
