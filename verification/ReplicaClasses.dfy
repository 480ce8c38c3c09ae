/** The tracker (internal/modeltracker/tracker.go) and the model loader
    (internal/plugins/modelloader/loader.go) as objects. They share a module because each calls the
    other: the loader marks the tracker, the tracker's unload observer is the loader. */
module ReplicaClasses {
  import opened StringOrder
  import opened Wrappers
  import opened DedupSpec
  import opened PollSpec
  import opened LoadKey
  import opened RequestSpec
  import PodState

  const DEFAULT_DEDUP_GRACE_POLLS := 12
  const MAX_UNLOADS_PER_CYCLE := 1

  /** The list a map gives for a model, empty when absent. */
  function ListOf(dup: map<string, seq<string>>, model: string): seq<string>
  {
    if model in dup then dup[model] else []
  }

  ghost function HoldersAmong(loaded: PodModels, pods: set<string>, model: string): set<string>
  {
    set p | p in pods && p in loaded && model in loaded[p]
  }

  /** `q` lists the elements of `s`, each once, in some order. */
  ghost predicate Lists(q: seq<string>, s: set<string>)
  {
    |q| == |s| && forall x :: x in q <==> x in s
  }

  /** `dup` lists the holders of every model among `pods`. */
  ghost predicate ListsHolders(dup: map<string, seq<string>>, loaded: PodModels, pods: set<string>)
  {
    && (forall m :: Lists(ListOf(dup, m), HoldersAmong(loaded, pods, m)))
    && (forall m :: m in dup ==> dup[m] != [])
  }

  lemma ListsAll(dup: map<string, seq<string>>, loaded: PodModels)
    requires ListsHolders(dup, loaded, loaded.Keys)
    ensures forall m :: Lists(ListOf(dup, m), Holders(loaded, m))
    ensures forall m :: m in Duplicates(loaded) <==> m in dup && |dup[m]| >= 2
  {
    forall m ensures HoldersAmong(loaded, loaded.Keys, m) == Holders(loaded, m) {}
    forall m ensures m in Duplicates(loaded) <==> m in dup && |dup[m]| >= 2 {
      assert Lists(ListOf(dup, m), Holders(loaded, m));
      if |Holders(loaded, m)| >= 2 {
        var p :| p in Holders(loaded, m);
        assert m in Models(loaded);
      }
    }
  }

  /** What the snapshot of one more pod adds. */
  lemma AppendedLists(dup: map<string, seq<string>>, r: map<string, seq<string>>,
                      loaded: PodModels, seen: set<string>, pk: string)
    requires ListsHolders(dup, loaded, seen) && pk in loaded && pk !in seen
    requires forall m :: ListOf(r, m) == ListOf(dup, m) + (if m in loaded[pk] then [pk] else [])
    requires forall m :: m in r ==> r[m] != []
    ensures ListsHolders(r, loaded, seen + {pk})
  {
    forall m ensures Lists(ListOf(r, m), HoldersAmong(loaded, seen + {pk}, m)) {
      AppendedList(ListOf(dup, m), ListOf(r, m), loaded, seen, pk, m);
    }
  }

  lemma AppendedList(before: seq<string>, after: seq<string>,
                     loaded: PodModels, seen: set<string>, pk: string, m: string)
    requires pk in loaded && pk !in seen && Lists(before, HoldersAmong(loaded, seen, m))
    requires after == before + (if m in loaded[pk] then [pk] else [])
    ensures Lists(after, HoldersAmong(loaded, seen + {pk}, m))
  {
    assert HoldersAmong(loaded, seen + {pk}, m) ==
           HoldersAmong(loaded, seen, m) + (if m in loaded[pk] then {pk} else {});
  }

  /** The tracker `now`, and the cache keys dropped, once the copy a pass chose is unmarked. */
  ghost function AfterServing(now: TrackerState, c: Option<Copy>): TrackerState
  {
    match c
    case None => now
    case Some(copy) => Commit(now, copy)
  }

  ghost function DroppedByServing(now: TrackerState, c: Option<Copy>): set<string>
  {
    match c
    case None => {}
    case Some(copy) => Dropped(now, copy.pod, copy.model)
  }

  /** The two phases, nothing in between, are the atomic pass. */
  lemma PhasesMakeAPass(s: TrackerState, cache: set<string>, grace: int, env: PassEnv)
    requires Enabled(s, env)
    ensures var counted := s.(dupObs := Observe(s)); var c := Target(s, grace, env);
            && AfterServing(counted, c) == Pass(s, grace, env)
            && cache - DroppedByServing(counted, c) == PassAndNotify(Replica(s, cache), grace, env).cache
  {
  }

  /** With the ripe models in order, the first one that can be unloaded is the pass's winner. */
  lemma FirstCandidateWins(ripe: seq<string>, i: nat, s: TrackerState, grace: int, env: PassEnv)
    requires Sorted(ripe) && i < |ripe| && env.pressure.Some?
    requires forall m :: m in Candidates(s, grace, env) ==> m in ripe
    requires forall m :: m in ripe[..i] ==> m !in Candidates(s, grace, env)
    requires ripe[i] in Candidates(s, grace, env)
    ensures Winner(s, grace, env) == Some(ripe[i])
  {
    var c := Candidates(s, grace, env);
    forall x | x in c ensures Precedes(NoRank, ripe[i], x) {
      var j :| 0 <= j < |ripe| && ripe[j] == x;
    }
    MinUnique(ripe[i], Min(c, NoRank), c, NoRank);
  }

  class Tracker {
    const pressure: PodState.Cache?
    const dedupGracePolls: int

    var loaded: PodModels
    var podIP: map<string, string>
    var dupObs: map<string, nat>
    var firstPoll: bool
    var unloadObserver: Plugin?

    constructor (pressure: PodState.Cache?, dedupGracePolls: int)
      ensures State() == FRESH && unloadObserver == null
      ensures this.pressure == pressure
      ensures dedupGracePolls != 0 ==> this.dedupGracePolls == dedupGracePolls
      ensures dedupGracePolls == 0 ==> this.dedupGracePolls == 12
    {
      this.pressure := pressure;
      this.dedupGracePolls := if dedupGracePolls == 0 then DEFAULT_DEDUP_GRACE_POLLS else dedupGracePolls;
      loaded, podIP, dupObs, firstPoll := map[], map[], map[], false;
      unloadObserver := null;
    }

    ghost function State(): TrackerState
      reads this
    {
      TrackerState(loaded, podIP, dupObs, firstPoll)
    }

    ghost function Observers(): set<Plugin>
      reads this
    {
      if unloadObserver == null then {} else {unloadObserver}
    }

    /** The pass environment this tracker sees, given how unload calls would end. */
    ghost function Env(unloads: (string, string) -> bool): PassEnv
      reads this, pressure
    {
      PassEnv(if pressure == null then None else Some(PodState.PressureOf(pressure.data)), unloads)
    }

    method IsLoaded(podKey: string, model: string) returns (r: bool)
      ensures r <==> firstPoll && podKey in Holders(loaded, model)
    {
      if !firstPoll || podKey !in loaded { return false; }
      r := model in loaded[podKey];
    }

    method MarkLoaded(podKey: string, model: string)
      modifies this
      ensures State() == DedupSpec.MarkLoaded(old(State()), podKey, model)
      ensures unloadObserver == old(unloadObserver)
    {
      if podKey == "" || model == "" { return; }
      if podKey !in loaded {
        loaded := loaded[podKey := {}];
      }
      loaded := loaded[podKey := loaded[podKey] + {model}];
      firstPoll := true;
    }

    method MarkUnloaded(podKey: string, model: string)
      modifies this`loaded, Observers()`loadedModels
      ensures State() == DedupSpec.MarkUnloaded(old(State()), podKey, model)
      ensures unloadObserver != null ==>
                unloadObserver.loadedModels == old(unloadObserver.loadedModels) - Dropped(old(State()), podKey, model)
    {
      if podKey == "" || model == "" { return; }
      var ok := podKey in loaded;
      if ok {
        loaded := loaded[podKey := loaded[podKey] - {model}];
      }
      var ip := if podKey in podIP then podIP[podKey] else "";
      if !ok { return; }
      if unloadObserver != null {
        if ip == "" { ip := podKey; }
        unloadObserver.InvalidateLoadedModel(ip, model);
      }
    }

    method SetUnloadObserver(observer: Plugin?)
      modifies this`unloadObserver
      ensures unloadObserver == observer
    {
      unloadObserver := observer;
    }

    // ----- Polling -----

    /** Reads a pod's model list. */
    static method QueryPod(entries: seq<Entry>) returns (models: set<string>)
      ensures models == WarmModels(entries)
    {
      models := {};
      for i := 0 to |entries|
        invariant models == WarmModels(entries[..i])
      {
        assert entries[..i + 1] == entries[..i] + [entries[i]];
        var status := entries[i].status;
        if status == "loaded" || status == "running" || status == "" {
          models := models + {entries[i].id};
        }
      }
      assert entries[..|entries|] == entries;
    }

    /** One poll: None stands for a failed listing. */
    method PollOnce(listing: Option<seq<ListedPod>>, unloads: (string, string) -> bool)
      modifies this, Observers()`loadedModels
      ensures listing == None ==> State() == old(State())
      ensures listing.Some? ==>
                State() == Pass(Refresh(old(State()), listing.value), dedupGracePolls, old(Env(unloads)))
      ensures unloadObserver == old(unloadObserver)
      ensures unloadObserver != null ==>
                unloadObserver.loadedModels ==
                if listing == None then old(unloadObserver.loadedModels)
                else PassAndNotify(Replica(Refresh(old(State()), listing.value), old(unloadObserver.loadedModels)),
                                   dedupGracePolls, old(Env(unloads))).cache
    {
      if listing == None { return; }
      QueryAndSwap(listing.value);
      ResolveDuplicates(unloads);
    }

    /** Query every pod and swap the new maps in, with nobody else about. */
    method QueryAndSwap(pods: seq<ListedPod>)
      modifies this`loaded, this`podIP, this`firstPoll
      ensures State() == Refresh(old(State()), pods)
    {
      var before := loaded;
      var views := seq(|pods|, _ => before);
      var next, nextIPs := QueryPods(pods, views);
      GatheredSwapsIn(views, before, pods);
      SwappedAlone(before, pods);
      loaded, podIP, firstPoll := SwapIn(next, loaded), nextIPs, true;
    }

    /** The next pod -> models map, one listed pod at a time. `views` is what the tracker's own map is found
        to be at each query; a pod that does not answer keeps sharing its set with that map. */
    static method QueryPods(pods: seq<ListedPod>, views: seq<PodModels>)
      returns (next: map<string, Option<set<string>>>, nextIPs: map<string, string>)
      requires |views| == |pods|
      ensures next == Gathered(views, pods)
      ensures nextIPs == map ip | ip in ListedIPs(pods) :: ip
    {
      next, nextIPs := map[], map[];
      for i := 0 to |pods|
        invariant next == Gathered(views[..i], pods[..i])
        invariant nextIPs == map ip | ip in ListedIPs(pods[..i]) :: ip
      {
        assert pods[..i + 1] == pods[..i] + [pods[i]] && views[..i + 1] == views[..i] + [views[i]];
        assert ListedIPs(pods[..i + 1]) == ListedIPs(pods[..i]) + (if pods[i].ip == "" then {} else {pods[i].ip});
        if pods[i].ip == "" { continue; }
        var key := pods[i].ip;
        nextIPs := nextIPs[key := pods[i].ip];
        if pods[i].answer.None? {
          if key in views[i] {
            next := next[key := None];
          }
          continue;
        }
        var models := QueryPod(pods[i].answer.value);
        next := next[key := Some(models)];
      }
      assert pods[..|pods|] == pods && views[..|pods|] == views;
    }

    // ----- Dedup -----

    /** The snapshot: model -> pods, in whatever order the maps are walked. */
    method CollectHolders() returns (dup: map<string, seq<string>>)
      ensures ListsHolders(dup, loaded, loaded.Keys)
    {
      dup := map[];
      var pods := loaded.Keys;
      ghost var seen: set<string> := {};
      while pods != {}
        invariant pods + seen == loaded.Keys && pods !! seen
        invariant ListsHolders(dup, loaded, seen)
      {
        var pk :| pk in pods;
        ghost var before := dup;
        dup := AppendPod(dup, pk, loaded[pk]);
        AppendedLists(before, dup, loaded, seen, pk);
        pods, seen := pods - {pk}, seen + {pk};
      }
      assert seen == loaded.Keys;
    }

    static method AppendPod(dup: map<string, seq<string>>, pk: string, models: set<string>)
      returns (r: map<string, seq<string>>)
      requires forall m :: m in dup ==> dup[m] != []
      ensures forall m :: ListOf(r, m) == ListOf(dup, m) + (if m in models then [pk] else [])
      ensures forall m :: m in r ==> r[m] != []
    {
      r := dup;
      var rest := models;
      while rest != {}
        invariant rest <= models
        invariant forall m :: ListOf(r, m) == ListOf(dup, m) + (if m in models && m !in rest then [pk] else [])
        invariant forall m :: m in r ==> r[m] != []
      {
        var model :| model in rest;
        r := r[model := ListOf(r, model) + [pk]];
        rest := rest - {model};
      }
    }

    /** Drops the counters of models that are no longer on two pods. */
    method DropResolved(dup: map<string, seq<string>>)
      modifies this`dupObs
      ensures dupObs.Keys == set m | m in old(dupObs) && |ListOf(dup, m)| >= 2
      ensures forall m :: m in dupObs ==> dupObs[m] == old(dupObs)[m]
    {
      var resolved: seq<string> := [];
      var keys := dupObs.Keys;
      while keys != {}
        invariant keys <= dupObs.Keys
        invariant forall m :: m in resolved <==> m in dupObs && m !in keys && |ListOf(dup, m)| < 2
      {
        var model :| model in keys;
        if |ListOf(dup, model)| < 2 {
          resolved := resolved + [model];
        }
        keys := keys - {model};
      }
      for i := 0 to |resolved|
        invariant forall m :: m in dupObs <==> m in old(dupObs) && m !in resolved[..i]
        invariant forall m :: m in dupObs ==> dupObs[m] == old(dupObs)[m]
      {
        dupObs := dupObs - {resolved[i]};
      }
    }

    /** Counts this sighting of every duplicate and collects the ripe ones. */
    method CountSightings(dup: map<string, seq<string>>) returns (ripe: seq<string>)
      requires forall m :: m in dupObs ==> m in dup && |dup[m]| >= 2
      modifies this`dupObs
      ensures dupObs.Keys == set m | m in dup && |dup[m]| >= 2
      ensures forall m :: m in dupObs ==> dupObs[m] == Obs(old(dupObs), m) + 1
      ensures forall m :: m in ripe <==> m in dupObs && dupObs[m] >= dedupGracePolls
    {
      ripe := [];
      var keys := dup.Keys;
      while keys != {}
        invariant keys <= dup.Keys
        invariant forall m :: m in dupObs <==> m in dup && |dup[m]| >= 2 && (m in old(dupObs) || m !in keys)
        invariant forall m :: m in dupObs ==> dupObs[m] == Obs(old(dupObs), m) + (if m in keys then 0 else 1)
        invariant forall m :: m in ripe <==> m in dupObs && m !in keys && dupObs[m] >= dedupGracePolls
      {
        var model :| model in keys;
        keys := keys - {model};
        if |dup[model]| >= 2 {
          dupObs := dupObs[model := (if model in dupObs then dupObs[model] else 0) + 1];
          if dupObs[model] >= dedupGracePolls {
            ripe := ripe + [model];
          }
        }
      }
    }

    /** The dedup pass. `unloads` says how an unload call to (IP, model) would end. */
    method ResolveDuplicates(unloads: (string, string) -> bool)
      modifies this, Observers()`loadedModels
      ensures State() == Pass(old(State()), dedupGracePolls, old(Env(unloads)))
      ensures unloadObserver == old(unloadObserver)
      ensures unloadObserver != null ==>
                unloadObserver.loadedModels ==
                PassAndNotify(Replica(old(State()), old(unloadObserver.loadedModels)),
                              dedupGracePolls, old(Env(unloads))).cache
    {
      if pressure == null { return; }
      if !firstPoll { return; }
      var dup := CollectHolders();
      var ipSnap := podIP;
      ListsAll(dup, loaded);
      var ripe := ObserveDuplicates(dup, loaded);
      assert State() == old(State()).(dupObs := Observe(old(State())));
      assert Env(unloads) == old(Env(unloads));
      PhasesMakeAPass(old(State()), if unloadObserver == null then {} else unloadObserver.loadedModels,
                      dedupGracePolls, Env(unloads));
      IssueUnloads(Sort(ripe), dup, ipSnap, unloads, old(State()));
    }

    /** Phase 1: update the counters and collect the ripe duplicates, by the snapshot, whatever is loaded
        by now. */
    method ObserveDuplicates(dup: map<string, seq<string>>, ghost snapshot: PodModels) returns (ripe: seq<string>)
      requires forall m :: m in Duplicates(snapshot) <==> m in dup && |dup[m]| >= 2
      modifies this`dupObs
      ensures dupObs == Observe(old(State()).(loaded := snapshot))
      ensures forall m :: m in Sort(ripe) <==> m in Duplicates(snapshot) && dupObs[m] >= dedupGracePolls
    {
      DropResolved(dup);
      ghost var kept := dupObs;
      ripe := CountSightings(dup);
      assert dupObs.Keys == Duplicates(snapshot);
      forall m | m in dupObs ensures dupObs[m] == Obs(old(dupObs), m) + 1 {
        assert Obs(kept, m) == Obs(old(dupObs), m);
      }
      SameElements(Sort(ripe), ripe);
    }

    /** Phase 2: walk the ripe models in order until one unload has succeeded. Which copy goes depends on
        the snapshot `snap` alone; it is taken from whatever the tracker holds by now. */
    method IssueUnloads(ripe: seq<string>, dup: map<string, seq<string>>, ipSnap: map<string, string>,
                        unloads: (string, string) -> bool, ghost snap: TrackerState)
      requires pressure != null && snap.firstPoll && ipSnap == snap.podIP && Sorted(ripe)
      requires forall m :: m in ripe <==> m in Duplicates(snap.loaded) && Observe(snap)[m] >= dedupGracePolls
      requires forall m :: m in ripe ==> m in dup && Lists(dup[m], Holders(snap.loaded, m))
      modifies this`loaded, this`dupObs, Observers()`loadedModels
      ensures State() == AfterServing(old(State()), Target(snap, dedupGracePolls, old(Env(unloads))))
      ensures unloadObserver != null ==>
                unloadObserver.loadedModels == old(unloadObserver.loadedModels) -
                DroppedByServing(old(State()), Target(snap, dedupGracePolls, old(Env(unloads))))
    {
      ghost var env := Env(unloads);
      ghost var served: Option<Copy> := None;
      var issued := 0;
      for i := 0 to |ripe|
        invariant issued == (if served.Some? then 1 else 0)
        invariant served.Some? ==> served == Target(snap, dedupGracePolls, env)
        invariant served.None? ==> forall m :: m in ripe[..i] ==> m !in Candidates(snap, dedupGracePolls, env)
        invariant State() == AfterServing(old(State()), served)
        invariant unloadObserver != null ==>
                    unloadObserver.loadedModels ==
                    old(unloadObserver.loadedModels) - DroppedByServing(old(State()), served)
      {
        if issued >= MAX_UNLOADS_PER_CYCLE { break; }
        assert Env(unloads) == env;
        var ok := TryUnload(ripe[i], dup[ripe[i]], ipSnap, unloads, snap);
        if ok {
          FirstCandidateWins(ripe, i, snap, dedupGracePolls, env);
          served := Some(Copy(Loser(snap, env, ripe[i]), ripe[i]));
          issued := issued + 1;
        } else {
          assert ripe[i] !in Candidates(snap, dedupGracePolls, env);
        }
      }
      assert served == Target(snap, dedupGracePolls, env);
    }

    /** One turn of that walk: pick the loser, find its IP, ask it to unload. */
    method TryUnload(model: string, holders: seq<string>, ipSnap: map<string, string>,
                     unloads: (string, string) -> bool, ghost snap: TrackerState) returns (ok: bool)
      requires pressure != null && ipSnap == snap.podIP
      requires model in Duplicates(snap.loaded) && Lists(holders, Holders(snap.loaded, model))
      modifies this`loaded, this`dupObs, Observers()`loadedModels
      ensures ok <==> Unloadable(snap, old(Env(unloads)), model)
      ensures var c := if ok then Some(Copy(Loser(snap, old(Env(unloads)), model), model)) else None;
              && State() == AfterServing(old(State()), c)
              && (unloadObserver != null ==>
                    unloadObserver.loadedModels ==
                    old(unloadObserver.loadedModels) - DroppedByServing(old(State()), c))
    {
      var loserKey := PickLoser(holders);
      assert (set h | h in holders) == Holders(snap.loaded, model);
      MinUnique(loserKey, Loser(snap, Env(unloads), model), Holders(snap.loaded, model), Env(unloads).pressure.value);
      if loserKey == "" { return false; }
      if loserKey !in ipSnap || ipSnap[loserKey] == "" { return false; }
      if !unloads(ipSnap[loserKey], model) { return false; }
      MarkUnloaded(loserKey, model);
      dupObs := dupObs - {model};
      ok := true;
    }

    /** The holder with the least pressure, ties by key; "" when there is none. */
    method PickLoser(holders: seq<string>) returns (loser: string)
      requires pressure != null
      ensures holders == [] ==> loser == ""
      ensures holders != [] ==> IsMin(loser, (set h | h in holders), PodState.PressureOf(pressure.data))
    {
      if |holders| == 0 { return ""; }
      var sorted := Sort(holders);
      ghost var rank := PodState.PressureOf(pressure.data);
      SameElements(sorted, holders);
      loser := sorted[0];
      var loserScore := pressure.Pressure(loser);
      for i := 1 to |sorted|
        invariant LeastOf(loser, sorted[..i], rank) && loserScore == rank(loser)
      {
        var s := pressure.Pressure(sorted[i]);
        ExtendLeast(loser, sorted, i, rank);
        if s < loserScore {
          loser := sorted[i];
          loserScore := s;
        }
      }
      assert sorted[..|sorted|] == sorted;
    }
  }

  ghost predicate LeastOf(x: string, s: seq<string>, rank: string -> real)
  {
    x in s && forall y :: y in s ==> Precedes(rank, x, y)
  }

  lemma SameElements(a: seq<string>, b: seq<string>)
    requires multiset(a) == multiset(b)
    ensures |a| == |b| && forall x :: x in a <==> x in b
  {
    assert |multiset(a)| == |a| && |multiset(b)| == |b|;
    forall x ensures x in a <==> x in b {
      assert x in multiset(a) <==> x in multiset(b);
    }
  }

  /** In a sorted list a later element displaces the running minimum only by a lower score. */
  lemma ExtendLeast(loser: string, sorted: seq<string>, i: nat, rank: string -> real)
    requires Sorted(sorted) && 0 < i < |sorted| && LeastOf(loser, sorted[..i], rank)
    ensures LeastOf(if rank(sorted[i]) < rank(loser) then sorted[i] else loser, sorted[..i + 1], rank)
  {
    assert sorted[..i + 1] == sorted[..i] + [sorted[i]];
    var k :| 0 <= k < i && sorted[k] == loser;
    assert Leq(sorted[k], sorted[i]);
  }

  /** The outcome of one in-flight load, shared by everyone who waits for it. */
  class LoadResult {
    var done: bool
    var failed: bool

    constructor ()
      ensures !done && !failed
    {
      done, failed := false, false;
    }
  }

  /** The model loader. Its methods are taken without interference; LoaderProtocol interleaves
      their critical sections. */
  class Plugin {
    var tracker: Tracker?
    var loadingModels: map<string, LoadResult>
    var loadedModels: set<string>

    constructor ()
      ensures tracker == null && loadingModels == map[] && loadedModels == {}
    {
      tracker, loadingModels, loadedModels := null, map[], {};
    }

    /** The wiring that WithTracker sets up. */
    ghost predicate Wired()
      reads this, tracker
    {
      tracker != null ==> tracker.unloadObserver == this
    }

    method WithTracker(t: Tracker?)
      modifies this`tracker, t
      ensures tracker == t && Wired()
      ensures t != null ==> t.State() == old(t.State())
    {
      tracker := t;
      if t != null {
        t.SetUnloadObserver(this);
      }
    }

    method InvalidateLoadedModel(podIP: string, model: string)
      modifies this`loadedModels
      ensures loadedModels == old(loadedModels) - (if podIP == "" || model == "" then {} else {FlatKey(podIP, model)})
    {
      if podIP == "" || model == "" { return; }
      var loadKey := FlatKey(podIP, model);
      loadedModels := loadedModels - {loadKey};
    }

    method MarkTrackerLoaded(trackerKey: string, model: string)
      requires Wired()
      modifies tracker
      ensures Wired()
      ensures tracker != null ==> tracker.State() == DedupSpec.MarkLoaded(old(tracker.State()), trackerKey, model)
    {
      if tracker == null || trackerKey == "" { return; }
      tracker.MarkLoaded(trackerKey, model);
    }

    method MarkTrackerUnloaded(trackerKey: string, model: string)
      requires Wired()
      modifies tracker, this`loadedModels
      ensures Wired()
      ensures tracker != null ==> tracker.State() == DedupSpec.MarkUnloaded(old(tracker.State()), trackerKey, model)
      ensures loadedModels == old(loadedModels) -
                              (if tracker == null then {} else Dropped(old(tracker.State()), trackerKey, model))
    {
      if tracker == null || trackerKey == "" { return; }
      tracker.MarkUnloaded(trackerKey, model);
    }

    /** Reads a pod's answer to the status query; None is a failed query. */
    static method IsModelLoaded(answer: Option<seq<Entry>>, model: string) returns (warm: bool)
      ensures warm <==> answer.Some? && FirstMatchWarm(answer.value, model)
    {
      if answer.None? { return false; }
      var entries := answer.value;
      for i := 0 to |entries|
        invariant forall j :: 0 <= j < i ==> entries[j].id != model
      {
        if entries[i].id == model {
          var status := entries[i].status;
          return status == "loaded" || status == "running" || status == "";
        }
      }
      warm := false;
    }

    method HandleAlreadyLoadedOrLoading(loadKey: string, podIP: string, model: string, env: RequestEnv)
      returns (handled: bool)
      requires Wired()
      modifies tracker
      ensures Wired()
      ensures handled <==> loadKey in loadedModels || Joined(loadKey in loadingModels, env)
      ensures tracker != null ==>
                tracker.State() ==
                if loadKey in loadedModels then DedupSpec.MarkLoaded(old(tracker.State()), podIP, model)
                else old(tracker.State())
    {
      if loadKey in loadedModels {
        MarkTrackerLoaded(podIP, model);
        return true;
      }
      if loadKey in loadingModels {
        match env.early {
          case Published(failed) => if failed { return false; }
          case Cancelled =>
        }
        return true;
      }
      handled := false;
    }

    /** Loads the model, or waits for whoever is loading it; the registration is gone afterwards. */
    method LoadModel(podIP: string, model: string, env: RequestEnv) returns (ok: bool)
      modifies this`loadingModels, this`loadedModels
      ensures ok <==> LoadWorked(FlatKey(podIP, model) in old(loadingModels), env)
      ensures loadingModels == old(loadingModels)
      ensures loadedModels == old(loadedModels) +
              (if ok && FlatKey(podIP, model) !in old(loadingModels) then {FlatKey(podIP, model)} else {})
    {
      var loadKey := FlatKey(podIP, model);
      if loadKey in loadingModels {
        return env.late == Published(false);
      }
      var result := new LoadResult();
      loadingModels := loadingModels[loadKey := result];
      if env.loads {
        loadedModels := loadedModels + {loadKey};
      }
      // the deferred cleanup publishes the outcome to every waiter
      loadingModels := loadingModels - {loadKey};
      result.failed := !env.loads;
      result.done := true;
      ok := env.loads;
    }

    /** One request, from the scheduling decision to the forward. */
    method PreRequest(podIP: string, model: string, env: RequestEnv)
      requires Wired()
      modifies this`loadingModels, this`loadedModels, tracker
      ensures Wired() && loadingModels == old(loadingModels)
      ensures var after := Request(Replica(if tracker == null then FRESH else old(tracker.State()), old(loadedModels)),
                                   FlatKey(podIP, model) in old(loadingModels), podIP, model, env);
              && loadedModels == after.cache
              && (tracker != null ==> tracker.State() == after.tracker)
    {
      if model == "" || podIP == "" { return; }
      var loadKey := FlatKey(podIP, model);
      var handled := HandleAlreadyLoadedOrLoading(loadKey, podIP, model, env);
      if handled { return; }
      var warm := IsModelLoaded(env.answer, model);
      if warm {
        loadedModels := loadedModels + {loadKey};
        MarkTrackerLoaded(podIP, model);
        return;
      }
      MarkTrackerLoaded(podIP, model);
      var ok := LoadModel(podIP, model, env);
      if !ok {
        MarkTrackerUnloaded(podIP, model);
      }
    }
  }
}
