/** Dedup against what the pods really hold: a pass reads the tracker's map, which a poll fills from
    answers and, for a silent pod, from what it knew before. */
module RealContents {
  import opened StringOrder
  import opened Wrappers
  import opened DedupSpec
  import opened PollSpec
  import opened LoadKey
  import opened RequestSpec
  import opened Scheduling

  // ----- Copies the tracker shows and the pods do not have -----

  ghost predicate Tracked(w: World, c: Copy)
  {
    c.pod in Holders(w.replica.tracker.loaded, c.model)
  }

  ghost predicate Untrue(w: World, c: Copy)
  {
    c.model != "" && Tracked(w, c) && c !in w.actual
  }

  /** Pods answer what they have: requests and polls alike. */
  ghost predicate Truthful(w: World, e: Event)
  {
    match e
    case Serve(podIP, model, request, _) => AnsweredWarm(request, model) ==> Copy(podIP, model) in w.actual
    case Listed(pods) => forall p :: p in pods && p.answer.Some? ==> AnswersTrue(w, p.ip, p.answer.value)
    case Reclaim(_) => true
    case Lost(_) => true
  }

  ghost predicate AnswersTrue(w: World, ip: string, entries: seq<Entry>)
  {
    forall m :: m in WarmModels(entries) && m != "" ==> Copy(ip, m) in w.actual
  }

  ghost predicate AllTruthful(w: World, grace: int, events: seq<Event>)
  {
    forall i :: 0 <= i < |events| ==> Truthful(Worlds(w, grace, events[..i]), events[i])
  }

  /** The tracker routes every pod by its own key, as polls leave it. */
  predicate RoutedByIP(w: World)
  {
    forall p :: p in w.replica.tracker.podIP ==> w.replica.tracker.podIP[p] == p
  }

  /** The poll lists the pod, but its deciding query failed, so it keeps its last known models. */
  ghost predicate Silent(prev: PodModels, pods: seq<ListedPod>, ip: string)
  {
    exists i :: Decides(prev, pods, i) && pods[i].ip == ip && pods[i].answer.None?
  }

  ghost predicate Hits(w: World, e: Event, c: Copy)
  {
    e.Serve? && Copy(e.podIP, e.model) == c && c.pod != "" && c.model != ""
    && FlatKey(c.pod, c.model) in w.replica.cache
  }

  /** The step makes the tracker show a copy that is not there: the pod loses a tracked one, or a request
      is served from the loader's cache for one that is gone. */
  ghost predicate Strays(w: World, e: Event, c: Copy)
  {
    c.model != "" && ((e == Lost(c) && Tracked(w, c)) || (Hits(w, e, c) && c !in w.actual))
  }

  /** The step sets the tracker right about the copy: a poll in which the pod is not silent, a request
      for it that is not served from the cache, or its dedup. */
  ghost predicate Corrects(w: World, grace: int, e: Event, c: Copy)
  {
    match e
    case Serve(podIP, model, _, _) => Copy(podIP, model) == c && podIP != "" && !Hits(w, e, c)
    case Listed(pods) => !Silent(w.replica.tracker.loaded, pods, c.pod)
    case Reclaim(env) => Target(w.replica.tracker, grace, env) == Some(c)
    case Lost(_) => false
  }

  /** One step makes a tracked copy untrue, or leaves it so, exactly in this way. */
  lemma UntrueStep(w: World, grace: int, e: Event, c: Copy)
    requires RoutedByIP(w) && Truthful(w, e)
    ensures Untrue(Next(w, grace, e), c) <==> Strays(w, e, c) || (Untrue(w, c) && !Corrects(w, grace, e, c))
  {
    match e
    case Serve(podIP, model, request, leftover) => ServeStep(w, grace, e, c);
    case Listed(pods) => ListedStep(w, grace, pods, c);
    case Reclaim(env) => ReclaimStep(w, grace, env, c);
    case Lost(_) =>
  }

  lemma ServeStep(w: World, grace: int, e: Event, c: Copy)
    requires e.Serve? && Truthful(w, e)
    ensures Untrue(Next(w, grace, e), c) <==> Strays(w, e, c) || (Untrue(w, c) && !Corrects(w, grace, e, c))
  {
  }

  lemma ReclaimStep(w: World, grace: int, env: PassEnv, c: Copy)
    requires RoutedByIP(w)
    ensures var w' := Next(w, grace, Reclaim(env)); var t := Target(w.replica.tracker, grace, env);
            && w'.actual == w.actual - (if t.Some? then {t.value} else {})
            && (c.model != "" ==> (Tracked(w', c) <==> Tracked(w, c) && t != Some(c)))
  {
  }

  /** After a poll a copy is tracked if it was answered, or the pod was silent and had it tracked. */
  lemma ListedStep(w: World, grace: int, pods: seq<ListedPod>, c: Copy)
    requires Truthful(w, Listed(pods))
    ensures Untrue(Next(w, grace, Listed(pods)), c)
            <==> Untrue(w, c) && Silent(w.replica.tracker.loaded, pods, c.pod)
  {
    var prev := w.replica.tracker.loaded;
    if i :| Decides(prev, pods, i) && pods[i].ip == c.pod {
      PollValues(prev, pods, i);
      assert pods[i] in pods;
      OneDecides(prev, pods, i);
    } else {
      NobodyDecides(prev, pods, c.pod);
    }
  }

  lemma OneDecides(prev: PodModels, pods: seq<ListedPod>, i: int)
    requires Decides(prev, pods, i)
    ensures Silent(prev, pods, pods[i].ip) <==> pods[i].answer.None?
  {
    forall j | Decides(prev, pods, j) && pods[j].ip == pods[i].ip ensures j == i { }
  }

  lemma {:induction false} NobodyDecides(prev: PodModels, pods: seq<ListedPod>, ip: string)
    requires forall i :: Decides(prev, pods, i) ==> pods[i].ip != ip
    ensures ip !in Polled(prev, pods)
  {
    PollKeys(prev, pods, ip);
    if p :| p in pods && p.ip == ip && Stores(prev, p) {
      var k :| 0 <= k < |pods| && pods[k] == p;
      var i := LastStoring(prev, pods, k);
      assert false;
    }
  }

  lemma {:induction false} LastStoring(prev: PodModels, pods: seq<ListedPod>, k: nat) returns (i: nat)
    requires k < |pods| && Stores(prev, pods[k])
    ensures Decides(prev, pods, i) && pods[i].ip == pods[k].ip
    decreases |pods| - k
  {
    i := k;
    if j :| k < j < |pods| && pods[j].ip == pods[k].ip && Stores(prev, pods[j]) {
      i := LastStoring(prev, pods, j);
    }
  }

  lemma RoutesStay(w: World, grace: int, e: Event)
    requires RoutedByIP(w)
    ensures RoutedByIP(Next(w, grace, e))
  {
  }

  lemma {:induction false} RunRoutes(w: World, grace: int, events: seq<Event>)
    requires RoutedByIP(w)
    ensures RoutedByIP(Worlds(w, grace, events))
  {
    if events != [] {
      var last := |events| - 1;
      RunRoutes(w, grace, events[..last]);
      RoutesStay(Worlds(w, grace, events[..last]), grace, events[last]);
    }
  }

  // ----- The same over whole runs -----

  /** The `i`th event led the tracker astray about the copy and none since has corrected it. */
  ghost predicate AstraySince(w: World, grace: int, events: seq<Event>, c: Copy, i: nat)
  {
    && i < |events| && Strays(Worlds(w, grace, events[..i]), events[i], c)
    && (forall j :: i < j < |events| ==> !Corrects(Worlds(w, grace, events[..j]), grace, events[j], c))
  }

  ghost predicate Astray(w: World, grace: int, events: seq<Event>, c: Copy)
  {
    exists i: nat :: AstraySince(w, grace, events, c, i)
  }

  lemma AstrayGrows(w: World, grace: int, init: seq<Event>, e: Event, c: Copy, i: nat)
    requires i < |init|
    ensures AstraySince(w, grace, init + [e], c, i)
       <==> AstraySince(w, grace, init, c, i) && !Corrects(Worlds(w, grace, init), grace, e, c)
  {
    var events := init + [e];
    assert forall j :: 0 <= j < |init| ==> events[..j] == init[..j] && events[j] == init[j];
    assert events[..|init|] == init && events[|init|] == e;
  }

  lemma {:induction false} AstrayStep(w: World, grace: int, init: seq<Event>, e: Event, c: Copy)
    ensures var mid := Worlds(w, grace, init);
            Astray(w, grace, init + [e], c)
            <==> Strays(mid, e, c) || (Astray(w, grace, init, c) && !Corrects(mid, grace, e, c))
  {
    var events := init + [e];
    var last := |init|;
    assert events[..last] == init && events[last] == e;
    if Strays(Worlds(w, grace, init), e, c) { assert AstraySince(w, grace, events, c, last); }
    forall i: nat | i < last
      ensures AstraySince(w, grace, events, c, i)
         <==> AstraySince(w, grace, init, c, i) && !Corrects(Worlds(w, grace, init), grace, e, c)
    {
      AstrayGrows(w, grace, init, e, c, i);
    }
  }

  /** In every run with true answers the tracker shows a copy that is not there exactly if a step led it
      astray and no later one corrected it. */
  lemma {:induction false} UntrueExactly(w: World, grace: int, events: seq<Event>, c: Copy)
    requires RoutedByIP(w) && AllTruthful(w, grace, events) && !Untrue(w, c)
    ensures Untrue(Worlds(w, grace, events), c) <==> Astray(w, grace, events, c)
  {
    if events != [] {
      TruthfulPrefix(w, grace, events);
      UntrueExactly(w, grace, events[..|events| - 1], c);
      UntrueGrows(w, grace, events, c);
    }
  }

  lemma {:induction false} UntrueGrows(w: World, grace: int, events: seq<Event>, c: Copy)
    requires events != [] && RoutedByIP(w)
    requires var last := |events| - 1; var init := events[..last];
             && Truthful(Worlds(w, grace, init), events[last])
             && (Untrue(Worlds(w, grace, init), c) <==> Astray(w, grace, init, c))
    ensures Untrue(Worlds(w, grace, events), c) <==> Astray(w, grace, events, c)
  {
    var last := |events| - 1;
    var init, e := events[..last], events[last];
    RunRoutes(w, grace, init);
    UntrueStep(Worlds(w, grace, init), grace, e, c);
    AstrayStep(w, grace, init, e, c);
    assert events == init + [e];
  }

  lemma TruthfulPrefix(w: World, grace: int, events: seq<Event>)
    requires AllTruthful(w, grace, events) && events != []
    ensures var last := |events| - 1;
            AllTruthful(w, grace, events[..last]) && Truthful(Worlds(w, grace, events[..last]), events[last])
  {
    var last := |events| - 1;
    assert Truthful(Worlds(w, grace, events[..last]), events[last]);
    forall i | 0 <= i < last ensures Truthful(Worlds(w, grace, events[..last][..i]), events[..last][i]) {
      assert events[..last][..i] == events[..i];
    }
  }

  // ----- The last real copy -----

  ghost predicate ReallyHeld(w: World, model: string)
  {
    exists p :: Copy(p, model) in w.actual
  }

  /** Another pod really has the model: one the tracker shows and is not astray about, or one it does not
      show. */
  ghost predicate AnotherHolds(w: World, grace: int, events: seq<Event>, c: Copy)
  {
    var end := Worlds(w, grace, events);
    exists p :: p != c.pod && (if Tracked(end, Copy(p, c.model)) then !Astray(w, grace, events, Copy(p, c.model))
                               else Copy(p, c.model) in end.actual)
  }

  /** After any run with true answers, from a tracker that shows nothing untrue: a pass leaves the model it
      unloads on a pod that really has it exactly if another pod holds it that way. */
  lemma {:induction false} PassStrandsExactly(w: World, grace: int, events: seq<Event>, env: PassEnv)
    requires RoutedByIP(w) && AllTruthful(w, grace, events) && forall c :: !Untrue(w, c)
    requires Target(Worlds(w, grace, events).replica.tracker, grace, env).Some?
    requires Target(Worlds(w, grace, events).replica.tracker, grace, env).value.model != ""
    ensures var end := Worlds(w, grace, events); var c := Target(end.replica.tracker, grace, env).value;
            ReallyHeld(Next(end, grace, Reclaim(env)), c.model) <==> AnotherHolds(w, grace, events, c)
  {
    var end := Worlds(w, grace, events);
    var c := Target(end.replica.tracker, grace, env).value;
    RunRoutes(w, grace, events);
    ReclaimStep(end, grace, env, c);
    forall p ensures var d := Copy(p, c.model);
                     Tracked(end, d) ==> (d in end.actual <==> !Astray(w, grace, events, d))
    {
      UntrueExactly(w, grace, events, Copy(p, c.model));
    }
    var after := Next(end, grace, Reclaim(env));
    assert forall p :: Copy(p, c.model) in after.actual <==> p != c.pod && Copy(p, c.model) in end.actual;
  }

  /** Where the loader's keys are distinct, and pods lose models by dedup alone, nobody goes astray. */
  lemma {:induction false} NobodyAstray(w: World, grace: int, events: seq<Event>, pairs: iset<Copy>)
    requires w.replica.cache == {} && RoutedByIP(w) && forall c :: !Untrue(w, c)
    requires AllHonest(w, grace, events, pairs) && AllTruthful(w, grace, events) && KeysDistinct(pairs)
    ensures forall c :: !Untrue(Worlds(w, grace, events), c)
  {
    forall c ensures !Untrue(Worlds(w, grace, events), c) {
      UntrueExactly(w, grace, events, c);
      if i: nat :| AstraySince(w, grace, events, c, i) {
        var mid := Worlds(w, grace, events[..i]);
        assert AllHonest(w, grace, events[..i], pairs) by {
          assert forall j :: 0 <= j < i ==> events[..i][..j] == events[..j];
        }
        assert Honest(mid, events[i], pairs);
        CacheCoherent(w, grace, events[..i], pairs);
        assert false;
      }
    }
  }

  lemma KeepsReal(w: World, grace: int, e: Event, model: string)
    requires RoutedByIP(w) && (forall c :: !Untrue(w, c)) && !e.Lost?
    requires model != "" && ReallyHeld(w, model)
    ensures ReallyHeld(Next(w, grace, e), model)
  {
    var p :| Copy(p, model) in w.actual;
    if e.Reclaim? {
      var t := Target(w.replica.tracker, grace, e.env);
      ReclaimStep(w, grace, e.env, Copy(p, model));
      if t == Some(Copy(p, model)) {
        DuplicateHasAnother(w.replica.tracker.loaded, model, p);
        var q :| q in Holders(w.replica.tracker.loaded, model) && q != p;
        assert !Untrue(w, Copy(q, model));
      }
    } else {
      assert Copy(p, model) in Next(w, grace, e).actual;
    }
  }

  /** Then the promise holds of the pods themselves: through any run of requests, polls and passes every
      model that some pod really has stays really held by some pod. */
  lemma {:induction false} RealModelsKept(w: World, grace: int, events: seq<Event>, pairs: iset<Copy>, model: string)
    requires w.replica.cache == {} && RoutedByIP(w) && forall c :: !Untrue(w, c)
    requires AllHonest(w, grace, events, pairs) && AllTruthful(w, grace, events) && KeysDistinct(pairs)
    requires model != "" && ReallyHeld(w, model)
    ensures ReallyHeld(Worlds(w, grace, events), model)
  {
    if events != [] {
      var last := |events| - 1;
      var init := events[..last];
      assert forall j :: 0 <= j < last ==> init[..j] == events[..j];
      TruthfulPrefix(w, grace, events);
      assert Honest(Worlds(w, grace, init), events[last], pairs);
      RealModelsKept(w, grace, init, pairs, model);
      RunRoutes(w, grace, init);
      NobodyAstray(w, grace, init, pairs);
      KeepsReal(Worlds(w, grace, init), grace, events[last], model);
    }
  }

  // ----- A pod that restarts -----

  const BOTH := World(Replica(FRESH, {}), {Copy("p", "m"), Copy("q", "m")})
  const WARM := Some([Entry("m", "loaded")])
  const SILENT := Listed([ListedPod("p", WARM), ListedPod("q", None)])

  /** Both pods have answered, "q" has restarted and stayed silent through `n` polls and passes since. */
  ghost predicate Restarted(w: World, n: nat)
  {
    && w.actual == {Copy("p", "m")} && w.replica.cache == {} && w.replica.tracker.firstPoll
    && w.replica.tracker.loaded == map["p" := {"m"}, "q" := {"m"}]
    && w.replica.tracker.podIP == map["p" := "p", "q" := "q"]
    && Obs(w.replica.tracker.dupObs, "m") == n
  }

  lemma {:induction false} TruthfulAppend(w: World, grace: int, events: seq<Event>, e: Event)
    requires AllTruthful(w, grace, events) && Truthful(Worlds(w, grace, events), e)
    ensures AllTruthful(w, grace, events + [e])
  {
    var longer := events + [e];
    forall i | 0 <= i < |longer| ensures Truthful(Worlds(w, grace, longer[..i]), longer[i]) {
      assert i < |events| ==> longer[..i] == events[..i];
      assert i == |events| ==> longer[..i] == events;
    }
  }

  lemma {:induction false} TwoPolled(prev: PodModels, pods: seq<ListedPod>)
    requires |pods| == 2 && pods[0] == ListedPod("p", WARM) && pods[1].ip == "q"
    requires pods[1].answer == WARM || (pods[1].answer == None && "q" in prev && prev["q"] == {"m"})
    ensures Polled(prev, pods) == map["p" := {"m"}, "q" := {"m"}] && ListedIPs(pods) == {"p", "q"}
  {
    var warm := [Entry("m", "loaded")];
    assert warm[0] in warm;
    assert WarmModels(warm) == {"m"};
    assert pods[..1] == [pods[0]] && pods[..1][..0] == [];
    assert Polled(prev, pods[..1]) == map["p" := {"m"}];
    assert pods[0] in pods && pods[1] in pods;
  }

  /** Nothing happens but polls, passes and the one restart. */
  ghost predicate OnlyRestart(events: seq<Event>)
  {
    forall e :: e in events ==> e.Listed? || e == Reclaim(WILLING) || e == Lost(Copy("q", "m"))
  }

  lemma {:induction false} FirstPoll(grace: int) returns (events: seq<Event>)
    ensures OnlyRestart(events)
    ensures Restarted(Worlds(BOTH, grace, events), 0) && AllTruthful(BOTH, grace, events)
  {
    var both := Listed([ListedPod("p", WARM), ListedPod("q", WARM)]);
    var restart := Lost(Copy("q", "m"));
    TwoPolled(map[], both.pods);
    WorldsAppend(BOTH, grace, [], both);
    TruthfulAppend(BOTH, grace, [], both);
    events := [] + [both];
    WorldsAppend(BOTH, grace, events, restart);
    TruthfulAppend(BOTH, grace, events, restart);
    events := events + [restart];
  }

  /** The silent poll changes nothing. */
  lemma {:induction false} SilentPoll(w: World, grace: int, n: nat)
    requires Restarted(w, n)
    ensures Restarted(Next(w, grace, SILENT), n) && Truthful(w, SILENT)
  {
    TwoPolled(w.replica.tracker.loaded, [ListedPod("p", WARM), ListedPod("q", None)]);
  }

  lemma {:induction false} BothDuplicate(w: World, n: nat)
    requires Restarted(w, n)
    ensures var s := w.replica.tracker;
            && Duplicates(s.loaded) == {"m"} && Loser(s, WILLING, "m") == "p" && Unloadable(s, WILLING, "m")
  {
    var s := w.replica.tracker;
    assert Holders(s.loaded, "m") == {"p", "q"};
    TwoHoldersDuplicate(s.loaded, "m", "p", "q");
    assert Less("p", "q");
    assert IsMin("p", {"p", "q"}, NoRank);
    MinUnique(Loser(s, WILLING, "m"), "p", {"p", "q"}, NoRank);
  }

  lemma {:induction false} QuietPass(w: World, grace: int, n: nat)
    requires Restarted(w, n) && n + 1 < grace
    ensures Restarted(Next(w, grace, Reclaim(WILLING)), n + 1)
  {
    BothDuplicate(w, n);
    assert Candidates(w.replica.tracker, grace, WILLING) == {};
  }

  lemma {:induction false} LastPass(w: World, grace: int, n: nat)
    requires Restarted(w, n) && n + 1 >= grace
    ensures Target(w.replica.tracker, grace, WILLING) == Some(Copy("p", "m"))
    ensures ReallyHeld(w, "m") && !ReallyHeld(Next(w, grace, Reclaim(WILLING)), "m")
  {
    BothDuplicate(w, n);
    assert Candidates(w.replica.tracker, grace, WILLING) == {"m"};
    assert Next(w, grace, Reclaim(WILLING)).actual == {};
    assert Copy("p", "m") in w.actual;
  }

  lemma {:induction false} AfterQuietPass(grace: int, n: nat, polled: seq<Event>)
    requires Restarted(Worlds(BOTH, grace, polled), n) && AllTruthful(BOTH, grace, polled) && n + 1 < grace
    ensures var events := polled + [Reclaim(WILLING)];
            Restarted(Worlds(BOTH, grace, events), n + 1) && AllTruthful(BOTH, grace, events)
  {
    WorldsAppend(BOTH, grace, polled, Reclaim(WILLING));
    TruthfulAppend(BOTH, grace, polled, Reclaim(WILLING));
    QuietPass(Worlds(BOTH, grace, polled), grace, n);
  }

  lemma {:induction false} AfterSilentPoll(grace: int, n: nat, events: seq<Event>)
    requires Restarted(Worlds(BOTH, grace, events), n) && AllTruthful(BOTH, grace, events)
    ensures var polled := events + [SILENT];
            Restarted(Worlds(BOTH, grace, polled), n) && AllTruthful(BOTH, grace, polled)
  {
    SilentPoll(Worlds(BOTH, grace, events), grace, n);
    WorldsAppend(BOTH, grace, events, SILENT);
    TruthfulAppend(BOTH, grace, events, SILENT);
  }

  /** `n` rounds of a silent poll and a quiet pass, and one more silent poll. */
  lemma {:induction false} SilentRounds(grace: int, n: nat) returns (events: seq<Event>)
    requires n < grace
    ensures OnlyRestart(events)
    ensures AllTruthful(BOTH, grace, events) && Restarted(Worlds(BOTH, grace, events), n)
  {
    if n == 0 {
      events := FirstPoll(grace);
    } else {
      events := SilentRounds(grace, n - 1);
      AfterQuietPass(grace, n - 1, events);
      events := events + [Reclaim(WILLING)];
    }
    AfterSilentPoll(grace, n, events);
    events := events + [SILENT];
  }

  /** It happens with one pass at a time and true answers only, however long the grace window: a pod that
      restarts, and cannot be queried until the window is over, still counts as a holder, and the pass
      unloads the one real copy. */
  lemma {:induction false} RestartStrands(grace: nat) returns (events: seq<Event>)
    requires grace >= 1
    ensures OnlyRestart(events) && AllTruthful(BOTH, grace, events)
    ensures var w := Worlds(BOTH, grace, events);
            && Target(w.replica.tracker, grace, WILLING) == Some(Copy("p", "m"))
            && ReallyHeld(w, "m") && !ReallyHeld(Next(w, grace, Reclaim(WILLING)), "m")
  {
    events := SilentRounds(grace, grace - 1);
    LastPass(Worlds(BOTH, grace, events), grace, grace - 1);
  }
}
