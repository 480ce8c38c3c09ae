/** The bound of bounded waiting is exact. With as many earlier models as the grace window is long
    the throttle can serve them in rotation forever: a run in which every unload works, and a ripe
    duplicate that sorts after them never gets its turn. */
module DedupStarvation {
  import opened StringOrder
  import opened Wrappers
  import opened DedupSpec
  import opened PollSpec
  import opened DedupHistory

  const VICTIM := "b"

  /** The earlier models: "a", "aa", "aaa", ... */
  function Name(j: nat): (n: string)
    ensures |n| == j + 1
  {
    if j == 0 then "a" else "a" + Name(j - 1)
  }

  lemma {:induction false} NamesOrdered(i: nat, j: nat)
    ensures i < j ==> Less(Name(i), Name(j))
    ensures Less(Name(j), VICTIM)
  {
    if i > 0 && j > 0 {
      NamesOrdered(i - 1, j - 1);
      assert Name(i)[1..] == Name(i - 1) && Name(j)[1..] == Name(j - 1);
    } else if j > 0 {
      assert Name(j)[0] == 'a' && Name(j)[1..] == Name(j - 1);
    }
  }

  ghost function Names(k: nat): set<string>
  {
    set j | 0 <= j < k :: Name(j)
  }

  lemma {:induction false} NamesCount(k: nat)
    ensures |Names(k)| == k
  {
    if k > 0 {
      NamesCount(k - 1);
      assert Names(k) == Names(k - 1) + {Name(k - 1)};
    }
  }

  // ----- The run -----

  function Join(model: string): seq<Event>
  {
    [Mark("p", model), Mark("q", model)]
  }

  function NextTurn(grace: nat, w: nat): nat
  {
    if w + 1 >= grace then 0 else w + 1
  }

  /** The index the rotation serves `n` passes after the first unload. */
  function Turn(grace: nat, n: nat): (w: nat)
    ensures grace > 0 ==> w < grace
  {
    if n == 0 then 0 else NextTurn(grace, Turn(grace, n - 1))
  }

  /** One more earlier model becomes duplicated before each pass, `k` of them in all. */
  ghost function Filling(k: nat): seq<Event>
    requires k >= 1
  {
    if k == 1 then
      [Listed([ListedPod("p", Some([])), ListedPod("q", Some([]))])] + Join(VICTIM) + Join(Name(0))
    else Filling(k - 1) + [PassRun(WILLING)] + Join(Name(k - 1))
  }

  /** After that the environment only reloads what was just unloaded, `n` times. */
  ghost function Rotation(grace: nat, n: nat): seq<Event>
    requires grace >= 1
  {
    if n == 0 then Filling(grace)
    else Rotation(grace, n - 1) + [PassRun(WILLING), Mark("p", Name(Turn(grace, n - 1)))]
  }

  // ----- The states it goes through -----

  /** `k` earlier models and the victim are on both pods. */
  ghost predicate Copied(s: TrackerState, k: nat)
  {
    && s.firstPoll
    && s.podIP == map["p" := "p", "q" := "q"]
    && s.loaded == map["p" := Names(k) + {VICTIM}, "q" := Names(k) + {VICTIM}]
  }

  /** `age` gives the earlier models' counters. */
  ghost predicate Aged(dupObs: map<string, nat>, k: nat, victimAge: nat, age: nat -> nat)
  {
    && Obs(dupObs, VICTIM) == victimAge
    && (forall j: nat :: j < k ==> Obs(dupObs, Name(j)) == age(j))
    && (forall j: nat :: j >= k ==> Obs(dupObs, Name(j)) == 0)
  }

  ghost predicate Shape(s: TrackerState, k: nat, victimAge: nat, age: nat -> nat)
  {
    Copied(s, k) && Aged(s.dupObs, k, victimAge, age)
  }

  lemma {:induction false} BothHold(s: TrackerState, k: nat, v: nat, age: nat -> nat)
    requires Shape(s, k, v, age)
    ensures Duplicates(s.loaded) == Names(k) + {VICTIM}
    ensures forall m :: m in Duplicates(s.loaded) ==> Loser(s, WILLING, m) == "p" && Unloadable(s, WILLING, m)
  {
    assert Less("p", "q");
    forall m | m in Names(k) + {VICTIM} ensures m in Duplicates(s.loaded) {
      assert "p" in Holders(s.loaded, m) && "q" in Holders(s.loaded, m);
      TwoHoldersDuplicate(s.loaded, m, "p", "q");
    }
    forall m | m in Duplicates(s.loaded) ensures Loser(s, WILLING, m) == "p" {
      assert Holders(s.loaded, m) == {"p", "q"};
      assert IsMin("p", {"p", "q"}, NoRank);
      MinUnique(Loser(s, WILLING, m), "p", {"p", "q"}, NoRank);
    }
  }

  /** A pass during the filling: nothing is ripe yet, every counter grows. */
  lemma {:induction false} QuietPass(s: TrackerState, grace: nat, k: nat, v: nat, age: nat -> nat)
    requires Shape(s, k, v, age)
    requires v + 1 < grace && forall j: nat :: j < k ==> age(j) + 1 < grace
    ensures Shape(Pass(s, grace, WILLING), k, v + 1, j => age(j) + 1)
    ensures Winner(s, grace, WILLING) == None
  {
    BothHold(s, k, v, age);
    assert Candidates(s, grace, WILLING) == {};
    NamesDistinct();
  }

  lemma {:induction false} NamesDistinct()
    ensures forall i: nat, j: nat :: Name(i) == Name(j) ==> i == j
    ensures forall i: nat :: Name(i) != VICTIM
  {
    forall i: nat, j: nat | Name(i) == Name(j) ensures i == j { assert |Name(i)| == |Name(j)|; }
    forall i: nat ensures Name(i) != VICTIM { NamesOrdered(i, i); LessAsymmetric(Name(i), VICTIM); }
  }

  lemma {:induction false} MarkBoth(s: TrackerState, models: set<string>, m: string)
    requires m != "" && s.loaded == map["p" := models, "q" := models]
    ensures MarkLoaded(MarkLoaded(s, "p", m), "q", m) ==
            s.(loaded := map["p" := models + {m}, "q" := models + {m}], firstPoll := true)
  {
  }

  lemma {:induction false} Joining(s: TrackerState, k: nat, v: nat, age: nat -> nat)
    requires Shape(s, k, v, age) && age(k) == 0
    ensures Shape(MarkLoaded(MarkLoaded(s, "p", Name(k)), "q", Name(k)), k + 1, v, age)
  {
    MarkBoth(s, Names(k) + {VICTIM}, Name(k));
    assert Names(k + 1) + {VICTIM} == Names(k) + {VICTIM} + {Name(k)};
  }

  /** A pass of the rotation: `w` is the one ripe earlier model, so it wins over the victim. */
  lemma {:induction false} ServesEarlier(s: TrackerState, grace: nat, w: nat, v: nat, age: nat -> nat)
    requires w < grace && Shape(s, grace, v, age)
    requires age(w) + 1 == grace && forall j: nat :: j < grace && j != w ==> age(j) + 1 < grace
    ensures Target(s, grace, WILLING) == Some(Copy("p", Name(w)))
  {
    BothHold(s, grace, v, age);
    NamesDistinct();
    NamesOrdered(w, w);
    var c := Candidates(s, grace, WILLING);
    assert Name(w) in Names(grace);
    assert Name(w) in c;
    assert c <= {Name(w), VICTIM};
    assert IsMin(Name(w), c, NoRank);
    MinUnique(Name(w), Winner(s, grace, WILLING).value, c, NoRank);
  }

  lemma {:induction false} UnmarkAndReload(s: TrackerState, all: set<string>, m: string)
    requires m != "" && m in all && s.firstPoll && s.loaded == map["p" := all, "q" := all]
    ensures MarkLoaded(MarkUnloaded(s, "p", m), "p", m).loaded == s.loaded
  {
    assert all - {m} + {m} == all;
  }

  function Served(age: nat -> nat, w: nat): nat -> nat
  {
    (j: nat) => if j == w then 0 else age(j) + 1
  }

  lemma {:induction false} ServingAges(s: TrackerState, grace: nat, w: nat, v: nat, age: nat -> nat)
    requires w < grace && Shape(s, grace, v, age)
    ensures Aged(Observe(s) - {Name(w)}, grace, v + 1, Served(age, w))
  {
    BothHold(s, grace, v, age);
    NamesDistinct();
  }

  /** ... and it is reloaded right after. */
  lemma {:induction false} ServingPass(s: TrackerState, grace: nat, w: nat, v: nat, age: nat -> nat)
    requires w < grace && Shape(s, grace, v, age)
    requires Target(s, grace, WILLING) == Some(Copy("p", Name(w)))
    ensures Shape(MarkLoaded(Pass(s, grace, WILLING), "p", Name(w)), grace, v + 1, Served(age, w))
  {
    var all := Names(grace) + {VICTIM};
    assert Name(w) in all;
    UnmarkAndReload(s.(dupObs := Observe(s)), all, Name(w));
    ServingAges(s, grace, w, v, age);
  }

  // ----- Putting the run together -----

  ghost predicate NeverServed(r: Record, earlier: set<string>)
  {
    && VICTIM in r.dups && VICTIM in r.unloadable && r.issued != Some(VICTIM)
    && r.dups <= earlier + {VICTIM}
  }

  ghost predicate AllNeverServed(log: seq<Record>, earlier: set<string>)
  {
    forall i :: 0 <= i < |log| ==> NeverServed(log[i], earlier)
  }

  lemma {:induction false} RunAppend(grace: int, events: seq<Event>, e: Event)
    ensures Run(grace, events + [e]) == Extend(Run(grace, events), grace, e)
  {
    assert (events + [e])[..|events|] == events;
  }

  function FillAge(k: nat): nat -> nat
  {
    (j: nat) => if j < k then k - 1 - j else 0
  }

  function RotationAge(grace: nat, w: nat): nat -> nat
  {
    (j: nat) => if j < w then w - 1 - j else if j < grace then grace - 1 - (j - w) else 0
  }

  /** Where a run stands after `v` passes, with `k` earlier models joined. */
  ghost predicate Stage(h: History, grace: nat, k: nat, v: nat, age: nat -> nat)
  {
    Shape(h.state, k, v, age) && |h.log| == v && AllNeverServed(h.log, Names(grace))
  }

  ghost function AfterPass(h: History, grace: nat): History
  {
    Extend(h, grace, PassRun(WILLING))
  }

  ghost function AfterJoin(h: History, model: string): History
  {
    h.(state := MarkLoaded(MarkLoaded(h.state, "p", model), "q", model))
  }

  lemma {:induction false} RunJoin(grace: int, events: seq<Event>, model: string)
    ensures Run(grace, events + Join(model)) == AfterJoin(Run(grace, events), model)
  {
    RunAppend(grace, events, Mark("p", model));
    RunAppend(grace, events + [Mark("p", model)], Mark("q", model));
    assert events + Join(model) == events + [Mark("p", model)] + [Mark("q", model)];
  }

  lemma {:induction false} FillStep(h: History, grace: nat, k: nat)
    requires 2 <= k <= grace && Stage(h, grace, k - 1, k - 2, FillAge(k - 1))
    ensures Stage(AfterJoin(AfterPass(h, grace), Name(k - 1)), grace, k, k - 1, FillAge(k))
  {
    FillPass(h, grace, k);
    Joining(AfterPass(h, grace).state, k - 1, k - 1, FillAge(k));
  }

  lemma {:induction false} FillPass(h: History, grace: nat, k: nat)
    requires 2 <= k <= grace && Stage(h, grace, k - 1, k - 2, FillAge(k - 1))
    ensures Stage(AfterPass(h, grace), grace, k - 1, k - 1, FillAge(k))
  {
    QuietPass(h.state, grace, k - 1, k - 2, FillAge(k - 1));
    RecordNeverServed(h.state, grace, k - 1, k - 2, FillAge(k - 1));
    var s1 := AfterPass(h, grace).state;
    Ageing(s1.dupObs, k - 1, k - 1, j => FillAge(k - 1)(j) + 1, FillAge(k));
  }

  lemma {:induction false} Ageing(dupObs: map<string, nat>, k: nat, v: nat, age: nat -> nat, other: nat -> nat)
    requires Aged(dupObs, k, v, age) && forall j: nat :: j < k ==> age(j) == other(j)
    ensures Aged(dupObs, k, v, other)
  {
  }

  lemma {:induction false} FillingRuns(grace: nat, k: nat)
    requires 1 <= k <= grace
    ensures Stage(Run(grace, Filling(k)), grace, k, k - 1, FillAge(k))
  {
    if k == 1 {
      FirstFilled(grace);
    } else {
      FillingRuns(grace, k - 1);
      FillStep(Run(grace, Filling(k - 1)), grace, k);
      RunAppend(grace, Filling(k - 1), PassRun(WILLING));
      RunJoin(grace, Filling(k - 1) + [PassRun(WILLING)], Name(k - 1));
    }
  }

  lemma {:induction false} FirstFilled(grace: nat)
    ensures Stage(Run(grace, Filling(1)), grace, 1, 0, FillAge(1))
  {
    var listing := [Listed([ListedPod("p", Some([])), ListedPod("q", Some([]))])];
    var s0 := Refresh(FRESH, listing[0].pods);
    EmptyListing(listing[0].pods);
    assert Run(grace, listing) == History(s0, []) by {
      RunAppend(grace, [], listing[0]);
      assert [] + listing == listing;
    }
    RunJoin(grace, listing, VICTIM);
    RunJoin(grace, listing + Join(VICTIM), Name(0));
    MarkBoth(s0, {}, VICTIM);
    assert Names(0) + {VICTIM} == {} + {VICTIM};
    Joining(s0.(loaded := map["p" := {} + {VICTIM}, "q" := {} + {VICTIM}]), 0, 0, FillAge(1));
  }

  lemma {:induction false} EmptyListing(pods: seq<ListedPod>)
    requires pods == [ListedPod("p", Some([])), ListedPod("q", Some([]))]
    ensures var s := Refresh(FRESH, pods);
            s == TrackerState(map["p" := {}, "q" := {}], map["p" := "p", "q" := "q"], map[], true)
  {
    assert pods[..1] == [pods[0]] && pods[..1][..0] == [];
    assert WarmModels([]) == {};
    assert Polled(map[], pods[..1]) == map["p" := {}];
    assert Polled(map[], pods) == map["p" := {}]["q" := {}];
    assert pods[0] in pods && pods[1] in pods;
    assert ListedIPs(pods) == {"p", "q"};
  }

  lemma {:induction false} RecordNeverServed(s: TrackerState, grace: nat, k: nat, v: nat, age: nat -> nat)
    requires Shape(s, k, v, age) && k <= grace
    requires Winner(s, grace, WILLING) != Some(VICTIM)
    ensures Enabled(s, WILLING) && NeverServed(RecordOf(s, grace, WILLING), Names(grace))
  {
    BothHold(s, k, v, age);
  }

  ghost function AfterReload(h: History, model: string): History
  {
    h.(state := MarkLoaded(h.state, "p", model))
  }

  lemma {:induction false} RotationAges(grace: nat, w: nat)
    requires w < grace
    ensures RotationAge(grace, w)(w) + 1 == grace
    ensures forall j: nat :: j < grace && j != w ==> RotationAge(grace, w)(j) + 1 < grace
    ensures forall j: nat :: j < grace ==>
              Served(RotationAge(grace, w), w)(j) == RotationAge(grace, NextTurn(grace, w))(j)
  {
  }

  lemma {:induction false} RotationState(s: TrackerState, grace: nat, v: nat, w: nat)
    requires w < grace && Shape(s, grace, v, RotationAge(grace, w))
    ensures Shape(MarkLoaded(Pass(s, grace, WILLING), "p", Name(w)), grace, v + 1,
                  RotationAge(grace, NextTurn(grace, w)))
  {
    var age := RotationAge(grace, w);
    RotationAges(grace, w);
    ServesEarlier(s, grace, w, v, age);
    ServingPass(s, grace, w, v, age);
    var s' := MarkLoaded(Pass(s, grace, WILLING), "p", Name(w));
    Ageing(s'.dupObs, grace, v + 1, Served(age, w), RotationAge(grace, NextTurn(grace, w)));
  }

  lemma {:induction false} RotationStep(h: History, grace: nat, v: nat, w: nat)
    requires w < grace && Stage(h, grace, grace, v, RotationAge(grace, w))
    ensures Stage(AfterReload(AfterPass(h, grace), Name(w)), grace, grace, v + 1,
                  RotationAge(grace, NextTurn(grace, w)))
  {
    assert Winner(h.state, grace, WILLING) != Some(VICTIM) by {
      RotationAges(grace, w);
      ServesEarlier(h.state, grace, w, v, RotationAge(grace, w));
      NamesDistinct();
    }
    RecordNeverServed(h.state, grace, grace, v, RotationAge(grace, w));
    RotationState(h.state, grace, v, w);
  }

  lemma {:induction false} RotationRuns(grace: nat, n: nat)
    requires grace >= 1
    ensures Stage(Run(grace, Rotation(grace, n)), grace, grace, grace - 1 + n, RotationAge(grace, Turn(grace, n)))
  {
    if n == 0 {
      FillingRuns(grace, grace);
      Ageing(Run(grace, Filling(grace)).state.dupObs, grace, grace - 1, FillAge(grace), RotationAge(grace, 0));
    } else {
      var w := Turn(grace, n - 1);
      var before := Rotation(grace, n - 1);
      RotationRuns(grace, n - 1);
      RotationStep(Run(grace, before), grace, grace - 2 + n, w);
      RunServe(grace, before, Name(w));
    }
  }

  lemma {:induction false} RunServe(grace: nat, before: seq<Event>, model: string)
    ensures Run(grace, before + [PassRun(WILLING), Mark("p", model)]) ==
            AfterReload(AfterPass(Run(grace, before), grace), model)
  {
    RunAppend(grace, before, PassRun(WILLING));
    RunAppend(grace, before + [PassRun(WILLING)], Mark("p", model));
    assert before + [PassRun(WILLING), Mark("p", model)] == before + [PassRun(WILLING)] + [Mark("p", model)];
  }

  /** Bounded waiting needs fewer earlier models than the window: with exactly `grace` of them, for
      every `n` there is a run in which the victim is ripe, duplicated and unloadable for more than
      `n` passes on end and is never deduplicated. */
  lemma {:induction false} StarvationAtTheBound(grace: nat, n: nat)
    requires grace >= 1
    ensures |Names(grace)| == grace && forall x :: x in Names(grace) ==> Less(x, VICTIM)
    ensures var log := Run(grace, Rotation(grace, n)).log;
            && ValidLog(log, grace) && |log| == grace - 1 + n
            && AllNeverServed(log, Names(grace))
            && forall i :: grace - 1 <= i < |log| ==> Streak(log[..i], VICTIM) + 1 >= grace
  {
    NamesCount(grace);
    forall x | x in Names(grace) ensures Less(x, VICTIM) {
      var j: nat :| j < grace && x == Name(j);
      NamesOrdered(j, j);
    }
    CounterRefinesHistory(grace, Rotation(grace, n));
    RotationRuns(grace, n);
    var log := Run(grace, Rotation(grace, n)).log;
    forall i | grace - 1 <= i < |log| ensures Streak(log[..i], VICTIM) + 1 >= grace {
      StaysRipe(log, VICTIM, 0, i);
    }
  }

  /** `ConcurrentRetractionStrands` in a reached state, for every grace window: once the filling run is
      over, the next pass is about to unload "a" from "p". If "q" retracts its copy between that pass's
      snapshot and its unmark, no pod has "a" any more. */
  lemma {:induction false} StrandedInARun(grace: nat)
    requires grace >= 1
    ensures var s := Run(grace, Filling(grace)).state; var c := Copy("p", Name(0));
            && Holders(s.loaded, Name(0)) == {"p", "q"} && Target(s, grace, WILLING) == Some(c)
            && Holders(Commit(MarkUnloaded(s.(dupObs := Observe(s)), "q", Name(0)), c).loaded, Name(0)) == {}
  {
    var s := Run(grace, Filling(grace)).state;
    FillingRuns(grace, grace);
    ServesEarlier(s, grace, 0, grace - 1, FillAge(grace));
    assert Name(0) in Names(grace);
    assert Holders(s.loaded, Name(0)) == {"p", "q"};
    ConcurrentRetractionStrands(s, grace, WILLING, "q");
  }
}
