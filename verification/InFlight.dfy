/** Decisions in flight: between the filter that lets a request through to a pod and the mark the loader
    then puts on that pod, other requests are filtered and marked. */
module InFlight {
  import opened Wrappers
  import opened DedupSpec
  import opened FilterSpec
  import Scheduling
  import DedupStarvation

  /** The tracker, and the decisions taken but not yet marked, oldest first. */
  datatype Front = Front(tracker: TrackerState, flight: seq<Copy>)

  datatype Step =
    | Filter(model: string, pods: seq<Pod>, pick: nat)   // a decision is taken
    | Mark(k: nat)                                       // the `k`th in flight marks its pod
    | Leave(k: nat)                                      // ... or ends without a mark
    | Unmark(pod: string, model: string)                 // a failed load takes its mark back
    | Dedup(env: PassEnv)

  ghost function Apply(s: Front, grace: int, step: Step): Front
  {
    match step
    case Filter(model, pods, pick) =>
      var out := Filtered(s.tracker, model, pods);
      if pick >= |out| || out[pick].address.None? then s
      else s.(flight := s.flight + [Copy(out[pick].address.value, model)])
    case Mark(k) =>
      if k >= |s.flight| then s
      else Front(MarkLoaded(s.tracker, s.flight[k].pod, s.flight[k].model), s.flight[..k] + s.flight[k + 1..])
    case Leave(k) =>
      if k >= |s.flight| then s else s.(flight := s.flight[..k] + s.flight[k + 1..])
    case Unmark(pod, model) => s.(tracker := MarkUnloaded(s.tracker, pod, model))
    case Dedup(env) => s.(tracker := Pass(s.tracker, grace, env))
  }

  ghost function Run(s: Front, grace: int, steps: seq<Step>): Front
  {
    if steps == [] then s else Apply(Run(s, grace, steps[..|steps| - 1]), grace, steps[|steps| - 1])
  }

  /** The pods that decisions in flight will mark for the model. */
  ghost function Flying(flight: seq<Copy>, model: string): set<string>
  {
    set c | c in flight && c.model == model :: c.pod
  }

  /** The most pods that were in flight for the model at any time. */
  ghost function Peak(s: Front, grace: int, steps: seq<Step>, model: string): nat
  {
    if steps == [] then |Flying(s.flight, model)|
    else
      var before := Peak(s, grace, steps[..|steps| - 1], model);
      var now := |Flying(Run(s, grace, steps).flight, model)|;
      if now > before then now else before
  }

  /** Holding the model, or about to be marked for it. */
  ghost function Taken(s: Front, model: string): set<string>
  {
    Holders(s.tracker.loaded, model) + Flying(s.flight, model)
  }

  /** Every decision is offered every pod that the tracker shows to have its model. */
  ghost predicate Offered(s: Front, step: Step)
  {
    step.Filter? ==> Scheduling.Covers(s.tracker, step.model, step.pods)
  }

  ghost predicate AllOffered(s: Front, grace: int, steps: seq<Step>)
  {
    forall i :: 0 <= i < |steps| ==> Offered(Run(s, grace, steps[..i]), steps[i])
  }

  lemma FilterTakes(s: Front, grace: int, step: Step, model: string)
    requires step.Filter? && Scheduling.Seeded(s.tracker) && Offered(s, step) && model != ""
    ensures var s' := Apply(s, grace, step);
            Taken(s', model) <= Taken(s, model) || Taken(s', model) == Flying(s'.flight, model)
  {
    var t := s.tracker;
    var out := Filtered(t, step.model, step.pods);
    if step.pick < |out| && out[step.pick].address.Some? && step.model == model && Holders(t.loaded, model) != {} {
      Scheduling.PickIsHolder(t, model, step.pods, step.pick);
    }
  }

  lemma FlightShrinks(flight: seq<Copy>, k: nat, model: string)
    requires k < |flight|
    ensures Flying(flight[..k] + flight[k + 1..], model) <= Flying(flight, model)
    ensures flight[k].model == model ==> flight[k].pod in Flying(flight, model)
  {
    assert flight[k] in flight;
  }

  lemma StepTakes(s: Front, grace: int, step: Step, model: string)
    requires Scheduling.Seeded(s.tracker) && Offered(s, step) && model != ""
    ensures var s' := Apply(s, grace, step);
            && Scheduling.Seeded(s'.tracker)
            && (Taken(s', model) <= Taken(s, model) || Taken(s', model) == Flying(s'.flight, model))
  {
    match step
    case Filter(_, _, _) => FilterTakes(s, grace, step, model);
    case Mark(k) =>
      if k < |s.flight| {
        FlightShrinks(s.flight, k, model);
        Scheduling.MarkedHolders(s.tracker, s.flight[k].pod, s.flight[k].model, model);
      }
    case Leave(k) => if k < |s.flight| { FlightShrinks(s.flight, k, model); }
    case Unmark(_, _) =>
    case Dedup(env) =>
      PassCopies(s.tracker, grace, env);
      HoldersOfCopies(s.tracker.loaded, model);
      HoldersOfCopies(Pass(s.tracker, grace, env).loaded, model);
  }

  function Max(a: nat, b: nat): nat
  {
    if a > b then a else b
  }

  lemma OfferedPrefix(s: Front, grace: int, steps: seq<Step>)
    requires AllOffered(s, grace, steps) && steps != []
    ensures var last := |steps| - 1;
            AllOffered(s, grace, steps[..last]) && Offered(Run(s, grace, steps[..last]), steps[last])
  {
    var last := |steps| - 1;
    assert Offered(Run(s, grace, steps[..last]), steps[last]);
    forall i | 0 <= i < last ensures Offered(Run(s, grace, steps[..last][..i]), steps[..last][i]) {
      assert steps[..last][..i] == steps[..i];
    }
  }

  lemma TakenGrows(mid: Front, grace: int, step: Step, model: string)
    requires Scheduling.Seeded(mid.tracker) && Offered(mid, step) && model != ""
    ensures var end := Apply(mid, grace, step);
            && Scheduling.Seeded(end.tracker)
            && |Taken(end, model)| <= Max(|Flying(end.flight, model)|, |Taken(mid, model)|)
  {
    StepTakes(mid, grace, step, model);
    var end := Apply(mid, grace, step);
    if Taken(end, model) <= Taken(mid, model) { SubsetSize(Taken(end, model), Taken(mid, model)); }
  }

  lemma {:induction false} TakenWithinPeak(s: Front, grace: int, steps: seq<Step>, model: string)
    requires Scheduling.Seeded(s.tracker) && AllOffered(s, grace, steps) && model != ""
    ensures var end := Run(s, grace, steps);
            && Scheduling.Seeded(end.tracker)
            && |Taken(end, model)| <= Max(Peak(s, grace, steps, model), |Taken(s, model)|)
  {
    if steps != [] {
      var last := |steps| - 1;
      OfferedPrefix(s, grace, steps);
      TakenWithinPeak(s, grace, steps[..last], model);
      TakenGrows(Run(s, grace, steps[..last]), grace, steps[last], model);
    }
  }

  /** However decisions, marks, retractions and passes interleave, no more pods get hold of a model than
      were in flight for it at one time, or had it or were in flight at the start. */
  lemma {:induction false} HoldersWithinPeak(s: Front, grace: int, steps: seq<Step>, model: string)
    requires Scheduling.Seeded(s.tracker) && AllOffered(s, grace, steps) && model != ""
    ensures |Holders(Run(s, grace, steps).tracker.loaded, model)|
            <= Max(Peak(s, grace, steps, model), |Taken(s, model)|)
  {
    var end := Run(s, grace, steps);
    TakenWithinPeak(s, grace, steps, model);
    SubsetSize(Holders(end.tracker.loaded, model), Taken(end, model));
  }

  // ----- The bound is reached -----

  const EMPTY := Front(FRESH, [])

  /** The decisions `i` to `n` of the rush. */
  ghost function Decided(i: nat, n: nat): seq<Copy>
    decreases n
  {
    if n <= i then [] else Decided(i, n - 1) + [Copy(DedupStarvation.Name(n - 1), "m")]
  }

  lemma {:induction false} DecidedTail(i: nat, n: nat)
    requires i < n
    ensures Decided(i, n) == [Copy(DedupStarvation.Name(i), "m")] + Decided(i + 1, n)
    decreases n
  {
    if i < n - 1 { DecidedTail(i, n - 1); }
  }

  ghost function NamesFrom(i: nat, n: nat): set<string>
  {
    set j | i <= j < n :: DedupStarvation.Name(j)
  }

  lemma {:induction false} DecidedPods(i: nat, n: nat)
    ensures Flying(Decided(i, n), "m") == NamesFrom(i, n)
    decreases n
  {
    if i < n {
      DecidedPods(i, n - 1);
      assert NamesFrom(i, n) == NamesFrom(i, n - 1) + {DedupStarvation.Name(n - 1)};
    }
  }

  lemma {:induction false} NamesFromCount(i: nat, n: nat)
    requires i <= n
    ensures |NamesFrom(i, n)| <= n
    ensures i == 0 ==> |NamesFrom(i, n)| == n
  {
    assert NamesFrom(0, n) == DedupStarvation.Names(n);
    DedupStarvation.NamesCount(n);
    SubsetSize(NamesFrom(i, n), NamesFrom(0, n));
  }

  ghost predicate Rushed(s: Front, n: nat, k: nat)
  {
    && s.flight == Decided(k, n) && Holders(s.tracker.loaded, "m") == NamesFrom(0, k)
  }

  lemma {:induction false} RunAppend(s: Front, grace: int, steps: seq<Step>, step: Step)
    ensures Run(s, grace, steps + [step]) == Apply(Run(s, grace, steps), grace, step)
    ensures Peak(s, grace, steps + [step], "m") ==
            Max(|Flying(Run(s, grace, steps + [step]).flight, "m")|, Peak(s, grace, steps, "m"))
    ensures AllOffered(s, grace, steps) && Offered(Run(s, grace, steps), step) ==>
              AllOffered(s, grace, steps + [step])
  {
    var longer := steps + [step];
    assert longer[..|steps|] == steps;
    forall i | 0 <= i < |longer| && AllOffered(s, grace, steps) && Offered(Run(s, grace, steps), step)
      ensures Offered(Run(s, grace, longer[..i]), longer[i])
    {
      assert i < |steps| ==> longer[..i] == steps[..i];
    }
  }

  lemma {:induction false} FilterRushes(s: Front, grace: int, n: nat)
    requires Rushed(s, n, 0)
    ensures var step := Filter("m", [Pod(Some(DedupStarvation.Name(n)), None)], 0);
            Rushed(Apply(s, grace, step), n + 1, 0) && Offered(s, step)
  {
    var pods := [Pod(Some(DedupStarvation.Name(n)), None)];
    assert NamesFrom(0, 0) == {};
    assert pods[..0] == [];
    assert WarmPods(s.tracker, "m", pods) == [];
  }

  lemma {:induction false} MarkRushes(s: Front, grace: int, n: nat, k: nat)
    requires k < n && Rushed(s, n, k)
    ensures Rushed(Apply(s, grace, Mark(0)), n, k + 1)
  {
    var p := DedupStarvation.Name(k);
    DecidedTail(k, n);
    assert s.flight[0] == Copy(p, "m") && s.flight[..0] + s.flight[1..] == Decided(k + 1, n);
    assert NamesFrom(0, k + 1) == NamesFrom(0, k) + {p};
    assert Holders(MarkLoaded(s.tracker, p, "m").loaded, "m") == Holders(s.tracker.loaded, "m") + {p};
  }

  /** A run to there, with `n` in flight at most. */
  ghost predicate Rushes(grace: int, steps: seq<Step>, n: nat, k: nat)
  {
    && Rushed(Run(EMPTY, grace, steps), n, k)
    && Peak(EMPTY, grace, steps, "m") == n && AllOffered(EMPTY, grace, steps)
  }

  lemma {:induction false} OneMoreMark(grace: int, steps: seq<Step>, n: nat, k: nat)
    requires k < n && Rushes(grace, steps, n, k)
    ensures Rushes(grace, steps + [Mark(0)], n, k + 1)
  {
    MarkRushes(Run(EMPTY, grace, steps), grace, n, k);
    RunAppend(EMPTY, grace, steps, Mark(0));
    DecidedPods(k + 1, n);
    NamesFromCount(k + 1, n);
  }

  lemma {:induction false} OneMoreFilter(grace: int, steps: seq<Step>, n: nat) returns (longer: seq<Step>)
    requires Rushes(grace, steps, n, 0)
    ensures Rushes(grace, longer, n + 1, 0)
  {
    var step := Filter("m", [Pod(Some(DedupStarvation.Name(n)), None)], 0);
    FilterRushes(Run(EMPTY, grace, steps), grace, n);
    RunAppend(EMPTY, grace, steps, step);
    DecidedPods(0, n + 1);
    NamesFromCount(0, n + 1);
    longer := steps + [step];
  }

  /** `n` requests are filtered, each offered one pod of its own, before any of them marks; then the
      first `k` mark. */
  lemma {:induction false} Rush(grace: int, n: nat, k: nat) returns (steps: seq<Step>)
    requires k <= n
    ensures Rushes(grace, steps, n, k)
  {
    steps := [];
    if k > 0 {
      steps := Rush(grace, n, k - 1);
      OneMoreMark(grace, steps, n, k - 1);
      steps := steps + [Mark(0)];
    } else if n > 0 {
      steps := Rush(grace, n - 1, 0);
      steps := OneMoreFilter(grace, steps, n - 1);
    }
  }

  /** The bound is the best there is: for every `n` there is a run, every decision offered every holder,
      with at most `n` in flight and `n` holders at the end. */
  lemma {:induction false} PeakIsReached(grace: int, n: nat) returns (steps: seq<Step>)
    ensures AllOffered(EMPTY, grace, steps) && Peak(EMPTY, grace, steps, "m") == n
    ensures |Holders(Run(EMPTY, grace, steps).tracker.loaded, "m")| == n
  {
    steps := Rush(grace, n, n);
    NamesFromCount(0, n);
  }
}
