/** VRAM bookkeeping and scoring: internal/vram/tracker.go and internal/plugins/scorer/vram.go, with
    scores as reals and byte counts in 64-bit arithmetic. */
module Vram {
  import opened Wrappers

  datatype Metrics = Metrics(total: int, used: int, available: int)

  datatype Choice = NoNodes | NoSuitableNode | Best(node: string, available: int)

  /** The running maximum both readers compute: never below zero. */
  ghost predicate IsMaxAvailable(metrics: map<string, Metrics>, nodes: set<string>, max: int)
  {
    && max >= 0
    && (forall n :: n in nodes && n in metrics ==> metrics[n].available <= max)
    && (max > 0 ==> exists n :: n in nodes && n in metrics && metrics[n].available == max)
  }

  class Tracker {
    var metrics: map<string, Metrics>

    constructor ()
      ensures metrics == map[]
    {
      metrics := map[];
    }

    method SetMetrics(node: string, m: Metrics)
      modifies this
      ensures metrics == old(metrics)[node := m]
    {
      metrics := metrics[node := m];
    }

    /** The node a load goes to. An unnamed node never wins. */
    method GetNodeWithMostAvailableVRAM() returns (c: Choice)
      ensures c.NoNodes? <==> metrics == map[]
      ensures c.Best? ==>
                && c.node in metrics && c.node != "" && metrics[c.node].available == c.available > 0
                && (forall n :: n in metrics ==> metrics[n].available <= c.available)
      ensures c.NoSuitableNode? ==>
                || (forall n :: n in metrics ==> metrics[n].available <= 0)
                || ("" in metrics && metrics[""].available > 0
                    && forall n :: n in metrics ==> metrics[n].available <= metrics[""].available)
    {
      if |metrics| == 0 { return NoNodes; }
      var bestNode, maxAvailable := "", 0;
      var nodes := metrics.Keys;
      while nodes != {}
        invariant nodes <= metrics.Keys
        invariant IsMaxAvailable(metrics, metrics.Keys - nodes, maxAvailable)
        invariant maxAvailable > 0 ==> bestNode in metrics && metrics[bestNode].available == maxAvailable
        invariant maxAvailable == 0 ==> bestNode == ""
      {
        var name :| name in nodes;
        nodes := nodes - {name};
        if metrics[name].available > maxAvailable {
          maxAvailable := metrics[name].available;
          bestNode := name;
        }
      }
      if bestNode == "" { return NoSuitableNode; }
      c := Best(bestNode, maxAvailable);
    }
  }

  // ----- Scores -----

  const BYTES_PER_GB := 0x4000_0000
  const DEFAULT_VRAM_THRESHOLD_GB := 4

  /** 64-bit two's complement. */
  function Wrap64(x: int): int
  {
    (x + 0x8000_0000_0000_0000) % 0x1_0000_0000_0000_0000 - 0x8000_0000_0000_0000
  }

  function ThresholdBytes(thresholdGB: int): int
  {
    Wrap64(thresholdGB * BYTES_PER_GB)
  }

  /** The score of a pod whose node has metrics. */
  function NodeScore(available: int, threshold: int, max: int): real
  {
    if available < threshold then 0.1
    else if max > 0 then 0.1 + 0.9 * (available as real) / (max as real)
    else 0.5
  }

  /** A candidate, and its "namespace/name" if the framework knows its pod. */
  datatype Candidate = Candidate(id: nat, key: Option<string>)

  function PodScore(pod: Candidate, podToNode: map<string, string>, metrics: map<string, Metrics>,
                    threshold: int, max: int): real
  {
    if pod.key.None? || pod.key.value !in podToNode || podToNode[pod.key.value] !in metrics then 0.0
    else NodeScore(metrics[podToNode[pod.key.value]].available, threshold, max)
  }

  class VRAMScorer {
    const tracker: Tracker
    const thresholdGB: int

    constructor (tracker: Tracker, thresholdGB: int)
      ensures this.tracker == tracker
      ensures this.thresholdGB > 0
      ensures this.thresholdGB == if thresholdGB <= 0 then 4 else thresholdGB
    {
      this.tracker := tracker;
      this.thresholdGB := if thresholdGB <= 0 then DEFAULT_VRAM_THRESHOLD_GB else thresholdGB;
    }

    /** Scores the candidates, given where their pods run; `max` is the normaliser it used. */
    method Score(pods: seq<Candidate>, podToNode: map<string, string>)
      returns (scores: map<Candidate, real>, ghost max: int)
      ensures IsMaxAvailable(tracker.metrics, tracker.metrics.Keys, max)
      ensures scores.Keys == set p | p in pods
      ensures forall p :: p in pods ==>
                scores[p] == PodScore(p, podToNode, tracker.metrics, ThresholdBytes(thresholdGB), max)
      ensures ThresholdBytes(thresholdGB) > 0 ==>
                ScoresRank(scores, podToNode, tracker.metrics, ThresholdBytes(thresholdGB))
    {
      scores := map[];
      var nodeVRAM := tracker.metrics;
      var maxAvailable := 0;
      var nodes := nodeVRAM.Keys;
      while nodes != {}
        invariant nodes <= nodeVRAM.Keys
        invariant IsMaxAvailable(nodeVRAM, nodeVRAM.Keys - nodes, maxAvailable)
      {
        var name :| name in nodes;
        nodes := nodes - {name};
        if nodeVRAM[name].available > maxAvailable {
          maxAvailable := nodeVRAM[name].available;
        }
      }
      max := maxAvailable;
      var thresholdBytes := ThresholdBytes(thresholdGB);
      for i := 0 to |pods|
        invariant scores.Keys == set p | p in pods[..i]
        invariant forall p :: p in pods[..i] ==>
                    scores[p] == PodScore(p, podToNode, nodeVRAM, thresholdBytes, maxAvailable)
      {
        var pod := pods[i];
        assert pods[..i + 1] == pods[..i] + [pod];
        if pod.key.None? {
          scores := scores[pod := 0.0];
          continue;
        }
        if pod.key.value !in podToNode {
          scores := scores[pod := 0.0];
          continue;
        }
        var node := podToNode[pod.key.value];
        if node !in nodeVRAM {
          scores := scores[pod := 0.0];
          continue;
        }
        var available := nodeVRAM[node].available;
        if available < thresholdBytes {
          scores := scores[pod := 0.1];
          continue;
        }
        if maxAvailable > 0 {
          scores := scores[pod := 0.1 + 0.9 * (available as real) / (maxAvailable as real)];
        } else {
          scores := scores[pod := 0.5];
        }
      }
      assert pods[..|pods|] == pods;
      if thresholdBytes > 0 { PodScoresRank(scores, podToNode, nodeVRAM, thresholdBytes, max); }
    }
  }

  /** The framework knows the pod, its node is known, and the node has metrics. */
  predicate Known(pod: Candidate, podToNode: map<string, string>, metrics: map<string, Metrics>)
  {
    pod.key.Some? && pod.key.value in podToNode && podToNode[pod.key.value] in metrics
  }

  function AvailableTo(pod: Candidate, podToNode: map<string, string>, metrics: map<string, Metrics>): int
    requires Known(pod, podToNode, metrics)
  {
    metrics[podToNode[pod.key.value]].available
  }

  /** What scores mean, told without the formula: a pod without node or metrics scores 0 and below every other
      one; one below the threshold scores 0.1; the others score by what their own node has available,
      proportionally above 0.1, and 1 exactly if no node has more. */
  ghost predicate ScoresRank(scores: map<Candidate, real>, podToNode: map<string, string>,
                             metrics: map<string, Metrics>, threshold: int)
  {
    && (forall p :: p in scores && !Known(p, podToNode, metrics) ==> scores[p] == 0.0)
    && (forall p :: p in scores && Known(p, podToNode, metrics) ==>
          KnownScore(scores[p], AvailableTo(p, podToNode, metrics), metrics, threshold))
    && (forall p, q :: p in scores && q in scores && Known(p, podToNode, metrics) && Known(q, podToNode, metrics) ==>
          InProportion(scores[p], AvailableTo(p, podToNode, metrics),
                       scores[q], AvailableTo(q, podToNode, metrics), threshold))
  }

  ghost predicate KnownScore(score: real, available: int, metrics: map<string, Metrics>, threshold: int)
  {
    && 0.1 <= score <= 1.0
    && (available < threshold ==> score == 0.1)
    && (available >= threshold ==>
          score > 0.1 && (score == 1.0 <==> forall n :: n in metrics ==> metrics[n].available <= available))
  }

  predicate InProportion(a: real, availableA: int, b: real, availableB: int, threshold: int)
  {
    && (availableA <= availableB ==> a <= b)
    && (availableA >= threshold && availableB >= threshold ==>
          (a - 0.1) * (availableB as real) == (b - 0.1) * (availableA as real))
  }

  lemma {:induction false} PodScoresRank(scores: map<Candidate, real>, podToNode: map<string, string>,
                                         metrics: map<string, Metrics>, threshold: int, max: int)
    requires threshold > 0 && IsMaxAvailable(metrics, metrics.Keys, max)
    requires forall p :: p in scores ==> scores[p] == PodScore(p, podToNode, metrics, threshold, max)
    ensures ScoresRank(scores, podToNode, metrics, threshold)
  {
    forall p | p in scores && Known(p, podToNode, metrics)
      ensures KnownScore(scores[p], AvailableTo(p, podToNode, metrics), metrics, threshold)
    {
      KnownScores(podToNode[p.key.value], metrics, threshold, max);
    }
    forall p, q | p in scores && q in scores && Known(p, podToNode, metrics) && Known(q, podToNode, metrics)
      ensures InProportion(scores[p], AvailableTo(p, podToNode, metrics),
                           scores[q], AvailableTo(q, podToNode, metrics), threshold)
    {
      ScoresInProportion(AvailableTo(p, podToNode, metrics), AvailableTo(q, podToNode, metrics), threshold, max);
    }
  }

  lemma KnownScores(node: string, metrics: map<string, Metrics>, threshold: int, max: int)
    requires threshold > 0 && IsMaxAvailable(metrics, metrics.Keys, max) && node in metrics
    ensures KnownScore(NodeScore(metrics[node].available, threshold, max), metrics[node].available, metrics, threshold)
  {
    ScoreRange(metrics[node].available, threshold, max);
    if metrics[node].available >= threshold { Ratio(metrics[node].available as real, max as real); }
  }

  lemma ScoresInProportion(a: int, b: int, threshold: int, max: int)
    requires threshold > 0 && a <= max && b <= max
    ensures InProportion(NodeScore(a, threshold, max), a, NodeScore(b, threshold, max), b, threshold)
  {
    if a <= b { ScoreMonotone(a, b, threshold, max); }
    if a >= threshold && b >= threshold {
      Proportion(a as real, b as real, max as real);
    }
  }

  lemma Proportion(a: real, b: real, c: real)
    requires c > 0.0
    ensures (0.9 * a / c) * b == (0.9 * b / c) * a
  {
    assert (0.9 * a / c) * c == 0.9 * a && (0.9 * b / c) * c == 0.9 * b;
    var x, y := 0.9 * a / c, 0.9 * b / c;
    assert x * b * c == (x * c) * b == 0.9 * a * b;
    assert y * a * c == (y * c) * a == 0.9 * a * b;
    assert (x * b - y * a) * c == 0.0;
  }

  /** The threshold in bytes is positive exactly when the configured gigabytes fit, modulo the
      wrap-around of the 64-bit product - so for every sensible configuration. */
  lemma ThresholdPositive(thresholdGB: int)
    ensures ThresholdBytes(thresholdGB) > 0 <==> 0 < thresholdGB % 0x4_0000_0000 < 0x2_0000_0000
    ensures 0 < thresholdGB < 0x2_0000_0000 ==> ThresholdBytes(thresholdGB) == thresholdGB * 0x4000_0000
  {
    var q, r := thresholdGB / 0x4_0000_0000, thresholdGB % 0x4_0000_0000;
    assert thresholdGB * BYTES_PER_GB == q * 0x1_0000_0000_0000_0000 + r * BYTES_PER_GB;
  }

  /** A ratio of positive reals up to one, and one only at equality. */
  lemma Ratio(a: real, b: real)
    requires 0.0 < a <= b
    ensures 0.0 < a / b <= 1.0 && (a / b == 1.0 <==> a == b)
  {
    assert a == (a / b) * b;
  }

  /** Scores lie in [0.1, 1], and 1 is reached exactly by at-or-above-threshold pods on a node tied for
      the maximum. */
  lemma ScoreRange(available: int, threshold: int, max: int)
    requires threshold > 0 && available <= max
    ensures 0.1 <= NodeScore(available, threshold, max) <= 1.0
    ensures NodeScore(available, threshold, max) == 1.0 <==> available >= threshold && available == max
  {
    if available >= threshold {
      Ratio(available as real, max as real);
    }
  }

  /** More available VRAM never scores lower. */
  lemma ScoreMonotone(a: int, b: int, threshold: int, max: int)
    requires threshold > 0 && a <= b <= max
    ensures NodeScore(a, threshold, max) <= NodeScore(b, threshold, max)
  {
    if a >= threshold {
      RatioMonotone(a as real, b as real, max as real);
    } else {
      ScoreRange(b, threshold, max);
    }
  }

  lemma RatioMonotone(a: real, b: real, c: real)
    requires 0.0 < a <= b && 0.0 < c
    ensures a / c <= b / c
  {
    assert b / c - a / c == (b - a) / c;
  }

  /** The node that GetNodeWithMostAvailableVRAM picks scores highest, and scores 1 once it is at the
      threshold. */
  lemma PickScoresHighest(metrics: map<string, Metrics>, best: string, other: string, threshold: int, max: int)
    requires threshold > 0 && best in metrics && other in metrics
    requires IsMaxAvailable(metrics, metrics.Keys, max)
    requires IsMaxAvailable(metrics, metrics.Keys, metrics[best].available) && metrics[best].available > 0
    ensures NodeScore(metrics[other].available, threshold, max) <= NodeScore(metrics[best].available, threshold, max)
    ensures NodeScore(metrics[best].available, threshold, max) == 1.0 <==> metrics[best].available >= threshold
  {
    assert metrics[best].available == max;
    ScoreMonotone(metrics[other].available, metrics[best].available, threshold, max);
    ScoreRange(metrics[best].available, threshold, max);
  }

  /** The fallback score of one half is that of a pod at the threshold when no node has anything available,
      which is so for some metrics exactly when the threshold is not positive. */
  lemma HalfScoreReachable(threshold: int)
    ensures (exists metrics: map<string, Metrics>, n, max :: n in metrics && IsMaxAvailable(metrics, metrics.Keys, max)
                                       && metrics[n].available >= threshold && max <= 0)
            <==> threshold <= 0
    ensures forall available, max :: available >= threshold && max <= 0 ==>
              NodeScore(available, threshold, max) == 0.5
  {
    if threshold <= 0 {
      var metrics := map["n" := Metrics(0, 0, 0)];
      assert "n" in metrics && IsMaxAvailable(metrics, metrics.Keys, 0);
    }
  }
}
