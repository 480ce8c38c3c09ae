/** When the loader's cache is wrong: the entries of LoaderProtocol against what the pods hold. A status
    answer is written into the cache only later, and a dedup pass may come in between; and nobody tells the
    cache when a pod loses a model by itself. */
module LoaderStaleness {
  import opened LoaderProtocol

  /** A request would take the entry at its word, the pod does not have the model, and no call of the
      observer is on its way. */
  predicate Stale(s: State, k: Key)
  {
    k in s.cached && k !in s.actual && k !in s.pending
  }

  /** About to write the warm answer it got into the cache. */
  predicate Writing(pc: PC, k: Key)
  {
    (pc.Caching? || pc.Recording?) && pc.key == k
  }

  predicate StaleWrite(s: State, a: Action, k: Key)
  {
    && a.Advance? && a.tid in s.pcs && Writing(s.pcs[a.tid], k)
    && k !in s.actual && k !in s.pending
  }

  /** Leaves a stale entry: by writing it, or by taking the model from under it. */
  predicate Spoils(s: State, a: Action, k: Key)
  {
    StaleWrite(s, a, k) || (a == Vanish(k) && k in s.cached && k !in s.pending)
  }

  /** Drops the entry, or makes it true again, or is the unload whose observer will drop it. */
  predicate Heals(s: State, a: Action, k: Key)
  {
    || a.Clear? || a == Drop(k) || a == Warmed(k) || a == Unload(k)
    || (a.Advance? && a.tid in s.pcs && s.pcs[a.tid].Invalidating? && s.pcs[a.tid].key == k)
  }

  lemma StaleStep(s: State, a: Action, k: Key)
    requires Inv(s)
    ensures Stale(Apply(s, a), k) <==> Spoils(s, a, k) || (Stale(s, k) && !Heals(s, a, k))
  {
    if a.Advance? && a.tid in s.pcs {
      OwnersHaveResults(s, a.tid);
      CacheStep(s, a.tid, a.oracle, k);
    }
  }

  /** An owner's result exists, which is all the steps below need of the invariant. */
  predicate HasResult(s: State, t: Tid)
    requires t in s.pcs
  {
    Owns(s.pcs[t]) ==> s.pcs[t].rid < |s.results|
  }

  lemma OwnersHaveResults(s: State, t: Tid)
    requires Inv(s) && t in s.pcs
    ensures HasResult(s, t)
  {
    assert RequestOk(s, t);
  }

  lemma CacheStep(s: State, t: Tid, o: Oracle, k: Key)
    requires t in s.pcs && HasResult(s, t)
    ensures var s' := Step(s, t, o); var pc := s.pcs[t];
            && s'.actual == s.actual && s'.pending == s.pending
            && (k in s'.cached <==> Writing(pc, k) || (k in s.cached && !(pc.Invalidating? && pc.key == k)))
  {
  }

  predicate Loses(a: Action, k: Key)
  {
    a == Unload(k) || a == Vanish(k)
  }

  /** The model's pod last lost it there, and has not got it back since. */
  ghost predicate LastLoss(actions: seq<Action>, k: Key, d: nat)
  {
    && d < |actions| && Loses(actions[d], k)
    && (forall j :: d < j < |actions| ==> actions[j] != Warmed(k) && !Loses(actions[j], k))
  }

  ghost predicate LostIn(actions: seq<Action>, k: Key)
  {
    exists d: nat :: LastLoss(actions, k, d)
  }

  /** After every unload the observer has been called. */
  ghost predicate Settled(actions: seq<Action>, k: Key)
  {
    forall d :: 0 <= d < |actions| && actions[d] == Unload(k) ==> DroppedAfter(actions, k, d)
  }

  ghost predicate DroppedAfter(actions: seq<Action>, k: Key, d: int)
  {
    exists e :: d < e < |actions| && 0 <= e && actions[e] == Drop(k)
  }

  lemma ContentsStep(s: State, a: Action, k: Key)
    ensures var s' := Apply(s, a);
            && (k in s'.actual <==> a == Warmed(k) || (k in s.actual && !Loses(a, k)))
            && (k in s'.pending <==> a == Unload(k) || (k in s.pending && a != Drop(k)))
  {
    if a.Advance? && a.tid in s.pcs { PlaceStep(s, a.tid, a.oracle); }
  }

  lemma PlaceStep(s: State, t: Tid, o: Oracle)
    requires t in s.pcs
    ensures Step(s, t, o).actual == s.actual && Step(s, t, o).pending == s.pending
  {
  }

  /** Along a run from a state where the pod has the model: whether it still has it. */
  lemma {:induction false} GoneExactly(s: State, actions: seq<Action>, k: Key)
    requires k in s.actual
    ensures k !in Run(s, actions).actual <==> LostIn(actions, k)
  {
    if actions != [] {
      var last := |actions| - 1;
      var init, a := actions[..last], actions[last];
      GoneExactly(s, init, k);
      ContentsStep(Run(s, init), a, k);
      LossGrows(init, a, k);
      assert actions == init + [a];
    }
  }

  lemma LossGrows(init: seq<Action>, a: Action, k: Key)
    ensures LostIn(init + [a], k) <==> Loses(a, k) || (a != Warmed(k) && LostIn(init, k))
  {
    var actions := init + [a];
    var n := |init|;
    assert forall i :: 0 <= i < n ==> actions[i] == init[i];
    if Loses(a, k) {
      assert LastLoss(actions, k, n);
    } else if a == Warmed(k) {
      assert actions[n] == Warmed(k);
    } else {
      forall d: nat ensures LastLoss(init, k, d) <==> LastLoss(actions, k, d) { }
    }
  }

  /** In every run: whether the observer is still to be called. */
  lemma {:induction false} PendingExactly(actions: seq<Action>, k: Key)
    ensures k !in Run(INIT, actions).pending <==> Settled(actions, k)
  {
    if actions != [] {
      var last := |actions| - 1;
      var init, a := actions[..last], actions[last];
      PendingExactly(init, k);
      ContentsStep(Run(INIT, init), a, k);
      SettledGrows(init, a, k);
      assert actions == init + [a];
    }
  }

  lemma SettledGrows(init: seq<Action>, a: Action, k: Key)
    ensures Settled(init + [a], k) <==> a == Drop(k) || (a != Unload(k) && Settled(init, k))
  {
    var actions := init + [a];
    var n := |init|;
    assert actions[n] == a && forall i :: 0 <= i < n ==> actions[i] == init[i];
    if a == Unload(k) {
      assert !DroppedAfter(actions, k, n);
    } else if a == Drop(k) {
      forall d | 0 <= d < |actions| && actions[d] == Unload(k) ensures DroppedAfter(actions, k, d) {
        assert d < n < |actions| && actions[n] == Drop(k);
      }
    } else {
      forall d | 0 <= d < n ensures DroppedAfter(actions, k, d) <==> DroppedAfter(init, k, d) {
        if DroppedAfter(init, k, d) {
          var e :| d < e < |init| && 0 <= e && init[e] == Drop(k);
          assert actions[e] == Drop(k);
        }
      }
    }
  }

  lemma {:induction false} RunConcat(s: State, first: seq<Action>, second: seq<Action>)
    ensures Run(s, first + second) == Run(Run(s, first), second)
  {
    if second == [] {
      assert first + second == first;
    } else {
      var init, a := second[..|second| - 1], second[|second| - 1];
      RunConcat(s, first, init);
      RunAppend(s, first + init, a);
      RunAppend(Run(s, first), init, a);
      assert second == init + [a] && first + second == first + init + [a];
    }
  }

  predicate Asking(pc: PC, k: Key)
  {
    (pc.Querying? || pc.Polling?) && pc.key == k
  }

  /** The `i`th action gave request `t` a warm answer about `k`, and `t` has not moved since. */
  ghost predicate AnsweredAt(actions: seq<Action>, t: Tid, k: Key, i: nat)
  {
    && i < |actions| && actions[i] == Advance(t, Answer(true))
    && (var s := Run(INIT, actions[..i]); t in s.pcs && Asking(s.pcs[t], k) && k in s.actual)
    && (forall j :: i < j < |actions| ==> !Moves(actions[j], t))
  }

  lemma AnsweredGrows(init: seq<Action>, a: Action, t: Tid, k: Key, i: nat)
    requires i < |init|
    ensures AnsweredAt(init + [a], t, k, i) <==> AnsweredAt(init, t, k, i) && !Moves(a, t)
  {
    var actions := init + [a];
    assert actions[..i] == init[..i];
    assert forall j :: 0 <= j < |init| ==> actions[j] == init[j];
    assert actions[|init|] == a;
  }

  lemma WritingStep(s: State, t: Tid, o: Oracle, k: Key)
    requires t in s.pcs && HasResult(s, t)
    ensures var s' := Step(s, t, o);
            t in s'.pcs && (Writing(s'.pcs[t], k) <==> o == Answer(true) && Asking(s.pcs[t], k) && k in s.actual)
  {
    if s.pcs[t].Querying? || s.pcs[t].Polling? { AskingStep(s, t, o, k); } else { OtherStep(s, t, o, k); }
  }

  lemma AskingStep(s: State, t: Tid, o: Oracle, k: Key)
    requires t in s.pcs && HasResult(s, t) && (s.pcs[t].Querying? || s.pcs[t].Polling?)
    ensures var s' := Step(s, t, o);
            t in s'.pcs && (Writing(s'.pcs[t], k) <==> o == Answer(true) && s.pcs[t].key == k && k in s.actual)
  {
  }

  lemma OtherStep(s: State, t: Tid, o: Oracle, k: Key)
    requires t in s.pcs && HasResult(s, t) && !s.pcs[t].Querying? && !s.pcs[t].Polling?
    ensures t in Step(s, t, o).pcs && !Writing(Step(s, t, o).pcs[t], k)
  {
  }

  /** A request is about to write an entry exactly if it was given a warm answer and has not moved
      since. */
  lemma {:induction false} WritingExactly(actions: seq<Action>, t: Tid, k: Key)
    ensures var s := Run(INIT, actions);
            t in s.pcs && Writing(s.pcs[t], k) <==> exists i: nat :: AnsweredAt(actions, t, k, i)
  {
    if actions != [] {
      var last := |actions| - 1;
      var init, a := actions[..last], actions[last];
      assert actions == init + [a];
      var s := Run(INIT, init);
      RunInv(INIT, init);
      forall i: nat | i < last
        ensures AnsweredAt(actions, t, k, i) <==> AnsweredAt(init, t, k, i) && !Moves(a, t)
      {
        AnsweredGrows(init, a, t, k, i);
      }
      if Moves(a, t) {
        if t in s.pcs {
          OwnersHaveResults(s, t);
          WritingStep(s, t, a.oracle, k);
          assert t in s.pcs && Asking(s.pcs[t], k) && k in s.actual && a == Advance(t, Answer(true))
            <==> AnsweredAt(actions, t, k, last);
        }
      } else {
        WritingExactly(init, t, k);
        OthersKeepPlace(s, a, t);
      }
    }
  }

  /** The `i`th action gave `t` an answer that is still to be written and is no longer true. */
  ghost predicate AnswerLost(actions: seq<Action>, t: Tid, k: Key, i: nat)
  {
    AnsweredAt(actions, t, k, i) && LostIn(actions[i + 1..], k) && Settled(actions, k)
  }

  /** A write is stale exactly if since its request's answer the pod lost the model, and no observer call
      is to come. */
  lemma StaleWriteExactly(actions: seq<Action>, a: Action, k: Key)
    ensures StaleWrite(Run(INIT, actions), a, k)
       <==> a.Advance? && exists i: nat :: AnswerLost(actions, a.tid, k, i)
  {
    if a.Advance? {
      WritingExactly(actions, a.tid, k);
      forall i: nat | AnsweredAt(actions, a.tid, k, i)
        ensures StaleWrite(Run(INIT, actions), a, k) <==> AnswerLost(actions, a.tid, k, i)
      {
        GoneSinceAnswer(actions, a.tid, k, i);
      }
    }
  }

  lemma GoneSinceAnswer(actions: seq<Action>, t: Tid, k: Key, i: nat)
    requires AnsweredAt(actions, t, k, i)
    ensures var s := Run(INIT, actions);
            k !in s.actual && k !in s.pending <==> LostIn(actions[i + 1..], k) && Settled(actions, k)
  {
    var answered := actions[..i + 1];
    assert answered == actions[..i] + [actions[i]];
    RunAppend(INIT, actions[..i], actions[i]);
    ContentsStep(Run(INIT, actions[..i]), actions[i], k);
    assert actions == answered + actions[i + 1..];
    RunConcat(INIT, answered, actions[i + 1..]);
    GoneExactly(Run(INIT, answered), actions[i + 1..], k);
    PendingExactly(actions, k);
  }

  ghost predicate Unmended(actions: seq<Action>, k: Key, w: nat)
  {
    forall j :: w < j < |actions| ==> !Heals(Run(INIT, actions[..j]), actions[j], k)
  }

  /** The `w`th action spoiled the entry, and nothing has mended it since. */
  ghost predicate SpoiledAt(actions: seq<Action>, k: Key, w: nat)
  {
    && w < |actions| && Spoils(Run(INIT, actions[..w]), actions[w], k) && Unmended(actions, k, w)
  }

  lemma SpoiledGrows(init: seq<Action>, a: Action, k: Key, w: nat)
    requires w < |init|
    ensures SpoiledAt(init + [a], k, w) <==> SpoiledAt(init, k, w) && !Heals(Run(INIT, init), a, k)
  {
    var actions := init + [a];
    assert forall j :: 0 <= j < |init| ==> actions[..j] == init[..j] && actions[j] == init[j];
    assert actions[..|init|] == init && actions[|init|] == a;
  }

  lemma {:induction false} StaleSinceSpoiled(actions: seq<Action>, k: Key)
    ensures Stale(Run(INIT, actions), k) <==> exists w: nat :: SpoiledAt(actions, k, w)
  {
    if actions != [] {
      var last := |actions| - 1;
      var init, a := actions[..last], actions[last];
      assert actions == init + [a];
      RunInv(INIT, init);
      StaleSinceSpoiled(init, k);
      StaleStep(Run(INIT, init), a, k);
      forall w: nat | w < last
        ensures SpoiledAt(actions, k, w) <==> SpoiledAt(init, k, w) && !Heals(Run(INIT, init), a, k)
      {
        SpoiledGrows(init, a, k, w);
      }
      assert SpoiledAt(actions, k, last) <==> Spoils(Run(INIT, init), a, k);
    }
  }

  /** The `w`th action wrote a warm answer that was no longer true. */
  ghost predicate WroteLate(actions: seq<Action>, k: Key, w: nat)
  {
    && w < |actions| && actions[w].Advance?
    && exists i: nat :: AnswerLost(actions[..w], actions[w].tid, k, i)
  }

  /** At the `w`th action the pod lost a model that was in the cache, with no observer call to come. */
  ghost predicate LostUnderEntry(actions: seq<Action>, k: Key, w: nat)
  {
    w < |actions| && actions[w] == Vanish(k) && k in Run(INIT, actions[..w]).cached && Settled(actions[..w], k)
  }

  /** In every run an entry is stale exactly if a request wrote it though since its warm answer the model
      was lost - unloaded, with the observer called too early, or by the pod itself - or the pod lost the
      model by itself under the entry; and nothing has mended it since. */
  lemma {:induction false} StaleExactly(actions: seq<Action>, k: Key)
    ensures Stale(Run(INIT, actions), k)
       <==> exists w: nat :: (WroteLate(actions, k, w) || LostUnderEntry(actions, k, w)) && Unmended(actions, k, w)
  {
    StaleSinceSpoiled(actions, k);
    forall w: nat | w < |actions|
      ensures Spoils(Run(INIT, actions[..w]), actions[w], k)
         <==> WroteLate(actions, k, w) || LostUnderEntry(actions, k, w)
    {
      StaleWriteExactly(actions[..w], actions[w], k);
      PendingExactly(actions[..w], k);
    }
    forall w: nat ensures SpoiledAt(actions, k, w)
                     <==> (WroteLate(actions, k, w) || LostUnderEntry(actions, k, w)) && Unmended(actions, k, w) {
    }
  }

  /** It can happen by dedup alone: the next request then takes the entry at its word. */
  lemma StaleEntry(k: Key) returns (actions: seq<Action>)
    ensures var s := Run(INIT, actions); Stale(s, k) && 1 in s.pcs && s.pcs[1] == Finished(k, Warm)
  {
    var s := INIT;
    actions := [];
    s, actions := Follow(s, actions, Arrive(0, k));
    s, actions := Follow(s, actions, Advance(0, Go));
    s, actions := Follow(s, actions, Warmed(k));
    s, actions := Follow(s, actions, Advance(0, Answer(true)));
    s, actions := Follow(s, actions, Unload(k));
    s, actions := Follow(s, actions, Drop(k));
    s, actions := Follow(s, actions, Advance(0, Go));
    s, actions := ServedWarm(s, actions, k);
  }

  lemma ServedWarm(s: State, actions: seq<Action>, k: Key) returns (s': State, actions': seq<Action>)
    requires s == Run(INIT, actions) && Stale(s, k) && 1 !in s.pcs
    ensures s' == Run(INIT, actions') && Stale(s', k) && 1 in s'.pcs && s'.pcs[1] == Finished(k, Warm)
  {
    s', actions' := Follow(s, actions, Arrive(1, k));
    s', actions' := Follow(s', actions', Advance(1, Go));
    s', actions' := Follow(s', actions', Advance(1, Go));
  }
}
