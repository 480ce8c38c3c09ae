/** The loader's flat map key "podIP:model" (internal/plugins/modelloader/loader.go). */
module LoadKey {

  function FlatKey(podIP: string, model: string): string
  {
    podIP + ":" + model
  }

  predicate ColonFree(s: string)
  {
    ':' !in s
  }

  /** When exactly two different pairs share a key: one IP continues the other past a colon, and
      the models make up for it. */
  ghost predicate Overlap(p1: string, m1: string, p2: string, m2: string)
  {
    exists s :: p2 == p1 + ":" + s && m1 == s + ":" + m2
  }

  lemma FlatKeyCollides(p1: string, m1: string, p2: string, m2: string)
    ensures FlatKey(p1, m1) == FlatKey(p2, m2) <==>
            (p1 == p2 && m1 == m2) || Overlap(p1, m1, p2, m2) || Overlap(p2, m2, p1, m1)
  {
    if FlatKey(p1, m1) == FlatKey(p2, m2) {
      if |p1| <= |p2| { SplitKey(p1, m1, p2, m2); } else { SplitKey(p2, m2, p1, m1); }
    }
    if Overlap(p1, m1, p2, m2) {
      var s :| p2 == p1 + ":" + s && m1 == s + ":" + m2;
      assert p1 + ":" + (s + ":" + m2) == (p1 + ":" + s) + ":" + m2;
    }
    if Overlap(p2, m2, p1, m1) {
      var s :| p1 == p2 + ":" + s && m2 == s + ":" + m1;
      assert p2 + ":" + (s + ":" + m1) == (p2 + ":" + s) + ":" + m1;
    }
  }

  lemma SplitKey(p1: string, m1: string, p2: string, m2: string)
    requires FlatKey(p1, m1) == FlatKey(p2, m2) && |p1| <= |p2|
    ensures (p1 == p2 && m1 == m2) || Overlap(p1, m1, p2, m2)
  {
    var k := FlatKey(p1, m1);
    assert p1 == k[..|p1|] && m1 == k[|p1| + 1..] && k[|p1|] == ':';
    assert p2 == k[..|p2|] && m2 == k[|p2| + 1..] && k[|p2|] == ':';
    if |p1| < |p2| {
      var s := k[|p1| + 1..|p2|];
      assert p2 == p1 + ":" + s;
      assert m1 == s + ":" + m2;
    }
  }

  /** For pod IPs without a colon (IPv4) the key stands for the pair, whatever the model's name. */
  lemma FlatKeyInjective(p1: string, m1: string, p2: string, m2: string)
    requires ColonFree(p1) && ColonFree(p2)
    requires FlatKey(p1, m1) == FlatKey(p2, m2)
    ensures p1 == p2 && m1 == m2
  {
    FlatKeyCollides(p1, m1, p2, m2);
    forall s, p: string, q: string | q == p + ":" + s ensures !ColonFree(q) {
      assert q[|p|] == ':';
    }
  }
}
