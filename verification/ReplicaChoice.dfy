/** The choice of a failover target (internal/cluster/failover.go), over every order in which replicas may be listed. */
module ReplicaChoice {
  import opened Base
  import opened Fsm
  import opened Failover
  import ClusterFsm

  ghost predicate LeastLag(s: State, failed: string, target: string) {
    && target in Replicas(s) && target != failed
    && forall k :: k in Replicas(s) && k != failed ==> Replicas(s)[target].lag <= Replicas(s)[k].lag
  }

  lemma SelectsLeastLag(s: State, list: seq<NodeInfo>, failed: string)
    requires WellKeyed(s) && ClusterFsm.ListsNodes(list, Replicas(s))
    ensures var best := SelectBest(list, failed);
            && (best.Some? ==> LeastLag(s, failed, best.value.name))
            && (best.None? <==> forall k :: k in Replicas(s) ==> k == failed)
  {
  }

  // ---------------------------------------------------------------- every listing order is possible

  function Restricted(s: State, keys: set<string>): map<string, NodeInfo>
    requires keys <= Replicas(s).Keys
  {
    map k | k in keys :: Replicas(s)[k]
  }

  lemma {:induction false} SomeListing(s: State, keys: set<string>) returns (list: seq<NodeInfo>)
    requires WellKeyed(s) && keys <= Replicas(s).Keys
    ensures ClusterFsm.ListsNodes(list, Restricted(s, keys))
  {
    list := [];
    if keys != {} {
      var k :| k in keys;
      var rest := SomeListing(s, keys - {k});
      ListFirst(s, keys, k, rest);
      list := [Replicas(s)[k]] + rest;
    }
  }

  lemma ListFirst(s: State, keys: set<string>, k: string, rest: seq<NodeInfo>)
    requires WellKeyed(s) && k in keys && keys <= Replicas(s).Keys
    requires ClusterFsm.ListsNodes(rest, Restricted(s, keys - {k}))
    ensures ClusterFsm.ListsNodes([Replicas(s)[k]] + rest, Restricted(s, keys))
  {
    forall k' | k' in Restricted(s, keys) ensures Restricted(s, keys)[k'] in [Replicas(s)[k]] + rest {
      assert k' == k || Restricted(s, keys - {k})[k'] in rest;
    }
  }

  lemma {:induction false} FirstOfLeastLagWins(a: NodeInfo, rest: seq<NodeInfo>, failed: string)
    requires a.name != failed && forall i :: 0 <= i < |rest| && rest[i].name != failed ==> a.lag <= rest[i].lag
    ensures SelectBest([a] + rest, failed) == Some(a)
  {
    if rest == [] {
      assert [a] + rest == [a] && [a][..0] == [];
      assert SelectBest([], failed) == None;
    } else {
      var init := rest[..|rest| - 1];
      assert ([a] + rest)[..|rest|] == [a] + init;
      FirstOfLeastLagWins(a, init, failed);
    }
  }

  lemma LeastLagCanBeChosen(s: State, failed: string, target: string) returns (list: seq<NodeInfo>)
    requires WellKeyed(s) && LeastLag(s, failed, target)
    ensures ClusterFsm.ListsNodes(list, Replicas(s)) && SelectBest(list, failed) == Some(Replicas(s)[target])
  {
    var all := Replicas(s).Keys;
    var rest := SomeListing(s, all - {target});
    ListFirst(s, all, target, rest);
    assert Restricted(s, all) == Replicas(s);
    FirstOfLeastLagWins(Replicas(s)[target], rest, failed);
    list := [Replicas(s)[target]] + rest;
  }

  lemma SomeoneHasLeastLag(s: State, failed: string, k: string) returns (target: string)
    requires WellKeyed(s) && k in Replicas(s) && k != failed
    ensures LeastLag(s, failed, target)
  {
    var list := SomeListing(s, Replicas(s).Keys);
    assert Restricted(s, Replicas(s).Keys) == Replicas(s);
    SelectsLeastLag(s, list, failed);
    target := SelectBest(list, failed).value.name;
  }

  // ---------------------------------------------------------------- choosing after the leader's own lag was erased

  /** A replica that could be promoted instead of the leader. */
  predicate Rival(s: State, failed: string, self: string, k: string) {
    k in Replicas(s) && k != failed && k != self
  }

  /** t is s with the leader's own lag erased, as far as the choice is concerned. */
  ghost predicate Erased(s: State, t: State, self: string) {
    && self in Replicas(s) && Replicas(t).Keys == Replicas(s).Keys
    && forall k :: k in Replicas(s) ==> Replicas(t)[k].lag == if k == self then 0 else Replicas(s)[k].lag
  }

  /**
   * Erasing the leader's lag cannot spoil the choice. With non-negative lags this says that no rival lags less than
   * the leader (HarmlessIffOwnLagIsLeast).
   */
  ghost predicate Harmless(s: State, failed: string, self: string)
    requires self in Replicas(s)
  {
    var own := Replicas(s)[self].lag;
    if exists k :: Rival(s, failed, self, k) && Replicas(s)[k].lag < 0
    then exists k :: Rival(s, failed, self, k) && Replicas(s)[k].lag <= own
    else forall k :: Rival(s, failed, self, k) ==> own <= Replicas(s)[k].lag && (own < 0 ==> Replicas(s)[k].lag > 0)
  }

  lemma HarmlessIffOwnLagIsLeast(s: State, failed: string, self: string)
    requires self in Replicas(s) && forall k :: k in Replicas(s) ==> Replicas(s)[k].lag >= 0
    ensures Harmless(s, failed, self) <==>
              forall k :: Rival(s, failed, self, k) ==> Replicas(s)[self].lag <= Replicas(s)[k].lag
  {
  }

  /** Every replica the code may choose from t has least lag in s. */
  ghost predicate ChoosesLeast(s: State, t: State, failed: string) {
    forall target :: LeastLag(t, failed, target) ==> LeastLag(s, failed, target)
  }

  lemma ErasedChoiceIsLeastIf(s: State, t: State, failed: string, self: string)
    requires self != failed && Erased(s, t, self) && Harmless(s, failed, self)
    ensures ChoosesLeast(s, t, failed)
  {
    forall target | LeastLag(t, failed, target) ensures LeastLag(s, failed, target) {
      assert Replicas(t)[target].lag <= Replicas(t)[self].lag;
      forall k | k in Replicas(s) && k != failed ensures Replicas(s)[target].lag <= Replicas(s)[k].lag {
        assert Replicas(t)[target].lag <= Replicas(t)[k].lag;
        assert k != self ==> Rival(s, failed, self, k);
        assert target != self ==> Rival(s, failed, self, target);
      }
    }
  }

  lemma ErasedChoiceIsLeastOnlyIf(s: State, t: State, failed: string, self: string)
    requires WellKeyed(t) && self != failed && Erased(s, t, self) && ChoosesLeast(s, t, failed)
    ensures Harmless(s, failed, self)
  {
    if r :| Rival(s, failed, self, r) && Replicas(s)[r].lag < 0 {
      var target := SomeoneHasLeastLag(t, failed, r);
      assert Replicas(t)[target].lag <= Replicas(t)[r].lag && LeastLag(s, failed, target);
      assert Rival(s, failed, self, target) && Replicas(s)[target].lag <= Replicas(s)[self].lag;
    } else {
      assert forall k :: k in Replicas(t) && k != failed && k != self ==> Rival(s, failed, self, k);
      assert LeastLag(t, failed, self);
      forall k | Rival(s, failed, self, k)
        ensures Replicas(s)[self].lag < 0 ==> Replicas(s)[k].lag > 0
      {
        if Replicas(s)[k].lag == 0 {
          assert LeastLag(t, failed, k);
        }
      }
    }
  }

  lemma ListingsChoose(s: State, t: State, failed: string)
    requires WellKeyed(t)
    ensures (forall list :: ClusterFsm.ListsNodes(list, Replicas(t)) && SelectBest(list, failed).Some?
                            ==> LeastLag(s, failed, SelectBest(list, failed).value.name))
            <==> ChoosesLeast(s, t, failed)
  {
    forall list | ClusterFsm.ListsNodes(list, Replicas(t)) && SelectBest(list, failed).Some?
      ensures LeastLag(t, failed, SelectBest(list, failed).value.name)
    {
      SelectsLeastLag(t, list, failed);
    }
    forall target | LeastLag(t, failed, target)
      ensures exists list :: ClusterFsm.ListsNodes(list, Replicas(t)) && SelectBest(list, failed).Some?
                             && SelectBest(list, failed).value.name == target
    {
      var list := LeastLagCanBeChosen(t, failed, target);
    }
  }

  lemma SelfIsCertainIff(s: State, t: State, failed: string, self: string)
    requires WellKeyed(t) && self != failed && Erased(s, t, self)
    ensures (forall target :: LeastLag(t, failed, target) ==> target == self)
            <==> forall k :: Rival(s, failed, self, k) ==> Replicas(s)[k].lag > 0
  {
    if forall target :: LeastLag(t, failed, target) ==> target == self {
      var least := SomeoneHasLeastLag(t, failed, self);
      forall k | Rival(s, failed, self, k) ensures Replicas(s)[k].lag > 0 {
        assert Replicas(t)[least].lag <= Replicas(t)[k].lag;
        assert !LeastLag(t, failed, k);
      }
    }
    if forall k :: Rival(s, failed, self, k) ==> Replicas(s)[k].lag > 0 {
      forall target | LeastLag(t, failed, target) ensures target == self {
        assert Replicas(t)[target].lag <= Replicas(t)[self].lag;
        assert target != self ==> Rival(s, failed, self, target);
      }
    }
  }
}
