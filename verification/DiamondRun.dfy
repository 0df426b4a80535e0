/** The diamond as a program: the plan in a streaming executor over real shared buffers
    of the planned capacity, and the exact merge on top of it, run to its end. */
module DiamondRuns {
  import opened Stream
  import opened Plans
  import opened Scheduling
  import opened PlanRuntimes
  import opened PortPromises
  import opened Chains
  import opened MergeRuns
  import opened Diamonds

  lemma EveryNodeIsNeeded(s: Setting)
    requires s.Valid()
    ensures WellFormed(DiamondPlan(s)) && Required(DiamondPlan(s), RootSet([s.X(), s.Y()])) && Distinct([s.X(), s.Y()])
  {
    var plan, roots := DiamondPlan(s), RootSet([s.X(), s.Y()]);
    PlanIsWellFormed(s);
    PlanNode(s, s.Y());
    forall i: nat | i < |plan| ensures i in roots || exists c :: 0 <= c < |plan| && Reads(plan, c, i) {
      if i == s.X() {
        assert [s.X(), s.Y()][0] in roots;
      } else if i == s.Y() {
        assert [s.X(), s.Y()][1] in roots;
      } else {
        var c := if i == s.M() then s.X() else if i == s.A() then s.Y() else i + 1;
        WhoReads(s, c, i);
        assert Reads(plan, c, i);
      }
    }
    forall r | r in roots ensures r < |plan| { }
  }

  lemma BeginsAt(s: Setting)
    requires s.Valid()
    ensures Turns(s, 0) == State(Start(DiamondPlan(s)), [], Running)
    ensures MergeRuns.Good(DiamondPlan(s), DiamondLimits(s), Wired(s), Turns(s, 0).net)
    ensures PortFrontier(DiamondPlan(s), Turns(s, 0).net, s.A()) == None
  {
    TurnIs(s, 0);
    PlanNode(s, s.A());
  }

  /** A fresh executor for the diamond, and its merge. */
  method SetUp(s: Setting) returns (merge: MergeRuntime)
    requires s.Valid()
    ensures fresh(merge) && fresh(merge.runtime) && fresh(merge.runtime.buffers)
    ensures merge.runtime.plan == DiamondPlan(s) && merge.runtime.limits == DiamondLimits(s) && merge.w == Wired(s)
    ensures merge.At(Turns(s, 0))
  {
    BurstsOfOne(s);
    EveryNodeIsNeeded(s);
    BeginsAt(s);
    var runtime := new PlanRuntime(DiamondPlan(s), DiamondLimits(s), [s.X(), s.Y()], None);
    merge := new MergeRuntime(runtime, Wired(s));
  }

  /** What is left to do after n turns, while the merge runs; and that a turn does some. */
  lemma TurnLeft(s: Setting, n: nat) returns (left: nat)
    requires s.Valid()
    ensures Diamonds.Good(s, Turns(s, n).net) && left as int == WorkLeft(s, Turns(s, n).net)
    ensures Turns(s, n).status == Running ==> Diamonds.Good(s, Turns(s, n + 1).net)
    ensures Turns(s, n).status == Running && Turns(s, n + 1).status == Running ==>
            WorkLeft(s, Turns(s, n + 1).net) < left
  {
    TurnsKeep(s, n);
    TurnsKeep(s, n + 1);
    WorkIsNatural(s, Turns(s, n));
    left := WorkLeft(s, Turns(s, n).net);
    if Turns(s, n).status == Running { var less := TurnWorks(s, n, left); }
  }

  /** The merge run to its end. With a sufficient buffer no publish into it was refused;
      pair i holds item i of both chains; and every item of both chains is paired
      exactly when the auxiliary branch is smooth or there is no second item. */
  method RunDiamond(s: Setting) returns (merge: MergeRuntime, ghost n: nat)
    requires s.Valid() && Suffices(s)
    ensures merge.At(Turns(s, n)) && (merge.status == Joined || merge.status == Stalled)
    ensures Paired(s, merge.output)
    ensures merge.status == Joined <==> |merge.output| == ChainCount(s.main, |Shared(s)|)
    ensures merge.status == Joined <==> Smooth(s) || ChainCount(s.main, |Shared(s)|) <= 1
  {
    merge := SetUp(s);
    n := 0;
    ghost var left := TurnLeft(s, 0);
    while merge.status == Running
      invariant fresh(merge) && fresh(merge.runtime) && fresh(merge.runtime.buffers)
      invariant merge.runtime.plan == DiamondPlan(s) && merge.runtime.limits == DiamondLimits(s) && merge.w == Wired(s)
      invariant merge.At(Turns(s, n)) && Diamonds.Good(s, Turns(s, n).net) &&
                left as int == WorkLeft(s, Turns(s, n).net)
      decreases merge.status == Running, left
    {
      ghost var was := TurnLeft(s, n);
      TurnIs(s, n);
      merge.Turn(Turns(s, n));
      n := n + 1;
      left := TurnLeft(s, n);
    }
    Outcome(s, n);
  }
}
