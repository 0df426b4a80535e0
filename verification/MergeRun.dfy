/** An exact merge above the streaming executor: its two inputs are cursors on ports of
    a running plan, and it advances one unit of work at a time. */
module MergeRuns {
  import opened Stream
  import opened Operators
  import opened Plans
  import opened Scheduling
  import opened PlanRuntimes
  import opened Frontiers
  import opened PortPromises
  import opened Merges

  datatype MergeStatus = Running | Joined | Stalled | Refused

  /** The ports that the merge reads, and the plan's nodes that stand for its cursors. */
  datatype Wiring = Wiring(main: nat, aux: nat, mainInput: nat, auxInput: nat) {
    ghost predicate Fits(plan: Plan) {
      && main < |plan| && aux < |plan| && mainInput < |plan| && auxInput < |plan| && mainInput != auxInput
      && plan[mainInput].Map? && plan[auxInput].Map? && plan[mainInput].input == main && plan[auxInput].input == aux
      && (forall c :: 0 <= c < |plan| ==> !Reads(plan, c, mainInput) && !Reads(plan, c, auxInput))
      && WellFormed(plan) && !plan[aux].Source? && !Upstream(plan, main, aux)
    }
  }

  /** The network, the pairs given to the kernel, and how the merge stands. */
  datatype State = State(net: Network, output: seq<(Item, Item)>, status: MergeStatus)

  ghost predicate Good(plan: Plan, limits: Limits, w: Wiring, net: Network) {
    && Sound(plan, net) && ValidLimits(plan, limits) && w.Fits(plan)
    && !net[w.mainInput].closed && !net[w.auxInput].closed
  }

  /** _advance_port on a port of the plan: one unit of work, or it is refused. */
  ghost function Pull(plan: Plan, limits: Limits, st: State, port: nat): State
    requires Sound(plan, st.net) && ValidLimits(plan, limits) && port < |plan|
  {
    var d := Demanded(plan, st.net, limits, None, port);
    if d.Work? then st.(net := Fire(plan, st.net, d.node)) else st.(status := Refused)
  }

  /** popleft on one input of the merge. */
  ghost function Taken(plan: Plan, net: Network, input: nat): Network
    requires Sound(plan, net) && input < |plan|
  {
    if Enabled(plan, net, input) then Fire(plan, net, input) else net
  }

  ghost function TakenBoth(plan: Plan, net: Network, w: Wiring): Network
    requires Sound(plan, net) && w.Fits(plan)
  {
    if Enabled(plan, net, w.mainInput) then
      FireIsSound(plan, net, w.mainInput); Taken(plan, Fire(plan, net, w.mainInput), w.auxInput)
    else net
  }

  function Head(net: Network, port: nat, input: nat): Item
    requires port < |net| && input < |net| && net[input].used < |net[port].published|
  {
    net[port].published[net[input].used]
  }

  /** One _advance_port on the merge: _advance_map for two exact inputs without gaps. */
  ghost function MergeStep(plan: Plan, limits: Limits, w: Wiring, st: State): State
    requires Good(plan, limits, w, st.net)
  {
    var net := st.net;
    if !Pending(plan, net, w.mainInput) then
      if net[w.main].closed then st.(status := Joined) else Pull(plan, limits, st, w.main)
    else
      var main := Head(net, w.main, w.mainInput);
      if !Pending(plan, net, w.auxInput) then
        var frontier := PortFrontier(plan, net, w.aux);
        if net[w.aux].closed || (frontier.Some? && frontier.value > main.start) then st.(status := Stalled)
        else Pull(plan, limits, st, w.aux)
      else
        var aux := Head(net, w.aux, w.auxInput);
        if SameInterval(aux, main) then st.(net := TakenBoth(plan, net, w), output := st.output + [(main, aux)])
        else if aux.start < main.start then st.(net := Taken(plan, net, w.auxInput))
        else st.(status := Stalled)
  }

  /** One more pair, of items that start and end together. */
  ghost predicate AddsPair(before: seq<(Item, Item)>, after: seq<(Item, Item)>) {
    |after| == |before| + 1 && before <= after &&
    var (main, aux) := after[|before|]; aux.start == main.start && aux.end == main.end
  }

  /** Why a merge may stop short: the auxiliary head starts with the primary one and ends
      elsewhere, or starts later, or none can come any more that starts as early. */
  ghost predicate StallIsDue(plan: Plan, w: Wiring, net: Network)
    requires Sound(plan, net) && w.Fits(plan)
  {
    && Pending(plan, net, w.mainInput)
    && var main := Head(net, w.main, w.mainInput);
       if Pending(plan, net, w.auxInput) then
         var aux := Head(net, w.aux, w.auxInput);
         aux.start > main.start || (aux.start == main.start && aux.end != main.end)
       else
         var frontier := PortFrontier(plan, net, w.aux);
         net[w.aux].closed || (frontier.Some? && frontier.value > main.start)
  }

  lemma PairsAreEqual(plan: Plan, limits: Limits, w: Wiring, st: State)
    requires Good(plan, limits, w, st.net)
    ensures var next := MergeStep(plan, limits, w, st); next.output == st.output || AddsPair(st.output, next.output)
    ensures st.status == Running && MergeStep(plan, limits, w, st).status == Stalled <==>
            st.status == Running && StallIsDue(plan, w, st.net)
  {
  }

  // ------------------------------------------------------------ the frontier

  /** _advance_frontier */
  function Raised(was: Option<real>, now: real): Option<real> {
    if was.None? || now > was.value then Some(now) else was
  }

  /** Work elsewhere leaves what a port has announced. */
  lemma FrontierStays(plan: Plan, net: Network, n: nat, port: nat)
    requires Sound(plan, net) && n < |plan| && port < |plan| && !plan[port].Source? && Enabled(plan, net, n) &&
             n != port
    ensures Sound(plan, Fire(plan, net, n))
    ensures PortFrontier(plan, Fire(plan, net, n), port) == PortFrontier(plan, net, port)
  {
    FireIsSound(plan, net, n);
    FireDoesWork(plan, net, n);
    assert NodeSound(plan, net, port);
    var input := plan[port].input;
    FirePublishes(plan, net, n, input);
    assert Fire(plan, net, n)[input].published[..net[port].used] == net[input].published[..net[port].used];
  }

  lemma FirePublishes(plan: Plan, net: Network, i: nat, j: nat)
    requires Sound(plan, net) && i < |plan| && j < |plan| && Enabled(plan, net, i)
    ensures net[j].published <= Fire(plan, net, i)[j].published
  {
    if i == j && !plan[i].Source? { StateFits(plan, net, i); }
  }

  /** A node that reads one item raises its frontier; one that ends does not. */
  lemma FrontierRises(plan: Plan, net: Network, port: nat)
    requires Sound(plan, net) && port < |plan| && !plan[port].Source? && Enabled(plan, net, port)
    ensures Sound(plan, Fire(plan, net, port)) && Fits(plan[port], net[port].state)
    ensures PortFrontier(plan, Fire(plan, net, port), port) ==
            if Pending(plan, net, port)
            then Raised(PortFrontier(plan, net, port),
                        StepFrontier(plan[port], net[port].state, net[plan[port].input].published[net[port].used]))
            else PortFrontier(plan, net, port)
  {
    FireIsSound(plan, net, port);
    StateFits(plan, net, port);
    assert NodeSound(plan, net, port);
    var node, used := plan[port], net[port].used;
    var read := net[node.input].published;
    if Pending(plan, net, port) {
      assert read[..used + 1][..used] == read[..used];
      NotFlushed(plan, net, port);
    }
  }

  /** A node with unread input has not been flushed: it is in the state of its run. */
  lemma NotFlushed(plan: Plan, net: Network, port: nat)
    requires Sound(plan, net) && port < |plan| && !plan[port].Source? && Pending(plan, net, port)
    ensures net[port].state == Run(plan[port], net[plan[port].input].published[..net[port].used]).0
  {
    assert NodeSound(plan, net, port);
  }

  /** Only nodes that feed a port, or the port's own, work when it is demanded. */
  lemma {:induction false} WorkIsUpstream(plan: Plan, net: Network, limits: Limits, port: nat)
    requires WellFormed(plan) && |net| == |plan| && port < |plan| && ValidLimits(plan, limits)
    ensures var d := Demanded(plan, net, limits, None, port); d.Work? ==> Upstream(plan, port, d.node)
    decreases port
  {
    if !plan[port].Source? { WorkIsUpstream(plan, net, limits, plan[port].input); }
  }

  lemma MainFrontier(plan: Plan, limits: Limits, w: Wiring, st: State)
    requires Good(plan, limits, w, st.net)
    ensures Sound(plan, Pull(plan, limits, st, w.main).net)
    ensures PortFrontier(plan, Pull(plan, limits, st, w.main).net, w.aux) == PortFrontier(plan, st.net, w.aux)
  {
    var d := Demanded(plan, st.net, limits, None, w.main);
    WorkIsUpstream(plan, st.net, limits, w.main);
    if d.Work? { FrontierStays(plan, st.net, d.node, w.aux); }
  }

  /** Pulling the auxiliary port raises its frontier exactly when its node reads an item. */
  lemma AuxFrontier(plan: Plan, limits: Limits, w: Wiring, st: State)
    requires Good(plan, limits, w, st.net) && st.status == Running && !st.net[w.aux].closed
    ensures Sound(plan, Pull(plan, limits, st, w.aux).net) && Fits(plan[w.aux], st.net[w.aux].state)
    ensures PortFrontier(plan, Pull(plan, limits, st, w.aux).net, w.aux) ==
            if Pending(plan, st.net, w.aux) && Pull(plan, limits, st, w.aux).status == Running
            then Raised(PortFrontier(plan, st.net, w.aux),
                        StepFrontier(plan[w.aux], st.net[w.aux].state,
                          st.net[plan[w.aux].input].published[st.net[w.aux].used]))
            else PortFrontier(plan, st.net, w.aux)
  {
    var d := Demanded(plan, st.net, limits, None, w.aux);
    StateFits(plan, st.net, w.aux);
    if d.Work? {
      if d.node == w.aux { FrontierRises(plan, st.net, w.aux); } else { FrontierStays(plan, st.net, d.node, w.aux); }
    }
  }

  /** What a port has announced once its node has done its next unit of work. */
  ghost predicate Announces(plan: Plan, net: Network, port: nat, was: Option<real>, next: Option<real>)
    requires WellFormed(plan) && |net| == |plan| && port < |plan|
  {
    && !plan[port].Source? && Fits(plan[port], net[port].state)
    && next == if Pending(plan, net, port)
               then Raised(was, StepFrontier(plan[port], net[port].state,
                                             net[plan[port].input].published[net[port].used]))
               else was
  }

  /** A turn without an auxiliary head, in terms of what the merge object knows. */
  lemma AuxTurn(
      plan: Plan, limits: Limits, w: Wiring, st: State, head: Item, frontier: Option<real>, next: Option<real>)
    requires Good(plan, limits, w, st.net) && st.status == Running
    requires Pending(plan, st.net, w.mainInput) && !Pending(plan, st.net, w.auxInput)
    requires head == Head(st.net, w.main, w.mainInput) && frontier == PortFrontier(plan, st.net, w.aux)
    requires Announces(plan, st.net, w.aux, frontier, next)
    ensures var now := MergeStep(plan, limits, w, st);
            && now.output == st.output && Good(plan, limits, w, now.net)
            && now == (if st.net[w.aux].closed || (frontier.Some? && frontier.value > head.start)
                       then st.(status := Stalled) else Pull(plan, limits, st, w.aux))
            && PortFrontier(plan, now.net, w.aux) == if now.status == Running then next else frontier
  {
    PullIsGood(plan, limits, w, st, w.aux);
    if !st.net[w.aux].closed { AuxFrontier(plan, limits, w, st); }
  }

  // ------------------------------------------------------------- one turn

  lemma {:induction false} UnreadIsNotUpstream(plan: Plan, port: nat, c: nat)
    requires WellFormed(plan) && port < |plan| && c < |plan| && Upstream(plan, port, c)
    requires forall r :: 0 <= r < |plan| ==> !Reads(plan, r, c)
    ensures port == c
    decreases port
  {
    if port != c {
      UnreadIsNotUpstream(plan, plan[port].input, c);
      assert Reads(plan, port, c);
    }
  }

  lemma PullIsGood(plan: Plan, limits: Limits, w: Wiring, st: State, port: nat)
    requires Good(plan, limits, w, st.net) && (port == w.main || port == w.aux)
    ensures Good(plan, limits, w, Pull(plan, limits, st, port).net)
  {
    InputsWorkAlone(plan, st.net, limits, w, port);
    var d := Demanded(plan, st.net, limits, None, port);
    if d.Work? {
      FireIsSound(plan, st.net, d.node);
      FireDoesWork(plan, st.net, d.node);
    }
  }

  /** The merge's own cursors do not move when a port is demanded. */
  lemma InputsWorkAlone(plan: Plan, net: Network, limits: Limits, w: Wiring, port: nat)
    requires WellFormed(plan) && |net| == |plan| && ValidLimits(plan, limits) && w.Fits(plan) &&
             (port == w.main || port == w.aux)
    ensures var d := Demanded(plan, net, limits, None, port); d.Work? ==> d.node != w.mainInput && d.node != w.auxInput
  {
    assert Reads(plan, w.mainInput, w.main) && Reads(plan, w.auxInput, w.aux);
    var d := Demanded(plan, net, limits, None, port);
    WorkIsUpstream(plan, net, limits, port);
    if d.Work? && d.node == w.mainInput { UnreadIsNotUpstream(plan, port, w.mainInput); }
    if d.Work? && d.node == w.auxInput { UnreadIsNotUpstream(plan, port, w.auxInput); }
  }

  lemma TakenIsGood(plan: Plan, limits: Limits, w: Wiring, net: Network, input: nat)
    requires Good(plan, limits, w, net) && (input == w.mainInput || input == w.auxInput) && Pending(plan, net, input)
    ensures Good(plan, limits, w, Taken(plan, net, input))
    ensures PortFrontier(plan, Taken(plan, net, input), w.aux) == PortFrontier(plan, net, w.aux)
  {
    assert Reads(plan, w.auxInput, w.aux);
    FireIsSound(plan, net, input);
    FireDoesWork(plan, net, input);
    FrontierStays(plan, net, input, w.aux);
  }

  lemma BothAreGood(plan: Plan, limits: Limits, w: Wiring, net: Network)
    requires Good(plan, limits, w, net) && Pending(plan, net, w.mainInput) && Pending(plan, net, w.auxInput)
    ensures Good(plan, limits, w, TakenBoth(plan, net, w))
    ensures PortFrontier(plan, TakenBoth(plan, net, w), w.aux) == PortFrontier(plan, net, w.aux)
  {
    TakingOne(plan, limits, w, net);
    TakenIsGood(plan, limits, w, net, w.mainInput);
    TakenIsGood(plan, limits, w, Fire(plan, net, w.mainInput), w.auxInput);
  }

  /** Two heads: equal intervals are taken, an early auxiliary item alone, and otherwise the
      merge stalls. */
  ghost predicate HeadsDecide(plan: Plan, net: Network, w: Wiring, head: Item, other: Item, next: State)
    requires Sound(plan, net) && w.Fits(plan)
  {
    if other.start == head.start && other.end == head.end then
      next.status == Running && next.net == TakenBoth(plan, net, w)
    else if other.start < head.start then next.status == Running && next.net == Taken(plan, net, w.auxInput)
    else next.status == Stalled && next.net == net
  }

  /** A turn with two heads, in terms of the heads. */
  lemma BothTurn(plan: Plan, limits: Limits, w: Wiring, st: State, head: Item, other: Item)
    requires Good(plan, limits, w, st.net) && st.status == Running
    requires Pending(plan, st.net, w.mainInput) && Pending(plan, st.net, w.auxInput)
    requires head == Head(st.net, w.main, w.mainInput) && other == Head(st.net, w.aux, w.auxInput)
    ensures var now, taken := MergeStep(plan, limits, w, st), other.start == head.start && other.end == head.end;
            && Good(plan, limits, w, now.net)
            && PortFrontier(plan, now.net, w.aux) == PortFrontier(plan, st.net, w.aux)
            && now.output == (if taken then st.output + [(head, other)] else st.output)
            && HeadsDecide(plan, st.net, w, head, other, now)
  {
    BothAreGood(plan, limits, w, st.net);
    TakenIsGood(plan, limits, w, st.net, w.auxInput);
  }

  // -------------------------------------------------------------- the object

  class MergeRuntime {
    const w: Wiring
    const runtime: PlanRuntime
    var output: seq<(Item, Item)>
    var auxFrontier: Option<real>
    var status: MergeStatus

    ghost predicate Executes(net: Network)
      reads runtime, runtime.buffers
    {
      runtime.Valid() && runtime.duration == None && runtime.net == net
    }

    constructor (runtime: PlanRuntime, w: Wiring)
      requires runtime.Valid() && runtime.duration == None && w.Fits(runtime.plan)
      ensures this.runtime == runtime && this.w == w && Executes(runtime.net)
      ensures output == [] && auxFrontier == None && status == Running
    {
      this.runtime, this.w := runtime, w;
      output, auxFrontier, status := [], None, Running;
    }

    /** The object is in state `st`, and knows what the auxiliary port has announced. */
    ghost predicate At(st: State)
      reads this, runtime, runtime.buffers
    {
      && Executes(st.net) && output == st.output && status == st.status
      && Good(runtime.plan, runtime.limits, w, st.net) && auxFrontier == PortFrontier(runtime.plan, st.net, w.aux)
    }

    /** _advance_port on the merge. */
    method Turn(ghost st: State)
      requires At(st) && status == Running
      modifies this`output, this`auxFrontier, this`status, runtime, runtime.buffers
      ensures At(MergeStep(runtime.plan, runtime.limits, w, st))
      ensures output == old(output) || AddsPair(old(output), output)
      ensures status == Stalled <==> StallIsDue(runtime.plan, w, st.net)
    {
      PairsAreEqual(runtime.plan, runtime.limits, w, st);
      var waiting := runtime.HasInput(w.mainInput);
      if !waiting {
        MoveMain(st);
        return;
      }
      var ready := runtime.HasInput(w.auxInput);
      if !ready { MoveAux(st); } else { MoveBoth(st); }
    }

    method MoveMain(ghost st: State)
      requires At(st) && status == Running && !Pending(runtime.plan, st.net, w.mainInput)
      modifies this`status, runtime, runtime.buffers
      ensures At(MergeStep(runtime.plan, runtime.limits, w, st))
    {
      PullIsGood(runtime.plan, runtime.limits, w, st, w.main);
      MainFrontier(runtime.plan, runtime.limits, w, st);
      status := TurnMain(st, MergeStep(runtime.plan, runtime.limits, w, st));
    }

    method MoveAux(ghost st: State)
      requires At(st) && status == Running
      requires Pending(runtime.plan, st.net, w.mainInput) && !Pending(runtime.plan, st.net, w.auxInput)
      modifies this`auxFrontier, this`status, runtime, runtime.buffers
      ensures At(MergeStep(runtime.plan, runtime.limits, w, st))
    {
      ghost var next := MergeStep(runtime.plan, runtime.limits, w, st);
      var head := runtime.PeekInput(w.mainInput);
      var frontier := NextFrontier(st.net);
      AuxTurn(runtime.plan, runtime.limits, w, st, head, auxFrontier, frontier);
      status := TurnAux(head, st, next);
      if status == Running { auxFrontier := frontier; }
    }

    method MoveBoth(ghost st: State)
      requires At(st) && status == Running
      requires Pending(runtime.plan, st.net, w.mainInput) && Pending(runtime.plan, st.net, w.auxInput)
      modifies this`output, this`status, runtime, runtime.buffers
      ensures At(MergeStep(runtime.plan, runtime.limits, w, st))
    {
      var head := runtime.PeekInput(w.mainInput);
      var other := runtime.PeekInput(w.auxInput);
      ghost var next := MergeStep(runtime.plan, runtime.limits, w, st);
      BothTurn(runtime.plan, runtime.limits, w, st, head, other);
      var taken, standing := TurnBoth(head, other, st.net, next);
      if taken { output := output + [(head, other)]; }
      status := standing;
    }

    /** _advance_port on a port that the merge reads. */
    method PullPort(port: nat, ghost st: State) returns (standing: MergeStatus)
      requires Executes(st.net) && port < |runtime.plan| && st.status == Running
      modifies runtime, runtime.buffers
      ensures Executes(Pull(runtime.plan, runtime.limits, st, port).net)
      ensures standing == Pull(runtime.plan, runtime.limits, st, port).status
    {
      var progress := runtime.AdvancePort(port);
      standing := if progress then Running else Refused;
    }

    /** popleft on one input. */
    method Take(input: nat, ghost net: Network)
      requires Executes(net) && input < |runtime.plan| && !net[input].closed
      requires !runtime.plan[input].Source? && Pending(runtime.plan, net, input)
      requires forall c :: 0 <= c < |runtime.plan| ==> !Reads(runtime.plan, c, input)
      modifies runtime, runtime.buffers
      ensures Executes(Taken(runtime.plan, net, input))
    {
      var progress := runtime.AdvancePort(input);
    }

    /** The primary input is empty: the merge has joined everything, or pulls. */
    method TurnMain(ghost st: State, ghost next: State) returns (standing: MergeStatus)
      requires Executes(st.net) && st.status == Running && w.main < |runtime.plan|
      requires next == if st.net[w.main].closed then st.(status := Joined)
               else Pull(runtime.plan, runtime.limits, st, w.main)
      modifies runtime, runtime.buffers
      ensures Executes(next.net) && standing == next.status
    {
      if w.main in runtime.exhausted { return Joined; }
      standing := PullPort(w.main, st);
    }

    /** What the auxiliary node will announce when it reads its next item. */
    method NextFrontier(ghost net: Network) returns (next: Option<real>)
      requires Executes(net) && w.aux < |runtime.plan| && !runtime.plan[w.aux].Source?
      ensures Announces(runtime.plan, net, w.aux, auxFrontier, next)
    {
      StateFits(runtime.plan, runtime.net, w.aux);
      next := auxFrontier;
      var queued := runtime.HasInput(w.aux);
      if queued {
        var item := runtime.PeekInput(w.aux);
        next := Raised(auxFrontier, StepFrontier(runtime.plan[w.aux], runtime.states[w.aux], item));
      }
    }

    /** The auxiliary input is empty: the merge stalls when the port has ended or its
        frontier has passed the primary item, or pulls. */
    method TurnAux(head: Item, ghost st: State, ghost next: State) returns (standing: MergeStatus)
      requires Executes(st.net) && st.status == Running && w.aux < |runtime.plan|
      requires next == if st.net[w.aux].closed || (auxFrontier.Some? && auxFrontier.value > head.start)
               then st.(status := Stalled) else Pull(runtime.plan, runtime.limits, st, w.aux)
      modifies runtime, runtime.buffers
      ensures Executes(next.net) && standing == next.status
    {
      if w.aux in runtime.exhausted || (auxFrontier.Some? && auxFrontier.value > head.start) { return Stalled; }
      standing := PullPort(w.aux, st);
    }

    /** Both inputs have a head. */
    method TurnBoth(head: Item, other: Item, ghost net: Network, ghost next: State)
      returns (taken: bool, standing: MergeStatus)
      requires Executes(net) && Good(runtime.plan, runtime.limits, w, net)
      requires Pending(runtime.plan, net, w.mainInput) && Pending(runtime.plan, net, w.auxInput)
      requires HeadsDecide(runtime.plan, net, w, head, other, next)
      modifies runtime, runtime.buffers
      ensures taken <==> other.start == head.start && other.end == head.end
      ensures Executes(next.net) && standing == next.status
    {
      taken, standing := SameInterval(other, head), Running;
      if taken {
        TakingOne(runtime.plan, runtime.limits, w, net);
        Take(w.mainInput, net);
        Take(w.auxInput, Fire(runtime.plan, net, w.mainInput));
      } else if other.start < head.start {
        Take(w.auxInput, net);
      } else {
        standing := Stalled;
      }
    }
  }

  lemma TakingOne(plan: Plan, limits: Limits, w: Wiring, net: Network)
    requires Good(plan, limits, w, net) && Pending(plan, net, w.mainInput) && Pending(plan, net, w.auxInput)
    ensures Enabled(plan, net, w.mainInput) && Good(plan, limits, w, Fire(plan, net, w.mainInput))
    ensures Pending(plan, Fire(plan, net, w.mainInput), w.auxInput)
    ensures Taken(plan, net, w.mainInput) == Fire(plan, net, w.mainInput)
    ensures TakenBoth(plan, net, w) == Taken(plan, Fire(plan, net, w.mainInput), w.auxInput)
  {
    FireIsSound(plan, net, w.mainInput);
    FireDoesWork(plan, net, w.mainInput);
    FirePublishes(plan, net, w.mainInput, w.aux);
  }
}
