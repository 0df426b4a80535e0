/** Demand-driven scheduling of a plan over bounded shared buffers: which node
    works when a port is demanded, why some demanded port can always advance, and
    why the work ends. */
module Scheduling {
  import opened Stream
  import opened Operators
  import opened Plans

  /** Nodes advanced in some order; a request that cannot be met changes nothing. */
  ghost function After(plan: Plan, net: Network, schedule: seq<nat>): (r: Network)
    requires Sound(plan, net)
    ensures |r| == |plan|
    decreases |schedule|
  {
    if schedule == [] then net
    else
      var i := schedule[0];
      if i < |plan| && Enabled(plan, net, i) then
        FireIsSound(plan, net, i);
        After(plan, Fire(plan, net, i), schedule[1..])
      else After(plan, net, schedule[1..])
  }

  lemma {:induction false} AfterIsSound(plan: Plan, net: Network, schedule: seq<nat>)
    requires Sound(plan, net)
    ensures Sound(plan, After(plan, net, schedule))
    decreases |schedule|
  {
    if schedule != [] {
      var i := schedule[0];
      if i < |plan| && Enabled(plan, net, i) {
        FireIsSound(plan, net, i);
        AfterIsSound(plan, Fire(plan, net, i), schedule[1..]);
      } else {
        AfterIsSound(plan, net, schedule[1..]);
      }
    }
  }

  /** The network a schedule reaches from the start of a run. */
  ghost function Reached(plan: Plan, schedule: seq<nat>): (r: Network)
    requires WellFormed(plan)
    ensures |r| == |plan|
  {
    StartIsSound(plan);
    After(plan, Start(plan), schedule)
  }

  /** Two runs in any two orders publish the same items on every port, as far as
      both got; runs that closed the port published the same stream. */
  lemma {:induction false} OrderDoesNotMatter(plan: Plan, one: seq<nat>, other: seq<nat>, port: nat)
    requires WellFormed(plan) && port < |plan|
    ensures var a, b := Reached(plan, one)[port], Reached(plan, other)[port];
            && (a.published <= b.published || b.published <= a.published)
            && (a.closed && b.closed ==> a.published == b.published)
  {
    StartIsSound(plan);
    AfterIsSound(plan, Start(plan), one);
    AfterIsSound(plan, Start(plan), other);
    Determinate(plan, Reached(plan, one), port);
    Determinate(plan, Reached(plan, other), port);
  }

  // ----------------------------------------------------------- demand

  /** Consumer `c` reads port `port`. */
  predicate Reads(plan: Plan, c: nat, port: nat)
    requires c < |plan|
  {
    !plan[c].Source? && plan[c].input == port
  }

  function Lag(plan: Plan, net: Network, c: nat): int
    requires |net| == |plan| && c < |plan| && WellFormed(plan) && !plan[c].Source?
  {
    |net[plan[c].input].published| - net[c].used
  }

  /** A port has room for `burst` more items when no consumer is too far behind. */
  ghost predicate Room(plan: Plan, net: Network, port: nat, burst: nat, capacity: nat)
    requires WellFormed(plan) && |net| == |plan|
  {
    forall c :: 0 <= c < |plan| && Reads(plan, c, port) ==> Lag(plan, net, c) + burst <= capacity
  }

  /** What a plan compiled to: how much one unit of work may emit, and each buffer's size. */
  datatype Limits = Limits(bursts: seq<nat>, capacities: seq<nat>)

  ghost predicate ValidLimits(plan: Plan, limits: Limits) {
    && |limits.bursts| == |limits.capacities| == |plan|
    && forall i :: 0 <= i < |plan| ==> 0 < limits.bursts[i] <= limits.capacities[i]
  }

  /** Every unit of work emits at most what was planned for its node. */
  ghost predicate Bounded(plan: Plan, limits: Limits)
    requires WellFormed(plan) && ValidLimits(plan, limits)
  {
    forall i, k :: 0 <= i < |plan| && !plan[i].Source? && 0 <= k < |Denotation(plan, plan[i].input)| ==>
      Emitted(plan[i], Denotation(plan, plan[i].input), k) <= limits.bursts[i]
  }

  /** How many items the node emits when it reads item k of its input. */
  function Emitted(node: Node, input: seq<Item>, k: nat): nat
    requires node.Valid() && k < |input|
  {
    |Step(node, Run(node, input[..k]).0, input[k]).1|
  }

  lemma BurstHolds(plan: Plan, limits: Limits, net: Network, i: nat)
    requires Sound(plan, net) && ValidLimits(plan, limits) && Bounded(plan, limits)
    requires i < |plan| && Enabled(plan, net, i) && Pending(plan, net, i)
    requires Fits(plan[i], net[i].state)
    ensures |Step(plan[i], net[i].state, net[plan[i].input].published[net[i].used]).1| <= limits.bursts[i]
  {
    assert NodeSound(plan, net, i);
    var input, k := net[plan[i].input].published, net[i].used;
    Determinate(plan, net, plan[i].input);
    assert input[..k] == Denotation(plan, plan[i].input)[..k];
    assert Emitted(plan[i], Denotation(plan, plan[i].input), k) <= limits.bursts[i];
  }

  /** The next item of a source ends after the boundary of this run_until. */
  predicate AtBoundary(plan: Plan, net: Network, s: nat, duration: Option<real>)
    requires |net| == |plan| && s < |plan|
  {
    plan[s].Source? && duration.Some? && |net[s].published| < |plan[s].items| &&
    plan[s].items[|net[s].published|].end > duration.value
  }

  datatype Demand = Work(node: nat) | Full(port: nat) | Boundary(source: nat) | Ended

  /** Who works when `port` is demanded, or why nobody can. */
  ghost function Demanded(plan: Plan, net: Network, limits: Limits, duration: Option<real>, port: nat): (d: Demand)
    requires WellFormed(plan) && |net| == |plan| && port < |plan| && ValidLimits(plan, limits)
    ensures d.Work? ==> d.node <= port && Enabled(plan, net, d.node)
    ensures d.Work? ==> Room(plan, net, d.node, limits.bursts[d.node], limits.capacities[d.node])
    ensures d.Work? ==> !AtBoundary(plan, net, d.node, duration)
    ensures d.Boundary? ==> d.source <= port && AtBoundary(plan, net, d.source, duration)
    ensures d.Full? ==> d.port <= port && !Room(plan, net, d.port, limits.bursts[d.port], limits.capacities[d.port])
    decreases port
  {
    if net[port].closed then Ended
    else if !Room(plan, net, port, limits.bursts[port], limits.capacities[port]) then Full(port)
    else if plan[port].Source? then if AtBoundary(plan, net, port, duration) then Boundary(port) else Work(port)
    else if Pending(plan, net, port) || net[plan[port].input].closed then Work(port)
    else Demanded(plan, net, limits, duration, plan[port].input)
  }

  // ------------------------------------------------------ deadlock freedom

  /** `ancestor` is `port` or one of the nodes it reads from, directly or not. */
  predicate Upstream(plan: Plan, port: nat, ancestor: nat)
    requires WellFormed(plan) && port < |plan|
    decreases port
  {
    port == ancestor || (!plan[port].Source? && Upstream(plan, plan[port].input, ancestor))
  }

  /** A compiled plan holds only nodes that some observed root needs. */
  ghost predicate Required(plan: Plan, roots: set<nat>) {
    && (forall r :: r in roots ==> r < |plan|)
    && forall i: nat :: i < |plan| ==> i in roots || exists c :: 0 <= c < |plan| && Reads(plan, c, i)
  }

  lemma {:induction false} UpstreamOfReader(plan: Plan, root: nat, c: nat, port: nat)
    requires WellFormed(plan) && root < |plan| && c < |plan| && Upstream(plan, root, c) && Reads(plan, c, port)
    ensures Upstream(plan, root, port)
    decreases root
  {
    if root != c {
      UpstreamOfReader(plan, plan[root].input, c, port);
    } else {
      assert Upstream(plan, plan[root].input, port);
    }
  }

  /** Every node feeds some root. */
  lemma {:induction false} SomeRoot(plan: Plan, roots: set<nat>, i: nat) returns (root: nat)
    requires WellFormed(plan) && Required(plan, roots) && i < |plan|
    ensures root in roots && root < |plan| && Upstream(plan, root, i)
    decreases |plan| - i
  {
    if i in roots {
      root := i;
    } else {
      var c: nat :| c < |plan| && Reads(plan, c, i);
      root := SomeRoot(plan, roots, c);
      UpstreamOfReader(plan, root, c, i);
    }
  }

  /** What feeds a closed port is closed and has been read to its end. */
  lemma {:induction false} ClosedUpstream(plan: Plan, net: Network, port: nat, ancestor: nat)
    requires Sound(plan, net) && port < |plan| && ancestor < |plan| && Upstream(plan, port, ancestor) &&
             net[port].closed
    ensures net[ancestor].closed && !Pending(plan, net, ancestor)
    decreases port
  {
    assert NodeSound(plan, net, port);
    if port != ancestor { ClosedUpstream(plan, net, plan[port].input, ancestor); }
  }

  /** Demanding a root above a node with unread input meets work or a full port
      that is not above that node. */
  lemma {:induction false} DemandMeetsPending(
      plan: Plan, net: Network, limits: Limits, duration: Option<real>, root: nat, c: nat)
    requires Sound(plan, net) && ValidLimits(plan, limits) && root < |plan| && c < |plan|
    requires Upstream(plan, root, c) && Pending(plan, net, c) && !net[root].closed
    ensures var d := Demanded(plan, net, limits, duration, root); d.Work? || (d.Full? && d.port >= c)
    decreases root
  {
    if root != c {
      UpstreamIsEarlier(plan, root, c);
      if !net[plan[root].input].closed { DemandMeetsPending(plan, net, limits, duration, plan[root].input, c); }
    }
  }

  lemma {:induction false} UpstreamIsEarlier(plan: Plan, port: nat, ancestor: nat)
    requires WellFormed(plan) && port < |plan| && Upstream(plan, port, ancestor)
    ensures ancestor <= port
    decreases port
  {
    if port != ancestor { UpstreamIsEarlier(plan, plan[port].input, ancestor); }
  }

  /** A full port has a consumer with unread items. */
  lemma SlowConsumer(plan: Plan, net: Network, limits: Limits, port: nat) returns (c: nat)
    requires WellFormed(plan) && |net| == |plan| && ValidLimits(plan, limits) && port < |plan|
    requires !Room(plan, net, port, limits.bursts[port], limits.capacities[port])
    ensures c < |plan| && Reads(plan, c, port) && Pending(plan, net, c) && c > port
  {
    c :| c < |plan| && Reads(plan, c, port) && Lag(plan, net, c) + limits.bursts[port] > limits.capacities[port];
  }

  /** Unread input anywhere means that some open root can be advanced: a full
      buffer has a slow consumer, whose root is blocked only by a full buffer
      further down, and there is a last one. */
  lemma {:induction false} PendingWorks(
      plan: Plan, net: Network, limits: Limits, duration: Option<real>, roots: set<nat>, c: nat)
    returns (root: nat)
    requires Sound(plan, net) && ValidLimits(plan, limits) && Required(plan, roots) && c < |plan| &&
             Pending(plan, net, c)
    ensures root in roots && root < |plan| && Demanded(plan, net, limits, duration, root).Work?
    decreases |plan| - c
  {
    root := SomeRoot(plan, roots, c);
    if net[root].closed { ClosedUpstream(plan, net, root, c); }
    DemandMeetsPending(plan, net, limits, duration, root, c);
    var d := Demanded(plan, net, limits, duration, root);
    if d.Full? {
      var slow := SlowConsumer(plan, net, limits, d.port);
      root := PendingWorks(plan, net, limits, duration, roots, slow);
    }
  }

  /** Deadlock freedom: an open root means that some root can be advanced, or that
      a source is waiting for the next run_until. */
  lemma {:induction false} NoDeadlock(
      plan: Plan, net: Network, limits: Limits, duration: Option<real>, roots: set<nat>, open: nat)
    requires Sound(plan, net) && ValidLimits(plan, limits) && Required(plan, roots)
    requires open in roots && open < |plan| && !net[open].closed
    ensures exists root :: root in roots && root < |plan| &&
              var d := Demanded(plan, net, limits, duration, root); d.Work? || d.Boundary?
  {
    var d := Demanded(plan, net, limits, duration, open);
    DemandAnswers(plan, net, limits, duration, open);
    if d.Full? {
      var c := SlowConsumer(plan, net, limits, d.port);
      var root := PendingWorks(plan, net, limits, duration, roots, c);
    }
  }

  /** An open port is never answered with Ended. */
  lemma {:induction false} DemandAnswers(plan: Plan, net: Network, limits: Limits, duration: Option<real>, port: nat)
    requires WellFormed(plan) && |net| == |plan| && ValidLimits(plan, limits) && port < |plan| && !net[port].closed
    ensures !Demanded(plan, net, limits, duration, port).Ended?
    decreases port
  {
    if !plan[port].Source? && !net[plan[port].input].closed {
      DemandAnswers(plan, net, limits, duration, plan[port].input);
    }
  }

  // ------------------------------------------------------------ quiescence

  /** How many leading items of a source end by the boundary. */
  function Admitted(items: seq<Item>, duration: Option<real>): (k: nat)
    ensures k <= |items|
    ensures duration.Some? ==> forall j :: 0 <= j < k ==> items[j].end <= duration.value
    ensures k < |items| ==> duration.Some? && items[k].end > duration.value
    decreases |items|
  {
    if items == [] || (duration.Some? && items[0].end > duration.value) then 0 else 1 + Admitted(items[1..], duration)
  }

  /** What a port publishes, and whether it ended, when exactly the admitted
      source items are processed. It depends on the boundary alone. */
  function Snapshot(plan: Plan, duration: Option<real>, port: nat): (seq<Item>, bool)
    requires WellFormed(plan) && port < |plan|
    decreases port
  {
    var node := plan[port];
    if node.Source? then
      var k := Admitted(node.items, duration);
      (node.items[..k], k == |node.items|)
    else
      var (input, ended) := Snapshot(plan, duration, node.input);
      (if ended then Denote(node, input) else Run(node, input).1, ended)
  }

  /** Nothing published so far comes from a source item beyond the boundary. */
  ghost predicate Within(plan: Plan, net: Network, duration: Option<real>)
    requires |net| == |plan|
  {
    forall s, k :: 0 <= s < |plan| && plan[s].Source? && duration.Some? && 0 <= k < |net[s].published| ==>
      net[s].published[k].end <= duration.value
  }

  /** No root can be advanced. */
  ghost predicate Quiet(plan: Plan, net: Network, limits: Limits, duration: Option<real>, roots: set<nat>)
    requires WellFormed(plan) && |net| == |plan| && ValidLimits(plan, limits)
  {
    forall r :: r in roots && r < |plan| ==> !Demanded(plan, net, limits, duration, r).Work?
  }

  ghost predicate AllRead(plan: Plan, net: Network)
    requires WellFormed(plan) && |net| == |plan|
  {
    forall c :: 0 <= c < |plan| ==> !Pending(plan, net, c)
  }

  lemma QuietIsRead(plan: Plan, net: Network, limits: Limits, duration: Option<real>, roots: set<nat>)
    requires Sound(plan, net) && ValidLimits(plan, limits) && Required(plan, roots)
    requires Quiet(plan, net, limits, duration, roots)
    ensures AllRead(plan, net)
  {
    if c: nat :| c < |plan| && Pending(plan, net, c) {
      var root := PendingWorks(plan, net, limits, duration, roots, c);
    }
  }

  /** With everything read, a demand walks up to an ended input or to the source. */
  lemma {:induction false} DemandReachesSource(
      plan: Plan, net: Network, limits: Limits, duration: Option<real>, root: nat, i: nat)
    requires Sound(plan, net) && ValidLimits(plan, limits) && AllRead(plan, net)
    requires root < |plan| && i < |plan| && Upstream(plan, root, i) && !net[root].closed
    requires !Demanded(plan, net, limits, duration, root).Work?
    ensures !net[i].closed
    ensures if plan[i].Source? then AtBoundary(plan, net, i, duration) else !net[plan[i].input].closed
    decreases root
  {
    forall c | 0 <= c < |plan| && Reads(plan, c, root)
      ensures Lag(plan, net, c) + limits.bursts[root] <= limits.capacities[root]
    {
      assert !Pending(plan, net, c);
    }
    assert !Pending(plan, net, root);
    if root != i { DemandReachesSource(plan, net, limits, duration, plan[root].input, i); }
  }

  /** A quiet run has done everything the boundary admits: every port shows its snapshot. */
  lemma {:induction false} QuietIsSnapshot(
      plan: Plan, net: Network, limits: Limits, duration: Option<real>, roots: set<nat>, i: nat)
    requires Sound(plan, net) && ValidLimits(plan, limits) && Required(plan, roots) && Within(plan, net, duration)
    requires Quiet(plan, net, limits, duration, roots) && i < |plan|
    ensures (net[i].published, net[i].closed) == Snapshot(plan, duration, i)
    decreases i
  {
    QuietIsRead(plan, net, limits, duration, roots);
    assert NodeSound(plan, net, i) && !Pending(plan, net, i);
    var root := SomeRoot(plan, roots, i);
    if net[root].closed {
      ClosedUpstream(plan, net, root, i);
    } else {
      DemandReachesSource(plan, net, limits, duration, root, i);
    }
    var node, port := plan[i], net[i];
    if node.Source? {
      assert port.published == node.items[..|port.published|];
      AdmittedIs(node.items, duration, |port.published|);
    } else {
      QuietIsSnapshot(plan, net, limits, duration, roots, node.input);
      assert net[node.input].published[..port.used] == net[node.input].published;
      assert Run(node, net[node.input].published).1 + [] == Run(node, net[node.input].published).1;
    }
  }

  lemma {:induction false} AdmittedIs(items: seq<Item>, duration: Option<real>, k: nat)
    requires k <= |items|
    requires duration.Some? ==> forall j :: 0 <= j < k ==> items[j].end <= duration.value
    requires k < |items| ==> duration.Some? && items[k].end > duration.value
    ensures Admitted(items, duration) == k
    decreases |items|
  {
    if k > 0 { AdmittedIs(items[1..], duration, k - 1); }
  }

  /** Without a boundary the snapshot is the whole denotation. */
  lemma {:induction false} FullSnapshot(plan: Plan, port: nat)
    requires WellFormed(plan) && port < |plan|
    ensures Snapshot(plan, None, port) == (Denotation(plan, port), true)
    decreases port
  {
    if plan[port].Source? {
      assert plan[port].items[..|plan[port].items|] == plan[port].items;
    } else {
      FullSnapshot(plan, plan[port].input);
    }
  }

  lemma {:induction false} AdmittedGrows(items: seq<Item>, early: Option<real>, late: Option<real>)
    requires late.Some? ==> early.Some? && early.value <= late.value
    ensures Admitted(items, early) <= Admitted(items, late)
    decreases |items|
  {
    if items != [] { AdmittedGrows(items[1..], early, late); }
  }

  /** What has ended at a boundary stays as it is at later ones. */
  lemma {:induction false} EndedStays(plan: Plan, early: Option<real>, late: Option<real>, port: nat)
    requires WellFormed(plan) && port < |plan|
    requires late.Some? ==> early.Some? && early.value <= late.value
    requires Snapshot(plan, early, port).1
    ensures Snapshot(plan, late, port) == Snapshot(plan, early, port)
    decreases port
  {
    if plan[port].Source? {
      AdmittedGrows(plan[port].items, early, late);
    } else {
      EndedStays(plan, early, late, plan[port].input);
    }
  }

  /** A later boundary only adds to the snapshot. */
  lemma {:induction false} SnapshotGrows(plan: Plan, early: Option<real>, late: Option<real>, port: nat)
    requires WellFormed(plan) && port < |plan|
    requires late.Some? ==> early.Some? && early.value <= late.value
    ensures Snapshot(plan, early, port).0 <= Snapshot(plan, late, port).0
    decreases port
  {
    var node := plan[port];
    if node.Source? {
      AdmittedGrows(node.items, early, late);
    } else {
      var (was, ended) := Snapshot(plan, early, node.input);
      var (now, over) := Snapshot(plan, late, node.input);
      SnapshotGrows(plan, early, late, node.input);
      if ended {
        EndedStays(plan, early, late, node.input);
      } else {
        assert now[..|was|] == was;
        RunMonotone(node, now, |was|);
      }
    }
  }

  // ------------------------------------------------------------ termination

  /** The end of its input will make node i emit once more. */
  function WillFlush(plan: Plan, i: nat): bool
    requires WellFormed(plan) && i < |plan| && !plan[i].Source?
  {
    Flush(plan[i], Run(plan[i], Denotation(plan, plan[i].input)).0) != []
  }

  /** The units of work left at node i: an item to publish or to read each, the flush,
      and closing. */
  function Left(plan: Plan, net: Network, i: nat): int
    requires WellFormed(plan) && |net| == |plan| && i < |plan|
  {
    (if net[i].closed then 0 else 1) +
    if plan[i].Source? then |plan[i].items| - |net[i].published|
    else |Denotation(plan, plan[i].input)| - net[i].used + if !net[i].flushed && WillFlush(plan, i) then 1 else 0
  }

  function LeftUpTo(plan: Plan, net: Network, n: nat): int
    requires WellFormed(plan) && |net| == |plan| && n <= |plan|
  {
    if n == 0 then 0 else LeftUpTo(plan, net, n - 1) + Left(plan, net, n - 1)
  }

  lemma LeftIsNatural(plan: Plan, net: Network, i: nat)
    requires Sound(plan, net) && i < |plan|
    ensures Left(plan, net, i) >= 0 && (Left(plan, net, i) == 0 <==> net[i].closed)
  {
    assert NodeSound(plan, net, i);
    if !plan[i].Source? {
      Determinate(plan, net, plan[i].input);
      var input := net[plan[i].input];
      if net[i].closed { assert input.published[..net[i].used] == Denotation(plan, plan[i].input); }
    }
  }

  lemma {:induction false} LeftUpToIsNatural(plan: Plan, net: Network, n: nat)
    requires Sound(plan, net) && n <= |plan|
    ensures LeftUpTo(plan, net, n) >= 0
    ensures LeftUpTo(plan, net, n) == 0 <==> forall i :: 0 <= i < n ==> net[i].closed
  {
    if n > 0 {
      LeftUpToIsNatural(plan, net, n - 1);
      LeftIsNatural(plan, net, n - 1);
    }
  }

  lemma FireDoesWork(plan: Plan, net: Network, i: nat)
    requires Sound(plan, net) && i < |plan| && Enabled(plan, net, i)
    ensures Left(plan, Fire(plan, net, i), i) == Left(plan, net, i) - 1
    ensures forall j :: 0 <= j < |plan| && j != i ==> Fire(plan, net, i)[j] == net[j]
  {
    assert NodeSound(plan, net, i);
    var node, port := plan[i], net[i];
    if !node.Source? {
      StateFits(plan, net, i);
      var input := net[node.input];
      if port.used == |input.published| {
        Determinate(plan, net, node.input);
        assert input.published[..port.used] == Denotation(plan, node.input);
        FlushOnce(node, Run(node, Denotation(plan, node.input)).0);
      }
    }
  }

  /** Every unit of work, whichever it is, is one of those that were left. */
  lemma {:induction false} FireDecreases(plan: Plan, net: Network, i: nat, n: nat)
    requires Sound(plan, net) && i < |plan| && Enabled(plan, net, i) && n <= |plan|
    ensures LeftUpTo(plan, Fire(plan, net, i), n) == LeftUpTo(plan, net, n) - if i < n then 1 else 0
  {
    FireDoesWork(plan, net, i);
    if n > 0 { FireDecreases(plan, net, i, n - 1); }
  }

  /** How many units of work a run still takes to its end, in any order. */
  function Remaining(plan: Plan, net: Network): int
    requires WellFormed(plan) && |net| == |plan|
  {
    LeftUpTo(plan, net, |plan|)
  }

  predicate AllClosed(plan: Plan, net: Network) { |net| == |plan| && forall i :: 0 <= i < |plan| ==> net[i].closed }

  lemma RemainingIsNatural(plan: Plan, net: Network)
    requires Sound(plan, net)
    ensures Remaining(plan, net) >= 0 && (Remaining(plan, net) == 0 <==> AllClosed(plan, net))
  {
    LeftUpToIsNatural(plan, net, |plan|);
  }

  lemma FireIsOne(plan: Plan, net: Network, i: nat)
    requires Sound(plan, net) && i < |plan| && Enabled(plan, net, i)
    ensures Remaining(plan, Fire(plan, net, i)) == Remaining(plan, net) - 1
  {
    FireDecreases(plan, net, i, |plan|);
  }
}
