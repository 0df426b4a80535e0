/** The partition of a plan into execution stages: Python islands that grow until
    a native MAP stops them, native MAPs on their own, and runs of the rest. */
module Stages {

  datatype Kind = SOURCE | RATE | FRAME | MAP

  /** A node of the compiled graph; inputs are the nodes that produce its input ports,
      and `boundary` says that one of its output ports is observed. */
  datatype StageNode = StageNode(kind: Kind, backend: string, inputs: seq<nat>, boundary: bool)

  datatype Domain = Python | PythonSource | Native(backend: string) | Opcode

  datatype Stage = Stage(nodes: seq<nat>, domain: Domain)

  ghost predicate Topological(nodes: seq<StageNode>) {
    forall i, k :: 0 <= i < |nodes| && 0 <= k < |nodes[i].inputs| ==> nodes[i].inputs[k] < i
  }

  predicate NativeMap(node: StageNode) { node.kind == MAP && node.backend != "python" }

  predicate PythonSeed(node: StageNode) { node.kind == MAP && node.backend == "python" }

  // --------------------------------------------------------------- islands

  /** An edge, read in either direction, that does not touch a native MAP. */
  predicate Linked(nodes: seq<StageNode>, i: nat, j: nat)
    requires i < |nodes| && j < |nodes|
  {
    !NativeMap(nodes[i]) && !NativeMap(nodes[j]) && (j in nodes[i].inputs || i in nodes[j].inputs)
  }

  ghost predicate Closed(nodes: seq<StageNode>, s: set<nat>) {
    forall i, j :: i in s && 0 <= i < |nodes| && 0 <= j < |nodes| && Linked(nodes, i, j) ==> j in s
  }

  ghost predicate Seeded(nodes: seq<StageNode>, s: set<nat>) {
    forall i :: 0 <= i < |nodes| && PythonSeed(nodes[i]) ==> i in s
  }

  /** The nodes connected to a Python MAP without passing a native MAP: the least
      closed set that holds every Python MAP. */
  ghost predicate Islands(nodes: seq<StageNode>, island: set<nat>) {
    && (forall i :: i in island ==> i < |nodes| && !NativeMap(nodes[i]))
    && Closed(nodes, island) && Seeded(nodes, island)
    && forall s :: Closed(nodes, s) && Seeded(nodes, s) ==> island <= s
  }

  lemma IslandsUnique(nodes: seq<StageNode>, a: set<nat>, b: set<nat>)
    requires Islands(nodes, a) && Islands(nodes, b)
    ensures a == b
  {
  }

  /** Edges seen by the first k nodes, and the first m inputs of node k. */
  ghost predicate Seen(nodes: seq<StageNode>, i: nat, j: nat, k: nat, m: nat)
    requires i < |nodes| && j < |nodes| && k <= |nodes|
    requires k < |nodes| ==> m <= |nodes[k].inputs|
  {
    !NativeMap(nodes[i]) && !NativeMap(nodes[j]) && (SeenFrom(nodes, i, j, k, m) || SeenFrom(nodes, j, i, k, m))
  }

  ghost predicate SeenFrom(nodes: seq<StageNode>, i: nat, j: nat, k: nat, m: nat)
    requires i < |nodes| && k <= |nodes| && (k < |nodes| ==> m <= |nodes[k].inputs|)
  {
    (i < k && j in nodes[i].inputs) || (i == k && j in nodes[k].inputs[..m])
  }

  ghost predicate AdjacentIs(nodes: seq<StageNode>, adjacent: seq<set<nat>>, k: nat, m: nat)
    requires k <= |nodes| && (k < |nodes| ==> m <= |nodes[k].inputs|)
  {
    && |adjacent| == |nodes|
    && forall i, j :: 0 <= i < |nodes| && 0 <= j < |nodes| ==> (j in adjacent[i] <==> Seen(nodes, i, j, k, m))
  }

  method Adjacency(nodes: seq<StageNode>) returns (adjacent: seq<set<nat>>)
    requires Topological(nodes)
    ensures |adjacent| == |nodes|
    ensures forall i, j :: 0 <= i < |nodes| && 0 <= j < |nodes| ==> (j in adjacent[i] <==> Linked(nodes, i, j))
    ensures forall i :: 0 <= i < |nodes| ==> forall j :: j in adjacent[i] ==> j < |nodes|
  {
    adjacent := seq(|nodes|, (_: nat) => {});
    for k := 0 to |nodes|
      invariant AdjacentIs(nodes, adjacent, k, 0)
      invariant forall i :: 0 <= i < |nodes| ==> forall j :: j in adjacent[i] ==> j < |nodes|
    {
      for m := 0 to |nodes[k].inputs|
        invariant AdjacentIs(nodes, adjacent, k, m)
        invariant forall i :: 0 <= i < |nodes| ==> forall j :: j in adjacent[i] ==> j < |nodes|
      {
        var producer := nodes[k].inputs[m];
        if !NativeMap(nodes[k]) && !NativeMap(nodes[producer]) {
          adjacent := adjacent[k := adjacent[k] + {producer}][producer := adjacent[producer] + {k}];
        }
      }
      assert nodes[k].inputs[..|nodes[k].inputs|] == nodes[k].inputs;
      assert AdjacentIs(nodes, adjacent, k + 1, 0);
    }
  }

  /** Every member lies in exactly the closed sets that hold the root. */
  ghost predicate Together(nodes: seq<StageNode>, root: nat, component: set<nat>) {
    forall s, c :: Closed(nodes, s) && c in component ==> (root in s <==> c in s)
  }

  /** All neighbours of `i` lie in `s`. */
  ghost predicate NeighborsIn(nodes: seq<StageNode>, i: nat, s: set<nat>)
    requires i < |nodes|
  {
    forall j :: 0 <= j < |nodes| && Linked(nodes, i, j) ==> j in s
  }

  ghost predicate AdjacencyOf(nodes: seq<StageNode>, adjacent: seq<set<nat>>) {
    && |adjacent| == |nodes|
    && (forall i, j :: 0 <= i < |nodes| && 0 <= j < |nodes| ==> (j in adjacent[i] <==> Linked(nodes, i, j)))
    && forall i :: 0 <= i < |nodes| ==> forall j :: j in adjacent[i] ==> j < |nodes|
  }

  /** What the worklist search maintains: the component is connected, and only the
      members on the worklist may have neighbours outside. */
  ghost predicate Searching(
      nodes: seq<StageNode>, rest: set<nat>, root: nat, component: set<nat>, remaining: set<nat>, frontier: seq<nat>) {
    && component + remaining == rest && component !! remaining && root in component
    && (forall i :: i in rest ==> i < |nodes|)
    && (forall i :: i in frontier ==> i in component)
    && (forall i :: i in component && i < |nodes| ==> i in frontier || NeighborsIn(nodes, i, component))
    && Together(nodes, root, component)
  }

  /** The neighbours that `current` still has in `remaining` are `todo`. */
  ghost predicate Absorbing(
      nodes: seq<StageNode>, rest: set<nat>, root: nat, component: set<nat>, remaining: set<nat>, frontier: seq<nat>,
      current: nat, todo: set<nat>) {
    && component + remaining == rest && component !! remaining && root in component
    && (forall i :: i in rest ==> i < |nodes|) && current in component && todo <= remaining
    && (forall i :: i in frontier ==> i in component)
    && (forall i :: i in component && i < |nodes| && i != current ==> i in frontier || NeighborsIn(nodes, i, component))
    && NeighborsIn(nodes, current, component + todo)
    && Together(nodes, root, component)
  }

  lemma AbsorbOne(
      nodes: seq<StageNode>, rest: set<nat>, root: nat, component: set<nat>, remaining: set<nat>, frontier: seq<nat>,
      current: nat, todo: set<nat>, neighbor: nat)
    requires Absorbing(nodes, rest, root, component, remaining, frontier, current, todo)
    requires neighbor in todo && Linked(nodes, current, neighbor)
    ensures Absorbing(nodes, rest, root, component + {neighbor}, remaining - {neighbor}, frontier +
            [neighbor], current, todo - {neighbor})
  {
    assert (component + {neighbor}) + (todo - {neighbor}) == component + todo;
    forall i | i in component + {neighbor} && i != current
      ensures i in frontier + [neighbor] || NeighborsIn(nodes, i, component + {neighbor})
    {
      assert i in component ==> i in frontier || NeighborsIn(nodes, i, component);
    }
  }

  lemma DoneAbsorbing(
      nodes: seq<StageNode>, rest: set<nat>, root: nat, component: set<nat>, remaining: set<nat>, frontier: seq<nat>,
      current: nat)
    requires Absorbing(nodes, rest, root, component, remaining, frontier, current, {})
    ensures Searching(nodes, rest, root, component, remaining, frontier)
  {
    assert component + {} == component;
  }

  /** The last node of the worklist is taken; its neighbours in `remaining` come next. */
  lemma TakeCurrent(
      nodes: seq<StageNode>, adjacent: seq<set<nat>>, rest: set<nat>, root: nat, component: set<nat>,
      remaining: set<nat>, frontier: seq<nat>)
    requires AdjacencyOf(nodes, adjacent) && Searching(nodes, rest, root, component, remaining, frontier) &&
             frontier != []
    requires forall i :: i in rest ==> i < |nodes| && NeighborsIn(nodes, i, rest)
    ensures var current := frontier[|frontier| - 1];
            && current < |nodes|
            && Absorbing(nodes, rest, root, component, remaining, frontier[..|frontier| - 1], current,
              adjacent[current] * remaining)
            && forall j :: j in adjacent[current] ==> j < |nodes| && Linked(nodes, current, j)
  {
    var n := |frontier| - 1;
    assert frontier[n] in component && frontier[n] in rest;
    assert frontier == frontier[..n] + [frontier[n]];
  }

  /** One worklist search: everything connected to the root leaves `remaining`. */
  method Component(nodes: seq<StageNode>, adjacent: seq<set<nat>>, rest: set<nat>, root: nat)
    returns (component: set<nat>, remaining: set<nat>)
    requires AdjacencyOf(nodes, adjacent) && root in rest
    requires forall i :: i in rest ==> i < |nodes| && NeighborsIn(nodes, i, rest)
    ensures component + remaining == rest && component !! remaining && root in component
    ensures Closed(nodes, component) && Together(nodes, root, component)
  {
    component, remaining := {root}, rest - {root};
    var frontier := [root];
    while frontier != []
      invariant Searching(nodes, rest, root, component, remaining, frontier)
      decreases remaining, |frontier|
    {
      TakeCurrent(nodes, adjacent, rest, root, component, remaining, frontier);
      var current, before := frontier[|frontier| - 1], remaining;
      frontier := frontier[..|frontier| - 1];
      var n, todo := |frontier|, adjacent[current] * remaining;
      while todo != {}
        invariant Absorbing(nodes, rest, root, component, remaining, frontier, current, todo)
        invariant todo <= adjacent[current]
        invariant remaining < before || (remaining == before && |frontier| == n)
        decreases todo
      {
        var neighbor :| neighbor in todo;
        AbsorbOne(nodes, rest, root, component, remaining, frontier, current, todo, neighbor);
        component, remaining, frontier := component + {neighbor}, remaining - {neighbor}, frontier + [neighbor];
        todo := todo - {neighbor};
      }
      DoneAbsorbing(nodes, rest, root, component, remaining, frontier, current);
    }
  }

  /** What the outer loop has found: closed, without the rest, and no larger than it must be. */
  ghost predicate Found(nodes: seq<StageNode>, island: set<nat>, remaining: set<nat>) {
    && (forall i :: i in island ==> i < |nodes| && !NativeMap(nodes[i]))
    && (forall i :: i in remaining ==> i < |nodes| && !NativeMap(nodes[i]) && NeighborsIn(nodes, i, remaining))
    && Closed(nodes, island)
    && (forall i :: 0 <= i < |nodes| && PythonSeed(nodes[i]) ==> i in island || i in remaining)
    && (forall s :: Closed(nodes, s) && Seeded(nodes, s) ==> island <= s)
  }

  lemma FoundMore(
      nodes: seq<StageNode>, island: set<nat>, rest: set<nat>, root: nat, component: set<nat>, remaining: set<nat>)
    requires Found(nodes, island, rest) && component + remaining == rest && component !! remaining && root in component
    requires Closed(nodes, component) && Together(nodes, root, component)
    ensures (exists i :: i in component && PythonSeed(nodes[i])) ==> Found(nodes, island + component, remaining)
    ensures (forall i :: i in component ==> !PythonSeed(nodes[i])) ==> Found(nodes, island, remaining)
  {
    if i :| i in component && PythonSeed(nodes[i]) {
      forall s | Closed(nodes, s) && Seeded(nodes, s) ensures island + component <= s {
        assert i in s && root in s;
      }
    }
  }

  /** The Python islands of a graph, by worklist search over undirected edges. */
  method PythonIslands(nodes: seq<StageNode>) returns (island: set<nat>)
    requires Topological(nodes)
    ensures Islands(nodes, island)
  {
    var adjacent := Adjacency(nodes);
    var seeds := set i: nat | 0 <= i < |nodes| && PythonSeed(nodes[i]);
    var remaining := set i: nat | 0 <= i < |nodes| && !NativeMap(nodes[i]);
    island := {};
    while remaining != {}
      invariant Found(nodes, island, remaining)
      decreases remaining
    {
      var root :| root in remaining;
      var component, left := Component(nodes, adjacent, remaining, root);
      FoundMore(nodes, island, remaining, root, component, left);
      if component * seeds != {} {
        ghost var seed :| seed in component * seeds;
        assert seed in component && PythonSeed(nodes[seed]);
        island := island + component;
      } else {
        assert forall i :: i in component && PythonSeed(nodes[i]) ==> i in component * seeds;
      }
      remaining := left;
    }
  }

  /** Every edge between the Python side and the rest has a native MAP at its other end. */
  lemma EdgesCrossAtNativeMaps(nodes: seq<StageNode>, island: set<nat>, i: nat, j: nat)
    requires Islands(nodes, island) && i < |nodes| && j < |nodes| && i in island && j !in island
    requires j in nodes[i].inputs || i in nodes[j].inputs
    ensures NativeMap(nodes[j])
  {
  }

  // ---------------------------------------------------------------- stages

  function DomainOf(nodes: seq<StageNode>, island: set<nat>, i: nat): Domain
    requires i < |nodes|
  {
    if i in island then Python
    else match nodes[i].kind
      case SOURCE => PythonSource
      case MAP => Native(nodes[i].backend)
      case RATE => Opcode
      case FRAME => Opcode
  }

  /** A stage must end behind node i whatever follows: native MAPs stand alone, and
      outside Python an observed port is a stage boundary. */
  predicate Ends(nodes: seq<StageNode>, island: set<nat>, i: nat)
    requires i < |nodes|
  {
    var domain := DomainOf(nodes, island, i);
    domain.Native? || (domain != Python && nodes[i].boundary)
  }

  predicate Cut(nodes: seq<StageNode>, island: set<nat>, i: nat)
    requires i + 1 < |nodes|
  {
    Ends(nodes, island, i) || DomainOf(nodes, island, i) != DomainOf(nodes, island, i + 1)
  }

  function Range(lo: nat, hi: nat): seq<nat>
    requires lo <= hi
  {
    seq(hi - lo, (k: nat) => lo + k)
  }

  /** `stages` partition the first n nodes, cut exactly where they must be cut. */
  ghost predicate Partition(nodes: seq<StageNode>, island: set<nat>, stages: seq<Stage>, n: nat)
    requires n <= |nodes|
    decreases |stages|
  {
    if stages == [] then n == 0
    else
      var last := stages[|stages| - 1];
      && last.nodes != [] && last.nodes[0] < n && last.nodes == Range(last.nodes[0], n)
      && last.domain == DomainOf(nodes, island, last.nodes[0])
      && NoCut(nodes, island, last.nodes[0], n) && (last.nodes[0] > 0 ==> Cut(nodes, island, last.nodes[0] - 1))
      && Partition(nodes, island, stages[..|stages| - 1], last.nodes[0])
  }

  ghost predicate NoCut(nodes: seq<StageNode>, island: set<nat>, lo: nat, hi: nat)
    requires lo <= hi <= |nodes|
  {
    forall i :: lo <= i && i + 1 < hi ==> !Cut(nodes, island, i)
  }

  function Concatenated(stages: seq<Stage>): seq<nat>
    decreases |stages|
  {
    if stages == [] then [] else Concatenated(stages[..|stages| - 1]) + stages[|stages| - 1].nodes
  }

  lemma RangeConcat(lo: nat, mid: nat, hi: nat)
    requires lo <= mid <= hi
    ensures Range(lo, mid) + Range(mid, hi) == Range(lo, hi)
  {
  }

  /** Read one after the other, the stages are the node list. */
  lemma {:induction false} StagesAreTheNodes(nodes: seq<StageNode>, island: set<nat>, stages: seq<Stage>, n: nat)
    requires n <= |nodes| && Partition(nodes, island, stages, n)
    ensures Concatenated(stages) == Range(0, n)
    decreases |stages|
  {
    if stages != [] {
      var lo := stages[|stages| - 1].nodes[0];
      StagesAreTheNodes(nodes, island, stages[..|stages| - 1], lo);
      RangeConcat(0, lo, n);
    }
  }

  lemma {:induction false} StageOf(nodes: seq<StageNode>, island: set<nat>, stages: seq<Stage>, n: nat, k: nat)
    requires n <= |nodes| && Partition(nodes, island, stages, n) && k < |stages|
    ensures stages[k].nodes != [] && stages[k].nodes[0] < |nodes|
    ensures stages[k].domain == DomainOf(nodes, island, stages[k].nodes[0])
    ensures k + 1 < |stages| ==> stages[k + 1].nodes != [] && var cut := stages[k + 1].nodes[0];
              stages[k].nodes[0] < cut < |nodes| && Cut(nodes, island, cut - 1) &&
                stages[k].nodes == Range(stages[k].nodes[0], cut) && NoCut(nodes, island, stages[k].nodes[0], cut)
    decreases |stages|
  {
    var last := |stages| - 1;
    if k < last {
      StageOf(nodes, island, stages[..last], stages[last].nodes[0], k);
      if k + 1 == last {
        assert stages[..last][|stages[..last]| - 1] == stages[k];
      }
    }
  }

  /** Every node of a stage has the domain of the stage. */
  lemma {:induction false} OneDomain(nodes: seq<StageNode>, island: set<nat>, lo: nat, hi: nat, i: nat)
    requires lo <= i < hi <= |nodes| && NoCut(nodes, island, lo, hi)
    ensures DomainOf(nodes, island, i) == DomainOf(nodes, island, lo)
    decreases i
  {
    if lo < i {
      OneDomain(nodes, island, lo, hi, i - 1);
      assert !Cut(nodes, island, i - 1);
    }
  }

  lemma {:induction false} StageRange(
      nodes: seq<StageNode>, island: set<nat>, stages: seq<Stage>, n: nat, k: nat) returns (lo: nat, hi: nat)
    requires n <= |nodes| && Partition(nodes, island, stages, n) && k < |stages|
    ensures lo < hi <= n && stages[k].nodes == Range(lo, hi) && NoCut(nodes, island, lo, hi)
    ensures stages[k].domain == DomainOf(nodes, island, lo)
    ensures if k + 1 == |stages| then hi == n
            else hi < n && stages[k + 1].nodes != [] && stages[k + 1].nodes[0] == hi && Cut(nodes, island, hi - 1)
    decreases |stages|
  {
    var last := |stages| - 1;
    var from := stages[last].nodes[0];
    if k == last {
      lo, hi := from, n;
    } else {
      lo, hi := StageRange(nodes, island, stages[..last], from, k);
    }
  }

  /** Where a stage must end, in terms of the graph: at a native MAP, and outside the islands
      at an observed node. */
  lemma EndsMeans(nodes: seq<StageNode>, island: set<nat>, i: nat)
    requires Islands(nodes, island) && i < |nodes|
    ensures Ends(nodes, island, i) <==>
            (nodes[i].kind == MAP && nodes[i].backend != "python") || (i !in island && nodes[i].boundary)
  {
    if nodes[i].kind == MAP { assert NativeMap(nodes[i]) || PythonSeed(nodes[i]); }
  }

  /** A native MAP is a domain of its own, and nothing joins it. */
  lemma EndsStage(nodes: seq<StageNode>, island: set<nat>, lo: nat, hi: nat, i: nat)
    requires lo <= i < hi <= |nodes| && NoCut(nodes, island, lo, hi)
    ensures Ends(nodes, island, i) ==> i == hi - 1
    ensures DomainOf(nodes, island, i).Native? ==> i == lo == hi - 1
  {
    if i + 1 < hi { assert !Cut(nodes, island, i); }
    if lo < i {
      OneDomain(nodes, island, lo, hi, i);
      OneDomain(nodes, island, lo, hi, i - 1);
      assert !Cut(nodes, island, i - 1);
    }
  }

  /** What a stage is, node by node: a native MAP stands alone in its stage; outside the
      islands a stage ends with an observed node; and the kind of a node, or its island,
      decides the domain. */
  lemma StageOfNode(nodes: seq<StageNode>, island: set<nat>, stages: seq<Stage>, k: nat, i: nat)
    requires Islands(nodes, island) && Partition(nodes, island, stages, |nodes|)
    requires k < |stages| && i in stages[k].nodes
    ensures i < |nodes|
    ensures nodes[i].kind == MAP && nodes[i].backend != "python" ==> stages[k].nodes == [i]
    ensures i !in island && nodes[i].boundary ==> stages[k].nodes[|stages[k].nodes| - 1] == i
    ensures stages[k].domain ==
            if i in island then Python
            else match nodes[i].kind
              case SOURCE => PythonSource
              case MAP => Native(nodes[i].backend)
              case _ => Opcode
  {
    var lo, hi := StageRange(nodes, island, stages, |nodes|, k);
    var at :| 0 <= at < |stages[k].nodes| && stages[k].nodes[at] == i;
    assert i == lo + at < hi;
    OneDomain(nodes, island, lo, hi, i);
    EndsMeans(nodes, island, i);
    EndsStage(nodes, island, lo, hi, i);
    if lo == hi - 1 { assert Range(lo, hi) == [i]; }
  }

  /** Two stages meet only where they must: at a native MAP, behind an observed node outside
      the islands, at the edge of an island, or between a SOURCE and another node. */
  lemma StagesMeet(nodes: seq<StageNode>, island: set<nat>, stages: seq<Stage>, k: nat)
    requires Islands(nodes, island) && Partition(nodes, island, stages, |nodes|) && k + 1 < |stages|
    ensures stages[k].nodes != [] && stages[k + 1].nodes != []
    ensures var a, b := stages[k].nodes[|stages[k].nodes| - 1], stages[k + 1].nodes[0];
            && b == a + 1 && b < |nodes|
            && (|| (nodes[a].kind == MAP && nodes[a].backend != "python")
                || (nodes[b].kind == MAP && nodes[b].backend != "python")
                || (a !in island && nodes[a].boundary)
                || (a in island <==> b !in island)
                || (nodes[a].kind == SOURCE <==> nodes[b].kind != SOURCE))
  {
    var lo, hi := StageRange(nodes, island, stages, |nodes|, k);
    var a, b := hi - 1, hi;
    assert stages[k].nodes[hi - lo - 1] == a;
    assert DomainOf(nodes, island, a).Native? ==> nodes[a].kind == MAP && nodes[a].backend != "python" by {
      if nodes[a].kind == MAP && nodes[a].backend == "python" { assert PythonSeed(nodes[a]); }
    }
    assert DomainOf(nodes, island, b).Native? ==> nodes[b].kind == MAP && nodes[b].backend != "python" by {
      if nodes[b].kind == MAP && nodes[b].backend == "python" { assert PythonSeed(nodes[b]); }
    }
  }

  /** Islands are maximal: no two consecutive stages are Python. */
  lemma NoConsecutivePythonStages(nodes: seq<StageNode>, island: set<nat>, stages: seq<Stage>, k: nat)
    requires Partition(nodes, island, stages, |nodes|) && k + 1 < |stages|
    ensures stages[k].domain != Python || stages[k + 1].domain != Python
  {
    StageOf(nodes, island, stages, |nodes|, k);
    StageOf(nodes, island, stages, |nodes|, k + 1);
    var lo, cut := stages[k].nodes[0], stages[k + 1].nodes[0];
    OneDomain(nodes, island, lo, cut, cut - 1);
  }

  lemma PartitionGrows(nodes: seq<StageNode>, island: set<nat>, stages: seq<Stage>, lo: nat, k: nat, domain: Domain)
    requires lo < k <= |nodes| && Partition(nodes, island, stages, lo) && NoCut(nodes, island, lo, k)
    requires domain == DomainOf(nodes, island, lo) && (lo > 0 ==> Cut(nodes, island, lo - 1))
    ensures Partition(nodes, island, stages + [Stage(Range(lo, k), domain)], k)
  {
    assert (stages + [Stage(Range(lo, k), domain)])[..|stages|] == stages;
  }

  lemma RangeSnoc(lo: nat, k: nat)
    requires lo <= k
    ensures Range(lo, k) + [k] == Range(lo, k + 1)
  {
  }

  /** Finished stages up to node lo, and a stage under way with the nodes lo, ..., k - 1. */
  ghost predicate StageFrom(
      nodes: seq<StageNode>, island: set<nat>, stages: seq<Stage>, lo: nat, k: nat, pending: seq<nat>, domain: Domain)
    requires k <= |nodes|
  {
    && lo <= k && pending == Range(lo, k) && Partition(nodes, island, stages, lo) && NoCut(nodes, island, lo, k)
    && (0 < lo < |nodes| ==> if lo < k then Cut(nodes, island, lo - 1) else Ends(nodes, island, lo - 1))
    && (lo < k ==> domain == DomainOf(nodes, island, lo) == DomainOf(nodes, island, k - 1))
    && (lo < k ==> !Ends(nodes, island, k - 1))
  }

  /** Before node k. */
  ghost predicate UnderWay(
      nodes: seq<StageNode>, island: set<nat>, stages: seq<Stage>, k: nat, pending: seq<nat>, domain: Domain)
    requires k <= |nodes|
  {
    |pending| <= k && StageFrom(nodes, island, stages, k - |pending|, k, pending, domain)
  }

  lemma Finished(nodes: seq<StageNode>, island: set<nat>, stages: seq<Stage>, k: nat, pending: seq<nat>, domain: Domain)
    requires k <= |nodes| && UnderWay(nodes, island, stages, k, pending, domain) && pending != []
    ensures Partition(nodes, island, stages + [Stage(pending, domain)], k)
  {
    PartitionGrows(nodes, island, stages, k - |pending|, k, domain);
  }

  /** What node k leaves behind when its stage, from lo on, holds it: the stage under
      way, or one more finished stage. */
  ghost predicate After(
      nodes: seq<StageNode>, island: set<nat>, stages: seq<Stage>, k: nat, pending: seq<nat>, all: seq<Stage>,
      now: seq<nat>)
    requires k < |nodes|
  {
    if Ends(nodes, island, k) then now == [] && all == stages + [Stage(pending + [k], DomainOf(nodes, island, k))]
    else now == pending + [k] && all == stages
  }

  /** Node k joins a stage that starts at lo. */
  lemma Joined(
      nodes: seq<StageNode>, island: set<nat>, stages: seq<Stage>, lo: nat, k: nat, pending: seq<nat>, all: seq<Stage>,
      now: seq<nat>)
    requires lo <= k < |nodes| && pending == Range(lo, k) && Partition(nodes, island, stages, lo)
    requires NoCut(nodes, island, lo, k + 1) && (lo > 0 ==> Cut(nodes, island, lo - 1))
    requires DomainOf(nodes, island, lo) == DomainOf(nodes, island, k) &&
             After(nodes, island, stages, k, pending, all, now)
    ensures UnderWay(nodes, island, all, k + 1, now, DomainOf(nodes, island, k))
  {
    RangeSnoc(lo, k);
    PartitionGrows(nodes, island, stages, lo, k + 1, DomainOf(nodes, island, k));
    if Ends(nodes, island, k) {
      assert StageFrom(nodes, island, all, k + 1, k + 1, now, DomainOf(nodes, island, k));
    } else {
      assert StageFrom(nodes, island, all, lo, k + 1, now, DomainOf(nodes, island, k));
    }
  }

  /** Node k continues the stage under way, or starts one behind a cut. */
  lemma Placed(
      nodes: seq<StageNode>, island: set<nat>, stages: seq<Stage>, k: nat, pending: seq<nat>, domain: Domain,
      all: seq<Stage>, now: seq<nat>)
    requires k < |nodes| && UnderWay(nodes, island, stages, k, pending, domain)
    requires if pending != [] &&
             domain != DomainOf(nodes, island, k) then
               After(nodes, island, stages + [Stage(pending, domain)], k, [], all, now)
             else After(nodes, island, stages, k, pending, all, now)
    ensures UnderWay(nodes, island, all, k + 1, now, DomainOf(nodes, island, k))
  {
    if pending != [] && domain != DomainOf(nodes, island, k) {
      Finished(nodes, island, stages, k, pending, domain);
      assert [] == Range(k, k);
      Joined(nodes, island, stages + [Stage(pending, domain)], k, k, [], all, now);
    } else {
      Joined(nodes, island, stages, k - |pending|, k, pending, all, now);
    }
  }

  /** The loop body: a change of domain finishes the stage under way, and so do a
      native MAP and an observed port outside Python. */
  method AddNode(
      nodes: seq<StageNode>, island: set<nat>, stages: seq<Stage>, k: nat, pending: seq<nat>, pendingDomain: Domain)
    returns (all: seq<Stage>, now: seq<nat>, domain: Domain)
    requires k < |nodes| && UnderWay(nodes, island, stages, k, pending, pendingDomain)
    ensures UnderWay(nodes, island, all, k + 1, now, domain)
  {
    all, now := stages, pending;
    domain := DomainOf(nodes, island, k);
    if pending != [] && (domain.Native? || pendingDomain != domain) {
      all := all + [Stage(now, pendingDomain)];
      now := [];
    }
    now := now + [k];
    if domain.Native? || (domain != Python && nodes[k].boundary) {
      all := all + [Stage(now, domain)];
      now := [];
    }
    Placed(nodes, island, stages, k, pending, pendingDomain, all, now);
  }

  /** _stage_descriptors: the islands first, then one pass over the nodes. */
  method StageDescriptors(nodes: seq<StageNode>) returns (island: set<nat>, stages: seq<Stage>)
    requires Topological(nodes)
    ensures Islands(nodes, island) && Partition(nodes, island, stages, |nodes|)
  {
    island := PythonIslands(nodes);
    stages := [];
    var pending: seq<nat>, pendingDomain := [], Python;
    for k := 0 to |nodes|
      invariant UnderWay(nodes, island, stages, k, pending, pendingDomain)
    {
      stages, pending, pendingDomain := AddNode(nodes, island, stages, k, pending, pendingDomain);
    }
    if pending != [] {
      Finished(nodes, island, stages, |nodes|, pending, pendingDomain);
      stages := stages + [Stage(pending, pendingDomain)];
    }
  }
}
