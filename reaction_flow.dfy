/** The reaction map (components/ReactionFlowDiagram.tsx): the node and edge lists handed
    to the graph widget. A reactants node on the left, the intermediates in a row after it,
    each linked to the one before, and the products fanned out in one column, each linked
    from the last node of the chain. Styling, the widget itself and the 3D viewer are not
    modelled; a node carries the data its label shows. */
module ReactionFlow {
  import opened Types
  import opened Text

  const StartX: int := 50
  const YCenter: int := 100
  const XInterval: int := 250

  const ReactantsId: string := "reactants"
  const UnknownName: string := "Unknown"
  const ReactantFallbackName: string := "Reactant"

  /** One reactant chip of the reactants node: the shown name, the name and structure
      the 3D button opens, and whether a '+' follows it. */
  datatype Chip = Chip(caption: string, modalName: string, smiles: string, cid: Option<int>, plus: bool)

  datatype NodeData =
    | ReactantsData(chips: seq<Chip>)
    | IntermediateData(name: string, smiles: string, description: string)
    | ProductData(name: string, smiles: string, yieldEstimate: string)

  datatype Node = Node(id: string, x: int, y: int, data: NodeData)

  /** An edge; only product edges carry a label. */
  datatype Edge = Edge(id: string, source: string, target: string, caption: Option<string>)

  /** `a || b` on an optional string: a missing or empty string falls back. */
  function NameOr(name: Option<string>, fallback: string): (r: string)
    ensures r == fallback <==> name.None? || name.value == [] || name.value == fallback
    ensures r != fallback ==> name == Some(r)
  {
    if name.Some? && name.value != [] then name.value else fallback
  }

  function MakeChip(i: nat, n: nat, r: Molecule): Chip {
    Chip(NameOr(r.name, UnknownName), NameOr(r.name, ReactantFallbackName), r.smiles, r.cid, i + 1 < n)
  }

  /** The chips of the reactants node, one per reactant in order. */
  function Chips(reactants: seq<Molecule>): (chips: seq<Chip>)
    ensures |chips| == |reactants|
  {
    seq(|reactants|, i requires 0 <= i < |reactants| => MakeChip(i, |reactants|, reactants[i]))
  }

  function PlusCount(chips: seq<Chip>): (c: nat)
    ensures c <= |chips|
  {
    if chips == [] then 0 else (if chips[0].plus then 1 else 0) + PlusCount(chips[1..])
  }

  lemma {:induction false} PlusCountOfSuffix(reactants: seq<Molecule>, from: nat)
    requires from <= |reactants|
    ensures PlusCount(Chips(reactants)[from..]) == if from < |reactants| then |reactants| - from - 1 else 0
    decreases |reactants| - from
  {
    var chips := Chips(reactants);
    if from < |reactants| {
      PlusCountOfSuffix(reactants, from + 1);
      assert chips[from..][1..] == chips[from + 1..];
    }
  }

  /** One chip per reactant, in order, carrying its structure and cid for the 3D view;
      between n chips there are n - 1 separators, one after every chip but the last; a
      missing or empty name shows as 'Unknown'. */
  lemma ChipSeparators(reactants: seq<Molecule>)
    ensures reactants != [] ==> PlusCount(Chips(reactants)) == |reactants| - 1
    ensures forall i | 0 <= i < |reactants| ::
      && Chips(reactants)[i].smiles == reactants[i].smiles
      && Chips(reactants)[i].cid == reactants[i].cid
      && (Chips(reactants)[i].plus <==> i < |reactants| - 1)
      && (Chips(reactants)[i].caption == UnknownName <==>
            reactants[i].name.None? || reactants[i].name.value in {[], UnknownName})
  {
    PlusCountOfSuffix(reactants, 0);
    assert Chips(reactants)[0..] == Chips(reactants);
  }

  function IntermediateId(i: nat): string { "intermediate-" + NatToString(i) }

  function ProductId(i: nat): string { "product-" + NatToString(i) }

  function EdgeId(source: string, target: string): string { "e-" + source + "-" + target }

  /** The label of every product edge: the energy trend's name in upper case. */
  function TrendLabel(t: EnergyTrend): string {
    match t
    case Exothermic => "EXOTHERMIC"
    case Endothermic => "ENDOTHERMIC"
    case Neutral => "NEUTRAL"
  }

  /** The label is what toUpperCase makes of the trend's name: the same length, each
      letter upper-cased. */
  lemma TrendLabelIsUpperCase(t: EnergyTrend)
    ensures |TrendLabel(t)| == |EnergyTrendName(t)|
    ensures forall i | 0 <= i < |TrendLabel(t)| :: TrendLabel(t)[i] == UpperChar(EnergyTrendName(t)[i])
  {
  }

  /** The intermediates drawn: none when the list is absent (or empty). */
  function Steps(result: ReactionSimulationResult): seq<Intermediate> {
    result.intermediates.GetOr([])
  }

  function ReactantsNode(reactants: seq<Molecule>): Node {
    Node(ReactantsId, StartX, YCenter, ReactantsData(Chips(reactants)))
  }

  function IntermediateNode(i: nat, step: Intermediate): Node {
    Node(IntermediateId(i), StartX + 250 * (i + 1), YCenter,
         IntermediateData(step.name, step.smiles, step.description))
  }

  /** Product i of n, after k intermediates. */
  function ProductNode(i: nat, n: nat, k: nat, p: PredictedChemical): Node {
    Node(ProductId(i), StartX + 250 * (k + 1), YCenter + 100 * i - 50 * (n - 1),
         ProductData(p.name, p.smiles, p.yieldEstimate))
  }

  /** The node the chain has reached after i intermediates. */
  function ChainEnd(i: nat): string {
    if i == 0 then ReactantsId else IntermediateId(i - 1)
  }

  function IntermediateEdge(i: nat): Edge {
    Edge(EdgeId(ChainEnd(i), IntermediateId(i)), ChainEnd(i), IntermediateId(i), None)
  }

  function ProductEdge(i: nat, k: nat, t: EnergyTrend): Edge {
    Edge(EdgeId(ChainEnd(k), ProductId(i)), ChainEnd(k), ProductId(i), Some(TrendLabel(t)))
  }

  /** The nodes of the first i intermediates, in order. */
  function ChainNodes(steps: seq<Intermediate>, i: nat): (r: seq<Node>)
    requires i <= |steps|
    ensures |r| == i
    ensures forall j | 0 <= j < i :: r[j] == IntermediateNode(j, steps[j])
  {
    if i == 0 then [] else ChainNodes(steps, i - 1) + [IntermediateNode(i - 1, steps[i - 1])]
  }

  /** The edges into the first i intermediates, in order. */
  function ChainEdges(i: nat): (r: seq<Edge>)
    ensures |r| == i
    ensures forall j | 0 <= j < i :: r[j] == IntermediateEdge(j)
  {
    if i == 0 then [] else ChainEdges(i - 1) + [IntermediateEdge(i - 1)]
  }

  /** The nodes of the first i of the products, after k intermediates. */
  function FanNodes(products: seq<PredictedChemical>, k: nat, i: nat): (r: seq<Node>)
    requires i <= |products|
    ensures |r| == i
    ensures forall j | 0 <= j < i :: r[j] == ProductNode(j, |products|, k, products[j])
  {
    if i == 0 then [] else FanNodes(products, k, i - 1) + [ProductNode(i - 1, |products|, k, products[i - 1])]
  }

  /** The edges into the first i products, after k intermediates. */
  function FanEdges(k: nat, t: EnergyTrend, i: nat): (r: seq<Edge>)
    ensures |r| == i
    ensures forall j | 0 <= j < i :: r[j] == ProductEdge(j, k, t)
  {
    if i == 0 then [] else FanEdges(k, t, i - 1) + [ProductEdge(i - 1, k, t)]
  }

  /** The node list: the reactants, then the intermediates, then the products. */
  function DiagramNodes(reactants: seq<Molecule>, result: ReactionSimulationResult): (nodes: seq<Node>)
    ensures |nodes| == 1 + |Steps(result)| + |result.products|
  {
    var steps := Steps(result);
    [ReactantsNode(reactants)] + ChainNodes(steps, |steps|) + FanNodes(result.products, |steps|, |result.products|)
  }

  /** The edge list: the chain edges, then one edge per product. */
  function DiagramEdges(result: ReactionSimulationResult): (edges: seq<Edge>)
    ensures |edges| == |Steps(result)| + |result.products|
  {
    var k := |Steps(result)|;
    ChainEdges(k) + FanEdges(k, result.energyTrend, |result.products|)
  }

  /** The useMemo builder: pushes the reactants node, walks the intermediates moving the
      chain's end and the x coordinate along, then fans the products out from where the
      chain ended. */
  method BuildDiagram(reactants: seq<Molecule>, result: ReactionSimulationResult)
    returns (nodes: seq<Node>, edges: seq<Edge>)
    ensures nodes == DiagramNodes(reactants, result)
    ensures edges == DiagramEdges(result)
  {
    var steps := Steps(result);
    nodes := [Node(ReactantsId, StartX, YCenter, ReactantsData(Chips(reactants)))];
    edges := [];
    var lastNodeId := ReactantsId;
    var currentX := StartX + XInterval;
    if result.intermediates.Some? && |result.intermediates.value| > 0 {
      nodes, edges, lastNodeId, currentX := LayChain(steps, nodes);
    }
    nodes, edges := FanOut(nodes, edges, result.products, |steps|, lastNodeId, currentX, result.energyTrend);
  }

  /** The intermediates loop of the builder, from the reactants node onwards. */
  method LayChain(steps: seq<Intermediate>, start: seq<Node>)
    returns (nodes: seq<Node>, edges: seq<Edge>, lastNodeId: string, currentX: int)
    ensures nodes == start + ChainNodes(steps, |steps|)
    ensures edges == ChainEdges(|steps|)
    ensures lastNodeId == ChainEnd(|steps|)
    ensures currentX == StartX + 250 * (|steps| + 1)
  {
    nodes, edges := start, [];
    lastNodeId := ReactantsId;
    currentX := StartX + XInterval;
    var index := 0;
    while index < |steps|
      invariant 0 <= index <= |steps|
      invariant nodes == start + ChainNodes(steps, index)
      invariant edges == ChainEdges(index)
      invariant lastNodeId == ChainEnd(index)
      invariant currentX == StartX + 250 * (index + 1)
    {
      var id := IntermediateId(index);
      var step := steps[index];
      var node := Node(id, currentX, YCenter, IntermediateData(step.name, step.smiles, step.description));
      var edge := Edge(EdgeId(lastNodeId, id), lastNodeId, id, None);
      assert node == IntermediateNode(index, step);
      assert edge == IntermediateEdge(index);
      assert start + ChainNodes(steps, index) + [node] == start + (ChainNodes(steps, index) + [node]);
      nodes := nodes + [node];
      edges := edges + [edge];
      lastNodeId := id;
      currentX := currentX + XInterval;
      index := index + 1;
    }
  }

  /** The products loop of the builder: every product hangs off the chain's end, in the
      column the chain reached. */
  method FanOut(start: seq<Node>, startEdges: seq<Edge>, products: seq<PredictedChemical>, k: nat,
                lastNodeId: string, currentX: int, trend: EnergyTrend)
    returns (nodes: seq<Node>, edges: seq<Edge>)
    requires lastNodeId == ChainEnd(k) && currentX == StartX + 250 * (k + 1)
    ensures nodes == start + FanNodes(products, k, |products|)
    ensures edges == startEdges + FanEdges(k, trend, |products|)
  {
    nodes, edges := start, startEdges;
    var n := |products|;
    var index := 0;
    while index < n
      invariant 0 <= index <= n
      invariant nodes == start + FanNodes(products, k, index)
      invariant edges == startEdges + FanEdges(k, trend, index)
    {
      var id := ProductId(index);
      var p := products[index];
      var node := Node(id, currentX, YCenter + index * 100 - (n - 1) * 50, ProductData(p.name, p.smiles, p.yieldEstimate));
      var edge := Edge(EdgeId(lastNodeId, id), lastNodeId, id, Some(TrendLabel(trend)));
      assert start + FanNodes(products, k, index) + [node] == start + (FanNodes(products, k, index) + [node]);
      assert startEdges + FanEdges(k, trend, index) + [edge] == startEdges + (FanEdges(k, trend, index) + [edge]);
      nodes := nodes + [node];
      edges := edges + [edge];
      index := index + 1;
    }
  }

  /** The first node is the reactants node at (50, 100); intermediate i sits at
      x = 300 + 250 i on the centre line; every product sits in the column after the
      last intermediate, product i at y = 100 + 100 i - 50 (n - 1). */
  lemma NodePositions(reactants: seq<Molecule>, result: ReactionSimulationResult)
    ensures var nodes, k, n := DiagramNodes(reactants, result), |Steps(result)|, |result.products|;
      && nodes[0].id == ReactantsId && nodes[0].x == 50 && nodes[0].y == 100
      && (forall i | 0 <= i < k :: nodes[1 + i].x == 300 + 250 * i && nodes[1 + i].y == 100)
      && (forall i | 0 <= i < n ::
            nodes[1 + k + i].x == 50 + 250 * (k + 1) && nodes[1 + k + i].y == 100 + 100 * i - 50 * (n - 1))
  {
  }

  /** The chain runs left to right and the product column is right of every other node. */
  lemma ChainRunsRight(reactants: seq<Molecule>, result: ReactionSimulationResult)
    ensures var nodes, k := DiagramNodes(reactants, result), |Steps(result)|;
      forall i, j | 0 <= i < j < |nodes| && i <= k :: nodes[i].x < nodes[j].x
  {
    var nodes, k, n := DiagramNodes(reactants, result), |Steps(result)|, |result.products|;
    forall i, j | 0 <= i < j < |nodes| && i <= k ensures nodes[i].x < nodes[j].x {
      assert nodes[i].x == StartX + 250 * i;
      assert nodes[j].x == StartX + 250 * (if j <= k then j else k + 1);
    }
  }

  /** The products are stacked 100 apart and placed symmetrically about the centre line:
      product i and product n - 1 - i are equally far above and below it. */
  lemma ProductsSymmetric(reactants: seq<Molecule>, result: ReactionSimulationResult)
    ensures var nodes, k, n := DiagramNodes(reactants, result), |Steps(result)|, |result.products|;
      && (forall a, b | 1 + k <= a < |nodes| && 1 + k <= b < |nodes| && (a - 1 - k) + (b - 1 - k) == n - 1 ::
            nodes[a].y + nodes[b].y == 2 * YCenter)
      && (forall a, b | 1 + k <= a < b < |nodes| :: nodes[b].y - nodes[a].y == 100 * (b - a))
  {
  }

  lemma IntermediateIdInjective(a: nat, b: nat)
    requires IntermediateId(a) == IntermediateId(b)
    ensures a == b
  {
    var p := "intermediate-";
    assert IntermediateId(a)[|p|..] == NatToString(a);
    assert IntermediateId(b)[|p|..] == NatToString(b);
    NatToStringInjective(a, b);
  }

  lemma ProductIdInjective(a: nat, b: nat)
    requires ProductId(a) == ProductId(b)
    ensures a == b
  {
    var p := "product-";
    assert ProductId(a)[|p|..] == NatToString(a);
    assert ProductId(b)[|p|..] == NatToString(b);
    NatToStringInjective(a, b);
  }

  /** Which of the three groups a node id belongs to, read off its first character. */
  lemma IdHeads(i: nat, j: nat)
    ensures ReactantsId[0] == 'r' && IntermediateId(i)[0] == 'i' && ProductId(j)[0] == 'p'
  {
  }

  /** No two nodes share an id. */
  lemma {:induction false} NodeIdsDistinct(reactants: seq<Molecule>, result: ReactionSimulationResult)
    ensures var nodes := DiagramNodes(reactants, result);
      forall i, j | 0 <= i < j < |nodes| :: nodes[i].id != nodes[j].id
  {
    var nodes, k := DiagramNodes(reactants, result), |Steps(result)|;
    forall i, j | 0 <= i < j < |nodes| ensures nodes[i].id != nodes[j].id {
      if i == 0 {
        IdHeads(if 1 <= j <= k then j - 1 else 0, if j > k then j - 1 - k else 0);
      } else if j <= k {
        if nodes[i].id == nodes[j].id {
          IntermediateIdInjective(i - 1, j - 1);
        }
      } else if i <= k {
        IdHeads(i - 1, j - 1 - k);
      } else {
        if nodes[i].id == nodes[j].id {
          ProductIdInjective(i - 1 - k, j - 1 - k);
        }
      }
    }
  }

  /** Edge i ends at node i + 1, so every node but the reactants has exactly one incoming
      edge; it starts at node i along the chain and at the chain's last node for every
      product; its id is "e-<source>-<target>"; only product edges carry a label, the
      energy trend in upper case. */
  lemma EdgesFollowChain(reactants: seq<Molecule>, result: ReactionSimulationResult)
    ensures var nodes, edges, k := DiagramNodes(reactants, result), DiagramEdges(result), |Steps(result)|;
      forall i | 0 <= i < |edges| ::
        && edges[i].target == nodes[i + 1].id
        && edges[i].source == nodes[if i < k then i else k].id
        && edges[i].id == "e-" + edges[i].source + "-" + edges[i].target
        && (edges[i].caption.Some? <==> i >= k)
        && (i >= k ==> edges[i].caption == Some(TrendLabel(result.energyTrend)))
  {
    var nodes, edges, k := DiagramNodes(reactants, result), DiagramEdges(result), |Steps(result)|;
    forall i | 0 <= i < |edges|
      ensures edges[i].source == nodes[if i < k then i else k].id
    {
      var s := if i < k then i else k;
      assert edges[i].source == ChainEnd(s);
    }
  }
}
