/**
 * The ontology graph builder (`part_1` of mondo_utils.py): from the parsed ontology document it
 * registers the MONDO disease nodes under their short ids, links them along `is_a` edges in
 * both directions and lists the roots.
 */
module Ontology {
  import opened Wrappers
  import opened Text
  import opened Ordering

  const MONDO_PREFIX := "http://purl.obolibrary.org/obo/MONDO_"
  const IS_A := "is_a"

  /** An entry of a graph's `nodes` list: `id`, `lbl` and the `val`s of `meta.basicPropertyValues`
      and `meta.xrefs` (a missing `val` reads as the empty string). */
  datatype RawNode = RawNode(id: Option<string>, lbl: Option<string>, propertyValues: seq<string>, xrefValues: seq<string>)

  /** An entry of a graph's `edges` list. */
  datatype RawEdge = RawEdge(pred: Option<string>, sub: Option<string>, obj: Option<string>)

  /** An entry of the document's `graphs` list; `None` is a missing key. */
  datatype Graph = Graph(nodes: Option<seq<RawNode>>, edges: Option<seq<RawEdge>>)

  /** The parsed JSON document. */
  datatype Document = Document(graphs: Option<seq<Graph>>)

  /** Why loading stops: `NoNodesFound` is `part_1` returning `None`; the others are the
      exceptions Python raises. */
  datatype Failure = NoNodesFound | IndexError | KeyError(key: string)

  /** A registered disease node; `name` is its `label` entry. Python turns the two sets into
      lists of arbitrary order. */
  datatype DiseaseNode = DiseaseNode(id: string, name: Option<string>, superClasses: set<string>, subClasses: set<string>)

  /** The dictionary `part_1` returns. */
  datatype OntologyTree = OntologyTree(nodes: map<string, DiseaseNode>, roots: seq<string>)

  /** A URL that is present and lies in the MONDO namespace. */
  predicate InNamespace(url: Option<string>)
  {
    url.Some? && StartsWith(url.value, MONDO_PREFIX)
  }

  /** The raw node `n` is registered under the short id `k`. */
  predicate Registers(n: RawNode, k: string)
  {
    InNamespace(n.id) && LastSegment(n.id.value) == k
  }

  /** The raw edge `e` is an `is_a` link from the node keyed `s` to the node keyed `o`. */
  predicate IsALink(e: RawEdge, s: string, o: string)
  {
    e.pred == Some(IS_A) && InNamespace(e.sub) && InNamespace(e.obj)
    && LastSegment(e.sub.value) == s && LastSegment(e.obj.value) == o
  }

  ghost predicate Links(edges: seq<RawEdge>, s: string, o: string)
  {
    exists i :: 0 <= i < |edges| && IsALink(edges[i], s, o)
  }

  /** The registered nodes that some edge makes parents of `s`. */
  ghost function Targets(reg: map<string, DiseaseNode>, edges: seq<RawEdge>, s: string): set<string>
  {
    set o | o in reg && Links(edges, s, o)
  }

  /** The registered nodes that some edge makes children of `o`. */
  ghost function Sources(reg: map<string, DiseaseNode>, edges: seq<RawEdge>, o: string): set<string>
  {
    set s | s in reg && Links(edges, s, o)
  }

  /** `data.get("graphs", [{}])[0]` */
  function FirstGraph(doc: Document): (r: Result<Graph, Failure>)
    ensures r.Err? <==> doc.graphs == Some([])
  {
    match doc.graphs
    case None => Ok(Graph(None, None))
    case Some(gs) => if gs == [] then Err(IndexError) else Ok(gs[0])
  }

  /** Every node is stored under its own id. */
  ghost predicate KeyedById(m: map<string, DiseaseNode>)
  {
    forall k :: k in m ==> m[k].id == k
  }

  /** B is a parent of A exactly when A is a child of B. */
  ghost predicate Mirrored(m: map<string, DiseaseNode>)
  {
    forall a, b :: a in m && b in m ==> (b in m[a].superClasses <==> a in m[b].subClasses)
  }

  /** Links never point outside the registry. */
  ghost predicate Closed(m: map<string, DiseaseNode>)
  {
    forall k :: k in m ==> m[k].superClasses <= m.Keys && m[k].subClasses <= m.Keys
  }

  /**
   * The registry holds one entry per short id of a MONDO node of `nodes`, stored under that
   * id and carrying the label of the last such node (a later node with the same short id
   * replaces an earlier one).
   */
  ghost predicate EntriesFrom(m: map<string, DiseaseNode>, nodes: seq<RawNode>)
  {
    && KeyedById(m)
    && (forall k :: k in m <==> exists i :: 0 <= i < |nodes| && Registers(nodes[i], k))
    && (forall k :: k in m ==> exists i :: LastWriter(nodes, k, i) && m[k].name == nodes[i].lbl)
  }

  /** `nodes[i]` is the last raw node registered under `k`. */
  ghost predicate LastWriter(nodes: seq<RawNode>, k: string, i: int)
  {
    0 <= i < |nodes| && Registers(nodes[i], k) && forall j :: i < j < |nodes| ==> !Registers(nodes[j], k)
  }

  /** No node has parents or children yet. */
  ghost predicate Unlinked(m: map<string, DiseaseNode>)
  {
    forall k :: k in m ==> m[k].superClasses == {} && m[k].subClasses == {}
  }

  /** The parents and children of every node are exactly those the `is_a` edges give. */
  ghost predicate LinkedBy(m: map<string, DiseaseNode>, edges: seq<RawEdge>)
  {
    forall k :: k in m ==> m[k].superClasses == Targets(m, edges, k) && m[k].subClasses == Sources(m, edges, k)
  }

  /** `roots` lists, once each, exactly the nodes without parents. */
  ghost predicate RootsOf(roots: seq<string>, m: map<string, DiseaseNode>)
  {
    Distinct(roots) && forall k :: k in roots <==> k in m && m[k].superClasses == {}
  }

  /** What the first loop of `part_1` leaves in `disease_nodes` after the raw nodes `nodes`. */
  ghost function Registry(nodes: seq<RawNode>): map<string, DiseaseNode>
  {
    if nodes == [] then map[]
    else
      var n := nodes[|nodes| - 1];
      var m := Registry(nodes[..|nodes| - 1]);
      if InNamespace(n.id) then m[LastSegment(n.id.value) := DiseaseNode(LastSegment(n.id.value), n.lbl, {}, {})]
      else m
  }

  /** The short ids of the MONDO nodes of `nodes`, once each, in the order the nodes first
      register them: the insertion order of `disease_nodes`. */
  ghost function FirstOrder(nodes: seq<RawNode>): seq<string>
  {
    if nodes == [] then []
    else
      var n := nodes[|nodes| - 1];
      var o := FirstOrder(nodes[..|nodes| - 1]);
      if InNamespace(n.id) && LastSegment(n.id.value) !in o then o + [LastSegment(n.id.value)] else o
  }

  /** `nodes[i]` is the first raw node registered under `k`. */
  ghost predicate FirstWriter(nodes: seq<RawNode>, k: string, i: int)
  {
    0 <= i < |nodes| && Registers(nodes[i], k) && forall j :: 0 <= j < i ==> !Registers(nodes[j], k)
  }

  /** `x` occurs before `y` in `s`. */
  ghost predicate Before(s: seq<string>, x: string, y: string)
  {
    exists i, j :: 0 <= i < j < |s| && s[i] == x && s[j] == y
  }

  /** One pass of the edge loop of `part_1`. */
  ghost function LinkEdge(m: map<string, DiseaseNode>, e: RawEdge): map<string, DiseaseNode>
  {
    if e.pred == Some(IS_A) && InNamespace(e.sub) && InNamespace(e.obj)
       && LastSegment(e.sub.value) in m && LastSegment(e.obj.value) in m
    then
      var s, o := LastSegment(e.sub.value), LastSegment(e.obj.value);
      var m1 := m[s := m[s].(superClasses := m[s].superClasses + {o})];
      m1[o := m1[o].(subClasses := m1[o].subClasses + {s})]
    else m
  }

  /** What the edge loop of `part_1` leaves in `disease_nodes` after the edges `edges`. */
  ghost function LinkEdges(m: map<string, DiseaseNode>, edges: seq<RawEdge>): map<string, DiseaseNode>
  {
    if edges == [] then m else LinkEdge(LinkEdges(m, edges[..|edges| - 1]), edges[|edges| - 1])
  }

  /**
   * The first loop of `part_1`: the MONDO nodes, keyed by the last segment of their URL, each
   * with its label and no links yet. `order` is the order in which the keys first appear.
   */
  method RegisterNodes(nodes: seq<RawNode>) returns (order: seq<string>, reg: map<string, DiseaseNode>)
    ensures reg == Registry(nodes)
    ensures EntriesFrom(reg, nodes) && Unlinked(reg)
    ensures Distinct(order) && forall k :: k in order <==> k in reg
    ensures order == FirstOrder(nodes)
  {
    order, reg := [], map[];
    for i := 0 to |nodes|
      invariant reg == Registry(nodes[..i])
      invariant order == FirstOrder(nodes[..i])
      invariant Distinct(order) && forall k :: k in order <==> k in reg
    {
      assert nodes[..i + 1][..i] == nodes[..i];
      var n := nodes[i];
      if n.id.Some? && StartsWith(n.id.value, MONDO_PREFIX) {
        var shortId := LastSegment(n.id.value);
        if shortId !in reg {
          order := order + [shortId];
        }
        reg := reg[shortId := DiseaseNode(shortId, n.lbl, {}, {})];
      }
    }
    assert nodes[..|nodes|] == nodes;
    RegistryKeys(nodes);
    RegistryShape(nodes);
    RegistryLabels(nodes);
  }

  /** The edge loop of `part_1`: every accepted `is_a` edge adds a mirrored pair of links. */
  method LinkIsA(reg: map<string, DiseaseNode>, edges: seq<RawEdge>) returns (linked: map<string, DiseaseNode>)
    ensures linked == LinkEdges(reg, edges)
  {
    linked := reg;
    for i := 0 to |edges|
      invariant linked == LinkEdges(reg, edges[..i])
    {
      assert edges[..i + 1][..i] == edges[..i];
      var e := edges[i];
      if e.pred == Some(IS_A) {
        var subUrl, objUrl := e.sub, e.obj;
        if subUrl.Some? && StartsWith(subUrl.value, MONDO_PREFIX) && objUrl.Some? && StartsWith(objUrl.value, MONDO_PREFIX) {
          var subId, objId := LastSegment(subUrl.value), LastSegment(objUrl.value);
          if subId in linked && objId in linked {
            linked := linked[subId := linked[subId].(superClasses := linked[subId].superClasses + {objId})];
            linked := linked[objId := linked[objId].(subClasses := linked[objId].subClasses + {subId})];
          }
        }
      }
    }
    assert edges[..|edges|] == edges;
  }

  /** The last loop of `part_1`: the keys, in dictionary order, of the nodes without parents. */
  method CollectRoots(order: seq<string>, linked: map<string, DiseaseNode>) returns (roots: seq<string>)
    requires Distinct(order) && forall k :: k in order <==> k in linked
    ensures RootsOf(roots, linked)
    ensures forall a, b :: 0 <= a < b < |roots| ==> Before(order, roots[a], roots[b])
  {
    roots := [];
    for i := 0 to |order|
      invariant Distinct(roots)
      invariant forall k :: k in roots <==> k in order[..i] && linked[k].superClasses == {}
      invariant forall a, b :: 0 <= a < b < |roots| ==> Before(order[..i], roots[a], roots[b])
    {
      var nodeId := order[i];
      assert nodeId !in order[..i];
      BeforeGrows(order, i);
      if linked[nodeId].superClasses == {} {
        forall a | 0 <= a < |roots| ensures Before(order[..i + 1], roots[a], nodeId) {
          assert roots[a] in order[..i];
          var x :| 0 <= x < i && order[..i][x] == roots[a];
          assert order[..i + 1][x] == roots[a] && order[..i + 1][i] == nodeId;
        }
        roots := roots + [nodeId];
      }
      assert order[..i + 1] == order[..i] + [nodeId];
    }
    assert order[..|order|] == order;
  }

  /** The nodes list of the first graph, `[]` when the key is missing. */
  function NodesOf(doc: Document): seq<RawNode>
    requires FirstGraph(doc).Ok?
  {
    FirstGraph(doc).value.nodes.GetOr([])
  }

  /** The edges list of the first graph, `[]` when the key is missing. */
  function EdgesOf(doc: Document): seq<RawEdge>
    requires FirstGraph(doc).Ok?
  {
    FirstGraph(doc).value.edges.GetOr([])
  }

  /**
   * `part_1` after the JSON load: fails with `IndexError` on an empty `graphs` list and with
   * `NoNodesFound` (Python's `None`) when the first graph has no nodes; otherwise the tree holds
   * the MONDO nodes, linked in both directions by exactly the accepted `is_a` edges, and the
   * list of its roots.
   */
  method BuildTree(doc: Document) returns (r: Result<OntologyTree, Failure>)
    ensures r == Err(IndexError) <==> doc.graphs == Some([])
    ensures r == Err(NoNodesFound) <==> FirstGraph(doc).Ok? && NodesOf(doc) == []
    ensures r.Err? ==> r.error == IndexError || r.error == NoNodesFound
    ensures r.Ok? ==>
      && FirstGraph(doc).Ok?
      && EntriesFrom(r.value.nodes, NodesOf(doc))
      && LinkedBy(r.value.nodes, EdgesOf(doc))
      && Mirrored(r.value.nodes) && Closed(r.value.nodes)
      && RootsOf(r.value.roots, r.value.nodes)
      && forall a, b :: 0 <= a < b < |r.value.roots| ==> Before(FirstOrder(NodesOf(doc)), r.value.roots[a], r.value.roots[b])
  {
    var graph := FirstGraph(doc);
    if graph.Err? {
      return Err(IndexError);
    }
    var nodes := graph.value.nodes.GetOr([]);
    var edges := graph.value.edges.GetOr([]);
    if nodes == [] {
      return Err(NoNodesFound);
    }
    var order, reg := RegisterNodes(nodes);
    var linked := LinkIsA(reg, edges);
    LinkEdgesExact(reg, edges);
    LinkedIsMirrored(linked, edges);
    EntriesKept(reg, linked, nodes);
    var roots := CollectRoots(order, linked);
    r := Ok(OntologyTree(linked, roots));
  }

  /** What occurs in order in a prefix of `s` occurs in order in a longer prefix. */
  lemma BeforeGrows(s: seq<string>, i: int)
    requires 0 <= i < |s|
    ensures forall x, y :: Before(s[..i], x, y) ==> Before(s[..i + 1], x, y)
  {
    forall x, y | Before(s[..i], x, y) ensures Before(s[..i + 1], x, y) {
      var a, b :| 0 <= a < b < i && s[..i][a] == x && s[..i][b] == y;
      assert s[..i + 1][a] == x && s[..i + 1][b] == y;
    }
  }

  /** The ids of `FirstOrder` are exactly the registered keys. */
  lemma {:induction false} FirstOrderKeys(nodes: seq<RawNode>)
    ensures forall k :: k in FirstOrder(nodes) <==> k in Registry(nodes)
  {
    if nodes != [] {
      FirstOrderKeys(nodes[..|nodes| - 1]);
    }
  }

  /** A key that some node registers has a first registering node. */
  lemma {:induction false} FirstWriterExists(nodes: seq<RawNode>, k: string, i: int)
    requires 0 <= i < |nodes| && Registers(nodes[i], k)
    ensures exists f :: FirstWriter(nodes, k, f)
    decreases i
  {
    if !FirstWriter(nodes, k, i) {
      var j :| 0 <= j < i && Registers(nodes[j], k);
      FirstWriterExists(nodes, k, j);
    }
  }

  /** Every id of `FirstOrder(nodes)` has a first registering node. */
  lemma FirstOrderWriter(nodes: seq<RawNode>, a: int)
    requires 0 <= a < |FirstOrder(nodes)|
    ensures exists i :: FirstWriter(nodes, FirstOrder(nodes)[a], i)
  {
    var k := FirstOrder(nodes)[a];
    FirstOrderKeys(nodes);
    RegistryKeys(nodes);
    assert k in Registry(nodes);
    var x :| 0 <= x < |nodes| && Registers(nodes[x], k);
    FirstWriterExists(nodes, k, x);
  }

  /** A key registered by the nodes before the last one is first registered among them. */
  lemma FirstWriterInPrefix(nodes: seq<RawNode>, k: string, i: int)
    requires nodes != [] && k in Registry(nodes[..|nodes| - 1]) && FirstWriter(nodes, k, i)
    ensures i < |nodes| - 1 && FirstWriter(nodes[..|nodes| - 1], k, i)
  {
    var p := nodes[..|nodes| - 1];
    RegistryKeys(p);
    var x :| 0 <= x < |p| && Registers(p[x], k);
    assert nodes[x] == p[x];
  }

  /** `FirstOrder` lists the ids in the order of their first registering nodes. */
  lemma {:induction false} FirstOrderAscending(nodes: seq<RawNode>)
    ensures forall a, b, i, j ::
      (0 <= a < b < |FirstOrder(nodes)|
       && FirstWriter(nodes, FirstOrder(nodes)[a], i) && FirstWriter(nodes, FirstOrder(nodes)[b], j)) ==> i < j
  {
    if nodes != [] {
      var p := nodes[..|nodes| - 1];
      var o, op := FirstOrder(nodes), FirstOrder(p);
      FirstOrderAscending(p);
      FirstOrderKeys(p);
      forall a, b, i, j | 0 <= a < b < |o| && FirstWriter(nodes, o[a], i) && FirstWriter(nodes, o[b], j)
        ensures i < j
      {
        FirstWriterInPrefix(nodes, o[a], i);
        if b < |op| {
          FirstWriterInPrefix(nodes, o[b], j);
        } else if j < |p| {
          assert Registers(p[j], o[b]);
          RegistryKeys(p);
          assert false;
        }
      }
    }
  }

  lemma {:induction false} RegistryKeys(nodes: seq<RawNode>)
    ensures forall k :: k in Registry(nodes) <==> exists i :: 0 <= i < |nodes| && Registers(nodes[i], k)
  {
    if nodes != [] {
      var p := nodes[..|nodes| - 1];
      RegistryKeys(p);
      forall k ensures k in Registry(nodes) <==> exists i :: 0 <= i < |nodes| && Registers(nodes[i], k) {
        if k in Registry(nodes) && !Registers(nodes[|nodes| - 1], k) {
          assert k in Registry(p);
          var i :| 0 <= i < |p| && Registers(p[i], k);
          assert nodes[i] == p[i];
        }
        if (exists i :: 0 <= i < |nodes| && Registers(nodes[i], k)) && !Registers(nodes[|nodes| - 1], k) {
          var i :| 0 <= i < |nodes| && Registers(nodes[i], k);
          assert p[i] == nodes[i];
        }
      }
    }
  }

  /** Each registered node sits under its own id and has no links. */
  lemma {:induction false} RegistryShape(nodes: seq<RawNode>)
    ensures KeyedById(Registry(nodes)) && Unlinked(Registry(nodes))
  {
    if nodes != [] {
      RegistryShape(nodes[..|nodes| - 1]);
    }
  }

  /** Each registered node carries the label of the last raw node registered under its id. */
  lemma {:induction false} RegistryLabels(nodes: seq<RawNode>)
    ensures forall k :: k in Registry(nodes) ==> exists i :: LastWriter(nodes, k, i) && Registry(nodes)[k].name == nodes[i].lbl
  {
    if nodes != [] {
      var p := nodes[..|nodes| - 1];
      RegistryLabels(p);
      var m := Registry(nodes);
      forall k | k in m
        ensures exists i :: LastWriter(nodes, k, i) && m[k].name == nodes[i].lbl
      {
        if Registers(nodes[|nodes| - 1], k) {
          assert LastWriter(nodes, k, |nodes| - 1) && m[k].name == nodes[|nodes| - 1].lbl;
        } else {
          assert k in Registry(p) && m[k] == Registry(p)[k];
          var i :| LastWriter(p, k, i) && Registry(p)[k].name == p[i].lbl;
          assert nodes[i] == p[i];
          assert LastWriter(nodes, k, i);
        }
      }
    }
  }

  lemma LinksSnoc(p: seq<RawEdge>, e: RawEdge, s: string, o: string)
    ensures Links(p + [e], s, o) <==> Links(p, s, o) || IsALink(e, s, o)
  {
    var q := p + [e];
    if Links(p, s, o) {
      var i :| 0 <= i < |p| && IsALink(p[i], s, o);
      assert q[i] == p[i];
    }
    if Links(q, s, o) && !IsALink(e, s, o) {
      var i :| 0 <= i < |q| && IsALink(q[i], s, o);
      assert i < |p| && p[i] == q[i];
    }
    if IsALink(e, s, o) {
      assert q[|p|] == e;
    }
  }

  lemma {:induction false} LinkEdgesKeys(m: map<string, DiseaseNode>, edges: seq<RawEdge>)
    ensures LinkEdges(m, edges).Keys == m.Keys
  {
    if edges != [] {
      LinkEdgesKeys(m, edges[..|edges| - 1]);
    }
  }

  /** The parents of `k` among `keys` that the edge `e` names. */
  ghost function EdgeParents(keys: set<string>, e: RawEdge, k: string): set<string>
  {
    set o | o in keys && IsALink(e, k, o)
  }

  /** The children of `k` among `keys` that the edge `e` names. */
  ghost function EdgeChildren(keys: set<string>, e: RawEdge, k: string): set<string>
  {
    set s | s in keys && IsALink(e, s, k)
  }

  /** One edge leaves node `k`'s id and label as they were. */
  lemma LinkEdgeKeeps(m: map<string, DiseaseNode>, e: RawEdge, k: string)
    requires k in m
    ensures LinkEdge(m, e).Keys == m.Keys
    ensures LinkEdge(m, e)[k].id == m[k].id && LinkEdge(m, e)[k].name == m[k].name
  {
  }

  /** One edge adds to node `k` the parent it names, if the edge is accepted. */
  lemma LinkEdgeParents(m: map<string, DiseaseNode>, e: RawEdge, k: string)
    requires k in m
    ensures k in LinkEdge(m, e)
    ensures LinkEdge(m, e)[k].superClasses == m[k].superClasses + EdgeParents(m.Keys, e, k)
  {
    LinkEdgeKeeps(m, e, k);
  }

  /** One edge adds to node `k` the child it names, if the edge is accepted. */
  lemma LinkEdgeChildren(m: map<string, DiseaseNode>, e: RawEdge, k: string)
    requires k in m
    ensures k in LinkEdge(m, e)
    ensures LinkEdge(m, e)[k].subClasses == m[k].subClasses + EdgeChildren(m.Keys, e, k)
  {
    LinkEdgeKeeps(m, e, k);
  }

  /** Linking keeps node `k`'s id and label. */
  lemma {:induction false} LinkEdgesKeep(m: map<string, DiseaseNode>, edges: seq<RawEdge>, k: string)
    requires k in m
    ensures LinkEdges(m, edges).Keys == m.Keys
    ensures LinkEdges(m, edges)[k].id == m[k].id && LinkEdges(m, edges)[k].name == m[k].name
  {
    LinkEdgesKeys(m, edges);
    if edges != [] {
      var p, e := edges[..|edges| - 1], edges[|edges| - 1];
      LinkEdgesKeep(m, p, k);
      LinkEdgeKeeps(LinkEdges(m, p), e, k);
    }
  }

  /** The parents that `edges` give `k` are those of all but the last edge and those of the last. */
  lemma TargetsSnoc(m: map<string, DiseaseNode>, edges: seq<RawEdge>, k: string)
    requires edges != []
    ensures Targets(m, edges, k) == Targets(m, edges[..|edges| - 1], k) + EdgeParents(m.Keys, edges[|edges| - 1], k)
  {
    var p, e := edges[..|edges| - 1], edges[|edges| - 1];
    assert edges == p + [e];
    forall o ensures o in Targets(m, edges, k) <==> o in Targets(m, p, k) || o in EdgeParents(m.Keys, e, k) {
      LinksSnoc(p, e, k, o);
    }
  }

  /** The children that `edges` give `k` are those of all but the last edge and those of the last. */
  lemma SourcesSnoc(m: map<string, DiseaseNode>, edges: seq<RawEdge>, k: string)
    requires edges != []
    ensures Sources(m, edges, k) == Sources(m, edges[..|edges| - 1], k) + EdgeChildren(m.Keys, edges[|edges| - 1], k)
  {
    var p, e := edges[..|edges| - 1], edges[|edges| - 1];
    assert edges == p + [e];
    forall s ensures s in Sources(m, edges, k) <==> s in Sources(m, p, k) || s in EdgeChildren(m.Keys, e, k) {
      LinksSnoc(p, e, s, k);
    }
  }

  /** Linking adds to node `k` exactly the parents that the accepted edges give it. */
  lemma {:induction false} LinkEdgesParents(m: map<string, DiseaseNode>, edges: seq<RawEdge>, k: string)
    requires k in m
    ensures k in LinkEdges(m, edges)
    ensures LinkEdges(m, edges)[k].superClasses == m[k].superClasses + Targets(m, edges, k)
  {
    LinkEdgesKeys(m, edges);
    if edges != [] {
      var p, e := edges[..|edges| - 1], edges[|edges| - 1];
      LinkEdgesParents(m, p, k);
      LinkEdgesKeys(m, p);
      LinkEdgeParents(LinkEdges(m, p), e, k);
      TargetsSnoc(m, edges, k);
    }
  }

  /** Linking adds to node `k` exactly the children that the accepted edges give it. */
  lemma {:induction false} LinkEdgesChildren(m: map<string, DiseaseNode>, edges: seq<RawEdge>, k: string)
    requires k in m
    ensures k in LinkEdges(m, edges)
    ensures LinkEdges(m, edges)[k].subClasses == m[k].subClasses + Sources(m, edges, k)
  {
    LinkEdgesKeys(m, edges);
    if edges != [] {
      var p, e := edges[..|edges| - 1], edges[|edges| - 1];
      LinkEdgesChildren(m, p, k);
      LinkEdgesKeys(m, p);
      LinkEdgeChildren(LinkEdges(m, p), e, k);
      SourcesSnoc(m, edges, k);
    }
  }

  /** Starting from unlinked nodes, the links are exactly those the accepted edges give. */
  lemma LinkEdgesExact(reg: map<string, DiseaseNode>, edges: seq<RawEdge>)
    requires Unlinked(reg)
    ensures LinkEdges(reg, edges).Keys == reg.Keys
    ensures LinkedBy(LinkEdges(reg, edges), edges)
    ensures forall k :: k in reg ==> LinkEdges(reg, edges)[k].id == reg[k].id && LinkEdges(reg, edges)[k].name == reg[k].name
  {
    LinkEdgesKeys(reg, edges);
    var linked := LinkEdges(reg, edges);
    forall k | k in linked
      ensures linked[k].superClasses == Targets(linked, edges, k) && linked[k].subClasses == Sources(linked, edges, k)
      ensures linked[k].id == reg[k].id && linked[k].name == reg[k].name
    {
      LinkEdgesKeep(reg, edges, k);
      LinkEdgesParents(reg, edges, k);
      LinkEdgesChildren(reg, edges, k);
      assert Targets(linked, edges, k) == Targets(reg, edges, k);
      assert Sources(linked, edges, k) == Sources(reg, edges, k);
    }
  }

  /** Changing only the links keeps what the registry says about the raw nodes. */
  lemma EntriesKept(reg: map<string, DiseaseNode>, linked: map<string, DiseaseNode>, nodes: seq<RawNode>)
    requires EntriesFrom(reg, nodes)
    requires linked.Keys == reg.Keys
    requires forall k :: k in reg ==> linked[k].id == reg[k].id && linked[k].name == reg[k].name
    ensures EntriesFrom(linked, nodes)
  {
    forall k | k in linked
      ensures exists i :: LastWriter(nodes, k, i) && linked[k].name == nodes[i].lbl
    {
      var i :| LastWriter(nodes, k, i) && reg[k].name == nodes[i].lbl;
    }
  }

  /** Links given by edges are mirrored and stay inside the registry. */
  lemma LinkedIsMirrored(m: map<string, DiseaseNode>, edges: seq<RawEdge>)
    requires LinkedBy(m, edges)
    ensures Mirrored(m) && Closed(m)
  {
  }

  /** An edge that is not `is_a`, or whose endpoints are missing, outside the MONDO namespace
      or unregistered, changes nothing. */
  lemma IgnoredEdge(m: map<string, DiseaseNode>, e: RawEdge)
    requires e.pred != Some(IS_A) || !InNamespace(e.sub) || !InNamespace(e.obj)
             || LastSegment(e.sub.value) !in m || LastSegment(e.obj.value) !in m
    ensures LinkEdge(m, e) == m
    ensures forall s, o :: s in m && o in m ==> !IsALink(e, s, o)
  {
  }
}
