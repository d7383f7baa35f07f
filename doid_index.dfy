/**
 * The cross-reference index (`build_doid_to_mondo_mapping` of mondo_utils.py): for every Disease
 * Ontology id cited by a MONDO node, the sorted, duplicate-free list of the MONDO short ids
 * citing it.
 */
module DoidIndex {
  import opened Wrappers
  import opened Text
  import opened Ordering
  import opened Ontology

  const DOID_PREFIX := "DOID:"

  /** A cross-reference value that names a Disease Ontology term. */
  predicate IsDoid(v: string)
  {
    StartsWith(v, DOID_PREFIX)
  }

  /** The raw node `n` is a MONDO node that cites the DOID `d` among its property values or
      its cross-references. */
  predicate CitesDoid(n: RawNode, d: string)
  {
    InNamespace(n.id) && IsDoid(d) && (d in n.propertyValues || d in n.xrefValues)
  }

  /** Some MONDO node of `nodes` registered under `m` cites `d`. */
  ghost predicate CitedBy(nodes: seq<RawNode>, d: string, m: string)
  {
    exists i :: 0 <= i < |nodes| && CitesDoid(nodes[i], d) && LastSegment(nodes[i].id.value) == m
  }

  /** The index maps each DOID to a sorted list, without repeats, of exactly the short ids of the
      MONDO nodes of `nodes` that cite it, and holds exactly the DOIDs some MONDO node cites. */
  ghost predicate IndexOf(index: map<string, seq<string>>, nodes: seq<RawNode>)
  {
    && (forall d :: d in index <==> exists i :: 0 <= i < |nodes| && CitesDoid(nodes[i], d))
    && (forall d :: d in index ==>
          && index[d] != []
          && StrictlySorted(index[d])
          && forall m :: m in index[d] <==> CitedBy(nodes, d, m))
  }

  /** The lists after `setdefault(val, []).append(id)` for every DOID value of `vals`, in order. */
  ghost function Append(m: map<string, seq<string>>, vals: seq<string>, id: string): map<string, seq<string>>
  {
    if vals == [] then m
    else
      var m1 := Append(m, vals[..|vals| - 1], id);
      var v := vals[|vals| - 1];
      if IsDoid(v) then m1[v := (if v in m1 then m1[v] else []) + [id]] else m1
  }

  /** The lists after the node loop has run over `nodes`, before duplicates are removed. */
  ghost function Gathered(nodes: seq<RawNode>): map<string, seq<string>>
  {
    if nodes == [] then map[]
    else
      var m := Gathered(nodes[..|nodes| - 1]);
      var n := nodes[|nodes| - 1];
      if InNamespace(n.id) then
        var id := LastSegment(n.id.value);
        Append(Append(m, n.propertyValues, id), n.xrefValues, id)
      else m
  }

  /**
   * `build_doid_to_mondo_mapping` after the JSON load: a missing `graphs` or `nodes` key is a
   * `KeyError`, an empty `graphs` list an `IndexError`; otherwise the index of the nodes of the
   * first graph.
   */
  method BuildDoidIndex(doc: Document) returns (r: Result<map<string, seq<string>>, Failure>)
    ensures r == Err(KeyError("graphs")) <==> doc.graphs.None?
    ensures r == Err(IndexError) <==> doc.graphs == Some([])
    ensures r == Err(KeyError("nodes")) <==>
      doc.graphs.Some? && doc.graphs.value != [] && doc.graphs.value[0].nodes.None?
    ensures r.Ok? <==> doc.graphs.Some? && doc.graphs.value != [] && doc.graphs.value[0].nodes.Some?
    ensures r.Err? ==> r.error == KeyError("graphs") || r.error == IndexError || r.error == KeyError("nodes")
    ensures r.Ok? ==> IndexOf(r.value, doc.graphs.value[0].nodes.value)
  {
    if doc.graphs.None? {
      return Err(KeyError("graphs"));
    }
    if doc.graphs.value == [] {
      return Err(IndexError);
    }
    var graph := doc.graphs.value[0];
    if graph.nodes.None? {
      return Err(KeyError("nodes"));
    }
    var nodes := graph.nodes.value;
    var raw := GatherDoids(nodes);
    var index := Dedupe(raw);
    forall d ensures d in index <==> exists i :: 0 <= i < |nodes| && CitesDoid(nodes[i], d) {
      GatheredAt(nodes, d);
    }
    forall d | d in index
      ensures index[d] != [] && StrictlySorted(index[d])
      ensures forall m :: m in index[d] <==> CitedBy(nodes, d, m)
    {
      GatheredAt(nodes, d);
      assert raw[d][0] in index[d];
    }
    r := Ok(index);
  }

  /** The node loop of `build_doid_to_mondo_mapping`. */
  method GatherDoids(nodes: seq<RawNode>) returns (raw: map<string, seq<string>>)
    ensures raw == Gathered(nodes)
  {
    raw := map[];
    for i := 0 to |nodes|
      invariant raw == Gathered(nodes[..i])
    {
      assert nodes[..i + 1][..i] == nodes[..i];
      var n := nodes[i];
      var nodeId := n.id.GetOr("");
      if StartsWith(nodeId, MONDO_PREFIX) {
        var mondoId := LastSegment(nodeId);
        raw := AppendDoids(raw, n.propertyValues, mondoId);
        raw := AppendDoids(raw, n.xrefValues, mondoId);
      }
    }
    assert nodes[..|nodes|] == nodes;
  }

  /** One of the two inner loops: appends `mondoId` to the list of every DOID value of `vals`. */
  method AppendDoids(m: map<string, seq<string>>, vals: seq<string>, mondoId: string)
    returns (r: map<string, seq<string>>)
    ensures r == Append(m, vals, mondoId)
  {
    r := m;
    for j := 0 to |vals|
      invariant r == Append(m, vals[..j], mondoId)
    {
      assert vals[..j + 1][..j] == vals[..j];
      var val := vals[j];
      if StartsWith(val, DOID_PREFIX) {
        var list := if val in r then r[val] else [];
        r := r[val := list + [mondoId]];
      }
    }
    assert vals[..|vals|] == vals;
  }

  /** The last loop: each list becomes `sorted(set(list))`. */
  method Dedupe(raw: map<string, seq<string>>) returns (index: map<string, seq<string>>)
    ensures index.Keys == raw.Keys
    ensures forall d :: d in index ==> StrictlySorted(index[d]) && forall m :: m in index[d] <==> m in raw[d]
  {
    index := raw;
    var todo := raw.Keys;
    while todo != {}
      invariant todo <= raw.Keys && index.Keys == raw.Keys
      invariant forall d :: d in todo ==> index[d] == raw[d]
      invariant forall d :: d in index && d !in todo ==>
        StrictlySorted(index[d]) && forall m :: m in index[d] <==> m in raw[d]
    {
      var d :| d in todo;
      index := index[d := SortedDistinct(index[d])];
      todo := todo - {d};
    }
  }

  /** Appending adds exactly the DOID values of `vals` as keys and `id` to each of their lists,
      and never leaves a list empty. */
  lemma {:induction false} AppendAt(m: map<string, seq<string>>, vals: seq<string>, id: string, d: string)
    requires d in m ==> m[d] != []
    ensures d in Append(m, vals, id) <==> d in m || (IsDoid(d) && d in vals)
    ensures d in Append(m, vals, id) ==> Append(m, vals, id)[d] != []
    ensures d in Append(m, vals, id) ==>
      forall x :: x in Append(m, vals, id)[d] <==> (d in m && x in m[d]) || (IsDoid(d) && d in vals && x == id)
  {
    if vals != [] {
      var p := vals[..|vals| - 1];
      assert vals == p + [vals[|vals| - 1]];
      AppendAt(m, p, id, d);
    }
  }

  /** The keys of the gathered lists are exactly the cited DOIDs, and each list holds exactly
      the short ids of the nodes citing its DOID. */
  lemma {:induction false} GatheredAt(nodes: seq<RawNode>, d: string)
    ensures d in Gathered(nodes) <==> exists i :: 0 <= i < |nodes| && CitesDoid(nodes[i], d)
    ensures d in Gathered(nodes) ==> Gathered(nodes)[d] != []
    ensures d in Gathered(nodes) ==> forall x :: x in Gathered(nodes)[d] <==> CitedBy(nodes, d, x)
  {
    if nodes != [] {
      var p, n := nodes[..|nodes| - 1], nodes[|nodes| - 1];
      assert nodes == p + [n];
      GatheredAt(p, d);
      var g := Gathered(p);
      if InNamespace(n.id) {
        var id := LastSegment(n.id.value);
        AppendAt(g, n.propertyValues, id, d);
        AppendAt(Append(g, n.propertyValues, id), n.xrefValues, id, d);
      }
      CitationsSnoc(p, n, d);
    }
  }

  lemma CitationsSnoc(p: seq<RawNode>, n: RawNode, d: string)
    ensures (exists i :: 0 <= i < |p + [n]| && CitesDoid((p + [n])[i], d))
      <==> (exists i :: 0 <= i < |p| && CitesDoid(p[i], d)) || CitesDoid(n, d)
    ensures forall x :: CitedBy(p + [n], d, x) <==> CitedBy(p, d, x) || (CitesDoid(n, d) && LastSegment(n.id.value) == x)
  {
    var q := p + [n];
    forall x ensures CitedBy(q, d, x) <==> CitedBy(p, d, x) || (CitesDoid(n, d) && LastSegment(n.id.value) == x) {
      if CitedBy(q, d, x) {
        var i :| 0 <= i < |q| && CitesDoid(q[i], d) && LastSegment(q[i].id.value) == x;
        if i < |p| {
          assert q[i] == p[i];
        }
      }
      if CitedBy(p, d, x) {
        var i :| 0 <= i < |p| && CitesDoid(p[i], d) && LastSegment(p[i].id.value) == x;
        assert q[i] == p[i];
      }
      if CitesDoid(n, d) {
        assert q[|p|] == n;
      }
    }
    if exists i :: 0 <= i < |q| && CitesDoid(q[i], d) {
      var i :| 0 <= i < |q| && CitesDoid(q[i], d);
      if i < |p| {
        assert q[i] == p[i];
      }
    }
    if exists i :: 0 <= i < |p| && CitesDoid(p[i], d) {
      var i :| 0 <= i < |p| && CitesDoid(p[i], d);
      assert q[i] == p[i];
    }
    if CitesDoid(n, d) {
      assert q[|p|] == n;
    }
  }
}
