/**
 * `MondoKnowledge` of the FlyBase analysis script: the ontology tree and the DOID index, both
 * loaded from the same ontology document, and the lookups built on them.
 */
module Knowledge {
  import opened Wrappers
  import opened Text
  import opened Ordering
  import opened Ontology
  import opened Ancestors
  import opened DoidIndex

  /** The two attributes `__init__` sets; `tree` is `None` when `part_1` found no nodes. Neither
      changes afterwards. */
  datatype MondoKnowledge = MondoKnowledge(tree: Option<OntologyTree>, doidMap: map<string, seq<string>>)

  /** The nodes list of the first graph of a document whose index could be built. */
  function LoadedNodes(doc: Document): seq<RawNode>
    requires doc.graphs.Some? && doc.graphs.value != [] && doc.graphs.value[0].nodes.Some?
  {
    doc.graphs.value[0].nodes.value
  }

  /** `kb` is what `__init__` builds from `doc`. */
  ghost predicate LoadedFrom(kb: MondoKnowledge, doc: Document)
  {
    && doc.graphs.Some? && doc.graphs.value != [] && doc.graphs.value[0].nodes.Some?
    && IndexOf(kb.doidMap, LoadedNodes(doc))
    && (kb.tree.None? <==> LoadedNodes(doc) == [])
    && (kb.tree.Some? ==>
          && EntriesFrom(kb.tree.value.nodes, NodesOf(doc))
          && LinkedBy(kb.tree.value.nodes, EdgesOf(doc))
          && Mirrored(kb.tree.value.nodes) && Closed(kb.tree.value.nodes)
          && RootsOf(kb.tree.value.roots, kb.tree.value.nodes))
  }

  /** Without a tree there is nothing to look up, and every MONDO id the index yields is a node
      of the tree. */
  ghost predicate Coherent(kb: MondoKnowledge)
  {
    && (kb.tree.None? ==> kb.doidMap == map[])
    && (kb.tree.Some? ==> forall d, m :: d in kb.doidMap && m in kb.doidMap[d] ==> m in kb.tree.value.nodes)
  }

  /**
   * `MondoKnowledge.__init__` after the JSON load: `part_1` runs first, so an empty `graphs`
   * list is its `IndexError`; a missing `graphs` or `nodes` key then makes the index builder
   * raise `KeyError`. Otherwise both attributes are set, consistently with each other.
   */
  method LoadKnowledge(doc: Document) returns (r: Result<MondoKnowledge, Failure>)
    ensures r == Err(IndexError) <==> doc.graphs == Some([])
    ensures r == Err(KeyError("graphs")) <==> doc.graphs.None?
    ensures r == Err(KeyError("nodes")) <==> doc.graphs.Some? && doc.graphs.value != [] && doc.graphs.value[0].nodes.None?
    ensures r.Ok? <==> doc.graphs.Some? && doc.graphs.value != [] && doc.graphs.value[0].nodes.Some?
    ensures r.Err? ==> r.error == KeyError("graphs") || r.error == IndexError || r.error == KeyError("nodes")
    ensures r.Ok? ==> LoadedFrom(r.value, doc) && Coherent(r.value)
  {
    var tree := BuildTree(doc);
    if tree == Err(IndexError) {
      return Err(IndexError);
    }
    var index := BuildDoidIndex(doc);
    if index.Err? {
      return Err(index.error);
    }
    var t := if tree.Ok? then Some(tree.value) else None;
    var kb := MondoKnowledge(t, index.value);
    var nodes := LoadedNodes(doc);
    if t.None? {
      assert nodes == [];
      assert kb.doidMap == map[];
    } else {
      forall d, m | d in kb.doidMap && m in kb.doidMap[d]
        ensures m in t.value.nodes
      {
        var i :| 0 <= i < |nodes| && CitesDoid(nodes[i], d) && LastSegment(nodes[i].id.value) == m;
        assert Registers(NodesOf(doc)[i], m);
      }
    }
    r := Ok(kb);
  }

  /** `get_mondo_ids`: the MONDO ids listed for `doid`, or none; in a coherent knowledge base
      every id returned is a node of the tree. */
  function GetMondoIds(kb: MondoKnowledge, doid: string): (r: seq<string>)
    ensures doid !in kb.doidMap ==> r == []
    ensures Coherent(kb) && r != [] ==> kb.tree.Some? && forall m :: m in r ==> m in kb.tree.value.nodes
  {
    if doid in kb.doidMap then kb.doidMap[doid] else []
  }

  /** The ids `get_mondo_ids` returns are, sorted and once each, exactly the MONDO nodes citing
      `doid`; an uncited DOID gets none. */
  lemma MondoIdsAreCiters(kb: MondoKnowledge, doc: Document, doid: string)
    requires LoadedFrom(kb, doc)
    ensures StrictlySorted(GetMondoIds(kb, doid))
    ensures forall m :: m in GetMondoIds(kb, doid) <==> CitedBy(LoadedNodes(doc), doid, m)
    ensures GetMondoIds(kb, doid) == [] <==> forall i :: 0 <= i < |LoadedNodes(doc)| ==> !CitesDoid(LoadedNodes(doc)[i], doid)
  {
  }

  /** The categories of `doid`: the labels the walk reports from any MONDO id listed for it. */
  ghost function CategoriesOf(kb: MondoKnowledge, doid: string): set<string>
  {
    if kb.tree.None? then {}
    else set m, x | m in GetMondoIds(kb, doid) && x in Categories(kb.tree.value, m) :: x
  }

  /**
   * `categories_for_doid`: the union of the `part_2` labels of the MONDO ids listed for `doid`.
   * The source needs a tree whenever there are ids to walk from.
   */
  method CategoriesForDoid(kb: MondoKnowledge, doid: string) returns (cats: set<string>)
    requires kb.tree.Some? || GetMondoIds(kb, doid) == []
    ensures forall x :: x in cats <==>
      kb.tree.Some? && exists m :: m in GetMondoIds(kb, doid) && x in Categories(kb.tree.value, m)
    ensures cats == CategoriesOf(kb, doid)
    ensures doid !in kb.doidMap ==> cats == {}
  {
    cats := {};
    var ids := GetMondoIds(kb, doid);
    for i := 0 to |ids|
      invariant forall x :: x in cats <==> kb.tree.Some? && exists j :: 0 <= j < i && x in Categories(kb.tree.value, ids[j])
    {
      var labels := AncestorLabels(kb.tree.value, ids[i]);
      cats := cats + set l | l in labels;
    }
    forall x ensures x in cats <==> kb.tree.Some? && exists m :: m in ids && x in Categories(kb.tree.value, m) {
      if kb.tree.Some? && exists m :: m in ids && x in Categories(kb.tree.value, m) {
        var m :| m in ids && x in Categories(kb.tree.value, m);
        var j :| 0 <= j < |ids| && ids[j] == m;
      }
    }
  }
}
