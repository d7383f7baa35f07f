/**
 * The ancestor traversal (`part_2` of mondo_utils.py): a breadth-first walk up the parent links,
 * for three rounds, that returns the sorted labels of the frontier after those rounds; the
 * frontier is empty, and so is the result, when the walk dies out sooner.
 */
module Ancestors {
  import opened Wrappers
  import opened Ordering
  import opened Ontology

  /** The number of generations `part_2` walks up. */
  const MAX_DEPTH: nat := 3

  /** The registered parents of `n`. */
  ghost function UpOf(t: OntologyTree, n: string): set<string>
  {
    if n in t.nodes then set p | p in t.nodes[n].superClasses && p in t.nodes else {}
  }

  /** The registered parents of the nodes of `level`. */
  ghost function Parents(t: OntologyTree, level: set<string>): set<string>
  {
    set n, p | n in level && p in UpOf(t, n) :: p
  }

  /** The loop state of `part_2`: `current_level` and `visited`. */
  datatype Walk = Walk(frontier: set<string>, visited: set<string>)

  /** The loop state after `k` rounds, had the loop not stopped: each round moves to the parents
      of the frontier that were not visited before. */
  ghost function WalkAfter(t: OntologyTree, start: string, k: nat): Walk
  {
    if k == 0 then Walk({start}, {start})
    else
      var w := WalkAfter(t, start, k - 1);
      var next := Parents(t, w.frontier) - w.visited;
      Walk(next, w.visited + next)
  }

  /** `nodes_dict[n].get("label")` is a non-empty string. */
  predicate Labelled(t: OntologyTree, n: string)
  {
    n in t.nodes && t.nodes[n].name.Some? && t.nodes[n].name.value != []
  }

  /** The nodes of `level` labelled `x`. */
  ghost function Bearers(t: OntologyTree, level: set<string>, x: string): set<string>
  {
    set n | n in level && Labelled(t, n) && t.nodes[n].name.value == x
  }

  /** The labels carried by the nodes of `level`. */
  ghost function LabelSet(t: OntologyTree, level: set<string>): set<string>
  {
    set n | n in level && Labelled(t, n) :: t.nodes[n].name.value
  }

  /** The labels `part_2` reports for `start`: those of the final frontier only. */
  ghost function Categories(t: OntologyTree, start: string): set<string>
  {
    LabelSet(t, WalkAfter(t, start, MAX_DEPTH).frontier)
  }

  /**
   * `part_2(tree, start)`: `[]` for an unknown start; otherwise the labels of the frontier the
   * walk reaches after `MAX_DEPTH` rounds (or where it dies out), sorted, one entry per
   * labelled frontier node (two nodes with the same label give it twice).
   */
  method AncestorLabels(t: OntologyTree, start: string) returns (r: seq<string>)
    ensures start !in t.nodes ==> r == []
    ensures Sorted(r)
    ensures forall x :: multiset(r)[x] == |Bearers(t, WalkAfter(t, start, MAX_DEPTH).frontier, x)|
    ensures forall x :: x in r <==> x in Categories(t, start)
  {
    if start !in t.nodes {
      UnknownStart(t, start);
      return [];
    }
    var current := {start};
    var visited := {start};
    var depth := 0;
    while depth < MAX_DEPTH && current != {}
      invariant 0 <= depth <= MAX_DEPTH
      invariant WalkAfter(t, start, depth) == Walk(current, visited)
      invariant current <= t.nodes.Keys
    {
      current, visited := NextLevel(t, current, visited);
      depth := depth + 1;
    }
    DiedOut(t, start, depth, MAX_DEPTH);
    var labels := FrontierLabels(t, current);
    r := Sort(labels);
    forall x ensures x in r <==> x in Categories(t, start) {
      BearersNonEmpty(t, current, x);
    }
  }

  /** One round of the `while` loop of `part_2`: the unvisited registered parents of the
      current level become the next level and are marked visited. */
  method NextLevel(t: OntologyTree, current: set<string>, visited: set<string>)
    returns (next: set<string>, visitedOut: set<string>)
    requires current <= t.nodes.Keys
    ensures next == Parents(t, current) - visited
    ensures visitedOut == visited + next
    ensures next <= t.nodes.Keys
  {
    next := {};
    visitedOut := visited;
    var todo := current;
    while todo != {}
      invariant todo <= current
      invariant next == Parents(t, current - todo) - visited
      invariant visitedOut == visited + next
      invariant next <= t.nodes.Keys
    {
      var nid :| nid in todo;
      var parents := t.nodes[nid].superClasses;
      while parents != {}
        invariant parents <= t.nodes[nid].superClasses
        invariant next == (Parents(t, current - todo) + (UpOf(t, nid) - parents)) - visited
        invariant visitedOut == visited + next
        invariant next <= t.nodes.Keys
      {
        var parentId :| parentId in parents;
        if parentId in t.nodes && parentId !in visitedOut {
          visitedOut := visitedOut + {parentId};
          next := next + {parentId};
        }
        parents := parents - {parentId};
      }
      ParentsAdd(t, current - todo, nid);
      assert current - (todo - {nid}) == (current - todo) + {nid};
      todo := todo - {nid};
    }
    assert current - todo == current;
  }

  /** The label-gathering loop of `part_2`: one entry per node of `level` with a non-empty label. */
  method FrontierLabels(t: OntologyTree, level: set<string>) returns (labels: seq<string>)
    requires level <= t.nodes.Keys
    ensures forall x :: multiset(labels)[x] == |Bearers(t, level, x)|
  {
    labels := [];
    var todo := level;
    while todo != {}
      invariant todo <= level
      invariant forall x :: multiset(labels)[x] == |Bearers(t, level - todo, x)|
    {
      var nid :| nid in todo;
      var name := t.nodes[nid].name;
      if name.Some? && name.value != [] {
        labels := labels + [name.value];
      }
      BearersAdd(t, level - todo, nid);
      assert level - (todo - {nid}) == (level - todo) + {nid};
      todo := todo - {nid};
    }
    assert level - todo == level;
  }

  lemma ParentsAdd(t: OntologyTree, level: set<string>, n: string)
    ensures Parents(t, level + {n}) == Parents(t, level) + UpOf(t, n)
  {
  }

  lemma BearersAdd(t: OntologyTree, level: set<string>, n: string)
    requires n !in level
    ensures forall x :: (|Bearers(t, level + {n}, x)|
      == |Bearers(t, level, x)| + (if Labelled(t, n) && t.nodes[n].name.value == x then 1 else 0))
  {
    forall x ensures |Bearers(t, level + {n}, x)|
      == |Bearers(t, level, x)| + (if Labelled(t, n) && t.nodes[n].name.value == x then 1 else 0)
    {
      if Labelled(t, n) && t.nodes[n].name.value == x {
        assert Bearers(t, level + {n}, x) == Bearers(t, level, x) + {n};
      } else {
        assert Bearers(t, level + {n}, x) == Bearers(t, level, x);
      }
    }
  }

  lemma BearersNonEmpty(t: OntologyTree, level: set<string>, x: string)
    ensures |Bearers(t, level, x)| > 0 <==> x in LabelSet(t, level)
  {
    if x in LabelSet(t, level) {
      var n :| n in level && Labelled(t, n) && t.nodes[n].name.value == x;
      assert n in Bearers(t, level, x);
    }
    if |Bearers(t, level, x)| > 0 {
      var n :| n in Bearers(t, level, x);
    }
  }

  /** An unregistered start has no registered parents, so the walk dies out at once. */
  lemma UnknownStart(t: OntologyTree, start: string)
    requires start !in t.nodes
    ensures WalkAfter(t, start, MAX_DEPTH).frontier == {}
    ensures forall x :: Bearers(t, WalkAfter(t, start, MAX_DEPTH).frontier, x) == {}
    ensures Categories(t, start) == {}
  {
    assert Parents(t, {start}) == {};
    DiedOut(t, start, 1, MAX_DEPTH);
  }

  /** Once the frontier is empty it stays empty, so stopping early changes nothing. */
  lemma {:induction false} DiedOut(t: OntologyTree, start: string, k: nat, m: nat)
    requires k <= m
    requires k < m ==> WalkAfter(t, start, k).frontier == {}
    ensures WalkAfter(t, start, m).frontier == WalkAfter(t, start, k).frontier
  {
    if k < m {
      DiedOut(t, start, k, m - 1);
      assert Parents(t, {}) == {};
    }
  }

  /** The nodes at the end of some chain of exactly `k` parent links from `start`. */
  ghost function Reach(t: OntologyTree, start: string, k: nat): set<string>
  {
    if k == 0 then {start} else Parents(t, Reach(t, start, k - 1))
  }

  /** `n` is at most `k` parent links above `start`. */
  ghost predicate ReachedWithin(t: OntologyTree, start: string, n: string, k: nat)
  {
    exists j :: 0 <= j <= k && n in Reach(t, start, j)
  }

  /**
   * The walk is a breadth-first search: after `k` rounds the visited set holds exactly the nodes
   * at most `k` links above the start, and the frontier exactly those whose shortest distance
   * from the start is `k`.
   */
  lemma {:induction false} WalkIsBreadthFirst(t: OntologyTree, start: string, k: nat)
    ensures forall n :: n in WalkAfter(t, start, k).visited <==> ReachedWithin(t, start, n, k)
    ensures forall n :: (n in WalkAfter(t, start, k).frontier
      <==> n in Reach(t, start, k) && (k == 0 || !ReachedWithin(t, start, n, k - 1)))
  {
    if k == 0 {
      forall n ensures n in WalkAfter(t, start, k).visited <==> ReachedWithin(t, start, n, k) {
        if n == start {
          assert n in Reach(t, start, 0);
        }
        if ReachedWithin(t, start, n, k) {
          var j :| 0 <= j <= k && n in Reach(t, start, j);
        }
      }
    } else {
      WalkIsBreadthFirst(t, start, k - 1);
      var w := WalkAfter(t, start, k - 1);
      forall n ensures n in WalkAfter(t, start, k).frontier
        <==> n in Reach(t, start, k) && !ReachedWithin(t, start, n, k - 1)
      {
        if n in Reach(t, start, k) && !ReachedWithin(t, start, n, k - 1) {
          var m :| m in Reach(t, start, k - 1) && n in UpOf(t, m);
          if k - 1 > 0 && ReachedWithin(t, start, m, k - 2) {
            ReachedWithinUp(t, start, m, n, k - 2);
            assert false;
          }
          assert m in w.frontier;
          assert n in Parents(t, w.frontier);
        }
      }
      forall n ensures n in WalkAfter(t, start, k).visited <==> ReachedWithin(t, start, n, k) {
        if n in Reach(t, start, k) {
          assert ReachedWithin(t, start, n, k);
        }
        if ReachedWithin(t, start, n, k) && !ReachedWithin(t, start, n, k - 1) {
          var j :| 0 <= j <= k && n in Reach(t, start, j);
          assert j == k;
        }
        if ReachedWithin(t, start, n, k - 1) {
          var j :| 0 <= j <= k - 1 && n in Reach(t, start, j);
          assert ReachedWithin(t, start, n, k);
        }
      }
    }
  }

  lemma ReachedWithinUp(t: OntologyTree, start: string, m: string, n: string, k: nat)
    requires ReachedWithin(t, start, m, k) && n in UpOf(t, m)
    ensures ReachedWithin(t, start, n, k + 1)
  {
    var j :| 0 <= j <= k && m in Reach(t, start, j);
    assert n in Reach(t, start, j + 1);
  }

  /** No node belongs to two frontiers, so no node is counted in two generations. */
  lemma FrontiersDisjoint(t: OntologyTree, start: string, i: nat, j: nat)
    requires i < j
    ensures WalkAfter(t, start, i).frontier * WalkAfter(t, start, j).frontier == {}
  {
    WalkIsBreadthFirst(t, start, i);
    WalkIsBreadthFirst(t, start, j);
    forall n | n in WalkAfter(t, start, i).frontier
      ensures n !in WalkAfter(t, start, j).frontier
    {
      assert ReachedWithin(t, start, n, j - 1);
    }
  }

  /** A three-node chain LEAF is_a MID is_a ROOT, every node labelled. */
  function Chain(): OntologyTree
  {
    OntologyTree(
      map[
        "LEAF" := DiseaseNode("LEAF", Some("leaf disease"), {"MID"}, {}),
        "MID" := DiseaseNode("MID", Some("mid disease"), {"ROOT"}, {"LEAF"}),
        "ROOT" := DiseaseNode("ROOT", Some("root disease"), {}, {"MID"})],
      ["ROOT"])
  }

  /** Starting from LEAF the walk reaches MID, then ROOT, then nothing: only labels of the third
      generation are reported, so `part_2` returns no labels at all for this chain. */
  lemma ChainHasNoCategories()
    ensures WalkAfter(Chain(), "LEAF", MAX_DEPTH).frontier == {}
    ensures Categories(Chain(), "LEAF") == {}
  {
    var t := Chain();
    assert UpOf(t, "LEAF") == {"MID"};
    assert UpOf(t, "MID") == {"ROOT"};
    assert UpOf(t, "ROOT") == {};
    assert Parents(t, {"LEAF"}) == {"MID"};
    assert WalkAfter(t, "LEAF", 1) == Walk({"MID"}, {"LEAF", "MID"});
    assert Parents(t, {"MID"}) == {"ROOT"};
    assert WalkAfter(t, "LEAF", 2) == Walk({"ROOT"}, {"LEAF", "MID", "ROOT"});
    assert Parents(t, {"ROOT"}) == {};
  }
}
