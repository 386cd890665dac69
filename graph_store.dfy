/**
 * The part of the graph store that the DNS record modals use: node property
 * bags by element id, and directed typed edges. Several edges of one type
 * between one pair are allowed. Disconnecting removes every edge of the
 * given type from the source to the target.
 */
module GraphStore {
  import opened Values

  type NodeId = string

  datatype Edge = Edge(source: NodeId, rel: string, target: NodeId, targetLabel: string)

  /** An entry of `get_outgoing_relationships()[rel]`. */
  datatype Target = Target(targetId: NodeId, targetLabel: string)

  predicate Outgoing(e: Edge, src: NodeId, rel: string) {
    e.source == src && e.rel == rel
  }

  /** The outgoing `rel` edges of `src`, in edge order. */
  function EdgesOf(es: seq<Edge>, src: NodeId, rel: string): seq<Edge> {
    if es == [] then []
    else (if Outgoing(es[0], src, rel) then [es[0]] else []) + EdgesOf(es[1..], src, rel)
  }

  /** `get_outgoing_relationships().get(rel, [])`: one target per outgoing `rel` edge. */
  function Targets(es: seq<Edge>, src: NodeId, rel: string): seq<Target> {
    if es == [] then []
    else (if Outgoing(es[0], src, rel) then [Target(es[0].target, es[0].targetLabel)] else [])
         + Targets(es[1..], src, rel)
  }

  function TargetIds(ts: seq<Target>): set<NodeId> {
    set t | t in ts :: t.targetId
  }

  /** The edges left after removing every outgoing `rel` edge of `src` to a target in `ts`. */
  function WithoutTargets(es: seq<Edge>, src: NodeId, rel: string, ts: set<NodeId>): seq<Edge> {
    if es == [] then []
    else (if Outgoing(es[0], src, rel) && es[0].target in ts then [] else [es[0]])
         + WithoutTargets(es[1..], src, rel, ts)
  }

  /** The edges left after removing every outgoing `rel` edge of `src`. */
  function WithoutRel(es: seq<Edge>, src: NodeId, rel: string): seq<Edge> {
    if es == [] then []
    else (if Outgoing(es[0], src, rel) then [] else [es[0]]) + WithoutRel(es[1..], src, rel)
  }

  // ---------------------------------------------------------------------

  /** Disconnecting one more target is removing edges to the enlarged target set. */
  lemma {:induction false} WithoutTargetsStep(es: seq<Edge>, src: NodeId, rel: string, ts: set<NodeId>, t: NodeId)
    ensures WithoutTargets(WithoutTargets(es, src, rel, ts), src, rel, {t}) == WithoutTargets(es, src, rel, ts + {t})
  {
    if es != [] {
      WithoutTargetsStep(es[1..], src, rel, ts, t);
      var rest := WithoutTargets(es[1..], src, rel, ts);
      if !(Outgoing(es[0], src, rel) && es[0].target in ts) {
        var s := [es[0]] + rest;
        assert s[0] == es[0] && s[1..] == rest;
        assert WithoutTargets(s, src, rel, {t})
            == (if Outgoing(es[0], src, rel) && es[0].target in {t} then [] else [es[0]])
               + WithoutTargets(rest, src, rel, {t});
      } else {
        assert WithoutTargets(es, src, rel, ts) == rest;
        assert WithoutTargets(es, src, rel, ts + {t}) == WithoutTargets(es[1..], src, rel, ts + {t});
      }
    }
  }

  /** Removing the edges to no target removes nothing. */
  lemma {:induction false} WithoutTargetsNone(es: seq<Edge>, src: NodeId, rel: string)
    ensures WithoutTargets(es, src, rel, {}) == es
  {
    if es != [] {
      WithoutTargetsNone(es[1..], src, rel);
      assert es == [es[0]] + es[1..];
    }
  }

  /** Removing the edges to every target an edge of `src` has is removing all of them. */
  lemma {:induction false} WithoutAllTargets(es: seq<Edge>, src: NodeId, rel: string, ts: set<NodeId>)
    requires forall e :: e in es && Outgoing(e, src, rel) ==> e.target in ts
    ensures WithoutTargets(es, src, rel, ts) == WithoutRel(es, src, rel)
  {
    if es != [] {
      assert es[0] in es;
      forall e | e in es[1..] && Outgoing(e, src, rel)
        ensures e.target in ts
      {
        assert e in es;
      }
      WithoutAllTargets(es[1..], src, rel, ts);
    }
  }

  /** Every outgoing `rel` edge of `src` has its target among the listed targets. */
  lemma {:induction false} TargetsCover(es: seq<Edge>, src: NodeId, rel: string)
    ensures forall e :: e in es && Outgoing(e, src, rel) ==> e.target in TargetIds(Targets(es, src, rel))
  {
    if es != [] {
      TargetsCover(es[1..], src, rel);
      forall e | e in es && Outgoing(e, src, rel)
        ensures e.target in TargetIds(Targets(es, src, rel))
      {
        if e == es[0] {
          assert Target(e.target, e.targetLabel) in Targets(es, src, rel);
        } else {
          assert e in es[1..];
          var t :| t in Targets(es[1..], src, rel) && t.targetId == e.target;
          assert t in Targets(es, src, rel);
        }
      }
    }
  }

  /** An edge survives WithoutRel iff it is not an outgoing `rel` edge of `src`. */
  lemma {:induction false} WithoutRelMembers(es: seq<Edge>, src: NodeId, rel: string)
    ensures forall e :: e in WithoutRel(es, src, rel) <==> e in es && !Outgoing(e, src, rel)
  {
    if es != [] {
      WithoutRelMembers(es[1..], src, rel);
      assert es == [es[0]] + es[1..];
    }
  }

  lemma {:induction false} EdgesOfAppend(a: seq<Edge>, b: seq<Edge>, src: NodeId, rel: string)
    ensures EdgesOf(a + b, src, rel) == EdgesOf(a, src, rel) + EdgesOf(b, src, rel)
  {
    if a == [] {
      assert a + b == b;
    } else {
      var ab := a + b;
      var head := if Outgoing(a[0], src, rel) then [a[0]] else [];
      EdgesOfAppend(a[1..], b, src, rel);
      assert ab[0] == a[0] && ab[1..] == a[1..] + b;
      assert EdgesOf(ab, src, rel) == head + EdgesOf(a[1..] + b, src, rel);
      assert EdgesOf(a, src, rel) == head + EdgesOf(a[1..], src, rel);
    }
  }

  /** After WithoutRel, `src` has no outgoing `rel` edge, and its other edge types are as before. */
  lemma {:induction false} EdgesOfWithoutRel(es: seq<Edge>, src: NodeId, rel: string, other: string)
    ensures EdgesOf(WithoutRel(es, src, rel), src, rel) == []
    ensures other != rel ==> EdgesOf(WithoutRel(es, src, rel), src, other) == EdgesOf(es, src, other)
  {
    if es != [] {
      EdgesOfWithoutRel(es[1..], src, rel, other);
      var rest := WithoutRel(es[1..], src, rel);
      if !Outgoing(es[0], src, rel) {
        var s := [es[0]] + rest;
        assert s[0] == es[0] && s[1..] == rest;
        assert EdgesOf(s, src, other) == (if Outgoing(es[0], src, other) then [es[0]] else []) + EdgesOf(rest, src, other);
        assert EdgesOf(s, src, rel) == EdgesOf(rest, src, rel);
      } else {
        assert WithoutRel(es, src, rel) == rest;
        assert EdgesOf(es, src, other) == EdgesOf(es[1..], src, other) || other == rel;
      }
    }
  }

  // ---------------------------------------------------------------------

  class Store {
    var nodes: map<NodeId, PropertyBag>
    var edges: seq<Edge>

    constructor (nodes: map<NodeId, PropertyBag>, edges: seq<Edge>)
      ensures this.nodes == nodes && this.edges == edges
    {
      this.nodes := nodes;
      this.edges := edges;
    }

    /** `node.custom_properties = bag; node.save()`: the bag is replaced, not merged. */
    method SetProperties(id: NodeId, bag: PropertyBag)
      requires id in nodes
      modifies this
      ensures nodes == old(nodes)[id := bag] && edges == old(edges)
    {
      nodes := nodes[id := bag];
    }

    /** `node_class(custom_properties=bag).save()` with the element id the store allocated. */
    method CreateNode(id: NodeId, bag: PropertyBag)
      requires id !in nodes
      modifies this
      ensures nodes == old(nodes)[id := bag] && edges == old(edges)
    {
      nodes := nodes[id := bag];
    }

    /** `connect_nodes`: one more edge. */
    method Connect(src: NodeId, rel: string, tgt: NodeId, tgtLabel: string)
      modifies this
      ensures edges == old(edges) + [Edge(src, rel, tgt, tgtLabel)] && nodes == old(nodes)
    {
      edges := edges + [Edge(src, rel, tgt, tgtLabel)];
    }

    /** `disconnect_nodes`: every `rel` edge from `src` to `tgt` goes. */
    method Disconnect(src: NodeId, rel: string, tgt: NodeId)
      modifies this
      ensures edges == WithoutTargets(old(edges), src, rel, {tgt}) && nodes == old(nodes)
    {
      edges := WithoutTargets(edges, src, rel, {tgt});
    }
  }
}
