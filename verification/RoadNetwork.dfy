/** The road network, its adjacency lists, and the partition that every node and link belongs to. */
module RoadNetwork {
  import opened Basics

  datatype Node = Node(inLinks: seq<LinkId>, outLinks: seq<LinkId>, part: Part)

  datatype NetLink = NetLink(
    from: NodeId, to: NodeId, length: real, capacity: real, freeSpeed: real, lanes: real, part: Part)

  datatype RoadNet = RoadNet(nodes: map<NodeId, Node>, links: map<LinkId, NetLink>)

  ghost predicate NoDuplicates(s: seq<LinkId>)
  {
    forall i, j :: 0 <= i < j < |s| ==> s[i] != s[j]
  }

  /** The lists of node n name exactly the links that lead to it and away from it, once each. */
  ghost predicate NodeWired(g: RoadNet, n: NodeId)
    requires n in g.nodes
  {
    && NoDuplicates(g.nodes[n].inLinks) && NoDuplicates(g.nodes[n].outLinks)
    && (forall l :: l in g.nodes[n].inLinks <==> l in g.links && g.links[l].to == n)
    && (forall l :: l in g.nodes[n].outLinks <==> l in g.links && g.links[l].from == n)
  }

  /** The two end nodes of link l are nodes of the network. */
  predicate EndsKnown(g: RoadNet, l: LinkId)
  {
    l in g.links && g.links[l].from in g.nodes && g.links[l].to in g.nodes
  }

  ghost predicate Closed(g: RoadNet)
  {
    forall l :: l in g.links ==> EndsKnown(g, l)
  }

  /** Every link is listed exactly once at each of its two end nodes, and nothing else is listed. */
  ghost predicate Wired(g: RoadNet)
  {
    && Closed(g)
    && (forall n :: n in g.nodes ==> NodeWired(g, n))
  }

  /** A link belongs to the partition of the node it leads to. */
  ghost predicate OwnedByToNode(g: RoadNet)
  {
    forall l :: l in g.links ==> g.links[l].to in g.nodes && g.links[l].part == g.nodes[g.links[l].to].part
  }

  function FromPart(g: RoadNet, l: LinkId): (p: Part)
    requires EndsKnown(g, l)
  {
    g.nodes[g.links[l].from].part
  }

  function ToPart(g: RoadNet, l: LinkId): (p: Part)
    requires EndsKnown(g, l)
  {
    g.nodes[g.links[l].to].part
  }

  /** The elements of s other than x, in order. */
  function Without(s: seq<LinkId>, x: LinkId): (r: seq<LinkId>)
    ensures forall y :: y in r <==> y in s && y != x
  {
    if s == [] then []
    else if s[0] == x then Without(s[1..], x)
    else [s[0]] + Without(s[1..], x)
  }

  lemma {:induction false} WithoutOnce(s: seq<LinkId>, x: LinkId)
    requires NoDuplicates(s)
    ensures NoDuplicates(Without(s, x))
    ensures |Without(s, x)| == |s| - (if x in s then 1 else 0)
  {
    if s != [] {
      assert NoDuplicates(s[1..]) by {
        forall i, j | 0 <= i < j < |s[1..]|
          ensures s[1..][i] != s[1..][j]
        {
          assert s[1..][i] == s[i + 1] && s[1..][j] == s[j + 1];
        }
      }
      WithoutOnce(s[1..], x);
      assert s[0] !in s[1..];
      if s[0] != x {
        var rest := Without(s[1..], x);
        forall i, j | 0 <= i < j < |[s[0]] + rest|
          ensures ([s[0]] + rest)[i] != ([s[0]] + rest)[j]
        {
          assert ([s[0]] + rest)[j] == rest[j - 1] && rest[j - 1] in rest;
        }
      }
    }
  }

  // ------------------------------------------------------------------ edits, as functions

  function WithLink(g: RoadNet, id: LinkId, l: NetLink): (r: RoadNet)
    requires l.from in g.nodes && l.to in g.nodes
  {
    var nodes1 := g.nodes[l.from := g.nodes[l.from].(outLinks := g.nodes[l.from].outLinks + [id])];
    var nodes2 := nodes1[l.to := nodes1[l.to].(inLinks := nodes1[l.to].inLinks + [id])];
    RoadNet(nodes2, g.links[id := l])
  }

  function WithoutLink(g: RoadNet, id: LinkId): (r: RoadNet)
    requires id in g.links && g.links[id].from in g.nodes && g.links[id].to in g.nodes
  {
    var l := g.links[id];
    var nodes1 := g.nodes[l.from := g.nodes[l.from].(outLinks := Without(g.nodes[l.from].outLinks, id))];
    var nodes2 := nodes1[l.to := nodes1[l.to].(inLinks := Without(nodes1[l.to].inLinks, id))];
    RoadNet(nodes2, g.links - {id})
  }

  lemma {:induction false} AppendedOnce(s: seq<LinkId>, x: LinkId)
    requires NoDuplicates(s) && x !in s
    ensures NoDuplicates(s + [x])
    ensures forall y :: y in s + [x] <==> y in s || y == x
  {
  }

  lemma {:induction false} WithLinkWired(g: RoadNet, id: LinkId, l: NetLink)
    requires Wired(g) && id !in g.links && l.from in g.nodes && l.to in g.nodes
    ensures Wired(WithLink(g, id, l))
  {
    hide NodeWired;
    var h := WithLink(g, id, l);
    forall n | n in h.nodes
      ensures NodeWired(h, n)
    {
      WithLinkNode(g, id, l, n);
    }
  }

  lemma {:induction false} WithLinkNode(g: RoadNet, id: LinkId, l: NetLink, n: NodeId)
    requires id !in g.links && l.from in g.nodes && l.to in g.nodes && n in g.nodes && NodeWired(g, n)
    ensures NodeWired(WithLink(g, id, l), n)
  {
    var h := WithLink(g, id, l);
    var was, later := g.nodes[n], h.nodes[n];
    assert later.outLinks == if n == l.from then was.outLinks + [id] else was.outLinks;
    assert later.inLinks == if n == l.to then was.inLinks + [id] else was.inLinks;
    AppendedOnce(was.outLinks, id);
    AppendedOnce(was.inLinks, id);
    assert forall k :: k in h.links <==> k in g.links || k == id;
    assert h.links[id] == l && forall k :: k in g.links ==> h.links[k] == g.links[k];
    hide WithLink, NoDuplicates;
  }

  lemma {:induction false} WithoutLinkWired(g: RoadNet, id: LinkId)
    requires Wired(g) && id in g.links
    ensures Wired(WithoutLink(g, id))
  {
    hide NodeWired;
    var h := WithoutLink(g, id);
    forall n | n in h.nodes
      ensures NodeWired(h, n)
    {
      WithoutLinkNode(g, id, n);
    }
  }

  lemma {:induction false} WithoutLinkNode(g: RoadNet, id: LinkId, n: NodeId)
    requires EndsKnown(g, id) && n in g.nodes && NodeWired(g, n)
    ensures NodeWired(WithoutLink(g, id), n)
  {
    var h := WithoutLink(g, id);
    var was, later := g.nodes[n], h.nodes[n];
    assert later.outLinks == if n == g.links[id].from then Without(was.outLinks, id) else was.outLinks;
    assert later.inLinks == if n == g.links[id].to then Without(was.inLinks, id) else was.inLinks;
    WithoutOnce(was.outLinks, id);
    WithoutOnce(was.inLinks, id);
    assert forall k :: k in h.links <==> k in g.links && k != id;
    assert forall k :: k in h.links ==> h.links[k] == g.links[k];
    hide WithoutLink, Without, NoDuplicates;
  }

  /** Adding a link and removing it again restores the network. */
  lemma {:induction false} RemoveUndoesAdd(g: RoadNet, id: LinkId, l: NetLink)
    requires Wired(g) && id !in g.links && l.from in g.nodes && l.to in g.nodes
    ensures WithoutLink(WithLink(g, id, l), id) == g
  {
    assert id !in g.nodes[l.from].outLinks && id !in g.nodes[l.to].inLinks by {
      assert NodeWired(g, l.from) && NodeWired(g, l.to);
    }
    UndoIn(g, id, l);
  }

  lemma {:induction false} UndoIn(g: RoadNet, id: LinkId, l: NetLink)
    requires id !in g.links && l.from in g.nodes && l.to in g.nodes
    requires id !in g.nodes[l.from].outLinks && id !in g.nodes[l.to].inLinks
    ensures WithoutLink(WithLink(g, id, l), id) == g
  {
    WithoutAppended(g.nodes[l.from].outLinks, id);
    WithoutAppended(g.nodes[l.to].inLinks, id);
    hide Without;
    var h := WithLink(g, id, l);
    var r := WithoutLink(h, id);
    forall n | n in g.nodes
      ensures r.nodes[n].inLinks == g.nodes[n].inLinks && r.nodes[n].outLinks == g.nodes[n].outLinks
      ensures r.nodes[n].part == g.nodes[n].part
    {
    }
    assert r.nodes == g.nodes;
    assert r.links == g.links;
  }

  lemma {:induction false} WithoutAppended(s: seq<LinkId>, x: LinkId)
    requires x !in s
    ensures Without(s + [x], x) == s
  {
    if s == [] {
      assert [] + [x] == [x];
      assert Without([x], x) == Without([x][1..], x);
    } else {
      assert (s + [x])[1..] == s[1..] + [x];
      WithoutAppended(s[1..], x);
    }
  }

  predicate Touches(l: NetLink, n: NodeId)
  {
    l.from == n || l.to == n
  }

  /** The links that do not touch node n, and those still to be removed. */
  function KeptLinks(all: map<LinkId, NetLink>, todo: set<LinkId>, n: NodeId): (r: map<LinkId, NetLink>)
  {
    map l | l in all && (l in todo || !Touches(all[l], n)) :: all[l]
  }

  lemma {:induction false} KeptLinksStep(all: map<LinkId, NetLink>, todo: set<LinkId>, n: NodeId, l: LinkId)
    requires l in todo && todo <= all.Keys && Touches(all[l], n)
    ensures KeptLinks(all, todo, n) - {l} == KeptLinks(all, todo - {l}, n)
    ensures l in KeptLinks(all, todo, n)
  {
  }

  lemma {:induction false} KeptLinksStart(g: RoadNet, n: NodeId, todo: set<LinkId>)
    requires Wired(g) && n in g.nodes && todo == set l | l in g.nodes[n].inLinks + g.nodes[n].outLinks
    ensures todo <= g.links.Keys && forall l :: l in todo ==> Touches(g.links[l], n)
    ensures KeptLinks(g.links, todo, n) == g.links
  {
    assert NodeWired(g, n);
    forall l | l in g.links
      ensures l in todo || !Touches(g.links[l], n)
    {
    }
  }

  lemma {:induction false} NoneTouches(all: map<LinkId, NetLink>, n: NodeId)
    ensures forall l :: l in KeptLinks(all, {}, n) ==> !Touches(KeptLinks(all, {}, n)[l], n)
  {
  }

  lemma {:induction false} IsolatedNode(g: RoadNet, id: NodeId)
    requires Wired(g) && forall l :: l in g.links ==> !Touches(g.links[l], id)
    ensures Wired(RoadNet(g.nodes - {id}, g.links))
  {
    var h := RoadNet(g.nodes - {id}, g.links);
    forall n | n in h.nodes
      ensures NodeWired(h, n)
    {
      assert NodeWired(g, n);
    }
  }

  class Network {
    var nodes: map<NodeId, Node>
    var links: map<LinkId, NetLink>

    function View(): (g: RoadNet)
      reads this
    {
      RoadNet(nodes, links)
    }

    constructor ()
      ensures View() == RoadNet(map[], map[])
      ensures Wired(View())
    {
      nodes, links := map[], map[];
    }

    method AddNode(id: NodeId, part: Part)
      requires Wired(View()) && id !in nodes
      modifies this
      ensures View() == RoadNet(old(nodes)[id := Node([], [], part)], old(links))
      ensures Wired(View())
    {
      nodes := nodes[id := Node([], [], part)];
    }

    method AddLink(id: LinkId, l: NetLink)
      requires Wired(View()) && id !in links && l.from in nodes && l.to in nodes
      modifies this
      ensures View() == WithLink(old(View()), id, l)
      ensures Wired(View())
    {
      WithLinkWired(View(), id, l);
      nodes := nodes[l.from := nodes[l.from].(outLinks := nodes[l.from].outLinks + [id])];
      nodes := nodes[l.to := nodes[l.to].(inLinks := nodes[l.to].inLinks + [id])];
      links := links[id := l];
    }

    /** The source asserts that the link is listed exactly once at each end; here that is proved. */
    method RemoveLink(id: LinkId)
      requires Wired(View()) && id in links
      modifies this
      ensures View() == WithoutLink(old(View()), id)
      ensures nodes.Keys == old(nodes).Keys && links == old(links) - {id}
      ensures Wired(View())
    {
      WithoutLinkWired(View(), id);
      var l := links[id];
      assert NodeWired(View(), l.from) && NodeWired(View(), l.to);
      links := links - {id};
      WithoutOnce(nodes[l.from].outLinks, id);
      WithoutOnce(nodes[l.to].inLinks, id);
      var before := |nodes[l.from].outLinks|;
      nodes := nodes[l.from := nodes[l.from].(outLinks := Without(nodes[l.from].outLinks, id))];
      assert before - |nodes[l.from].outLinks| == 1;
      before := |nodes[l.to].inLinks|;
      nodes := nodes[l.to := nodes[l.to].(inLinks := Without(nodes[l.to].inLinks, id))];
      assert before - |nodes[l.to].inLinks| == 1;
    }

    /** Removing a node removes exactly the links that touch it, and leaves the rest wired. */
    method RemoveNode(id: NodeId)
      requires Wired(View()) && id in nodes
      modifies this
      ensures Wired(View())
      ensures nodes.Keys == old(nodes).Keys - {id}
      ensures links == KeptLinks(old(links), {}, id)
    {
      hide NodeWired, KeptLinks, WithoutLink, Touches;
      var todo := set l | l in nodes[id].inLinks + nodes[id].outLinks;
      KeptLinksStart(View(), id, todo);
      ghost var all := links;
      while todo != {}
        invariant Wired(View()) && id in nodes && nodes.Keys == old(nodes).Keys
        invariant todo <= all.Keys
        invariant forall l :: l in todo ==> Touches(all[l], id)
        invariant links == KeptLinks(all, todo, id)
        decreases |todo|
      {
        var l :| l in todo;
        KeptLinksStep(all, todo, id, l);
        RemoveLink(l);
        todo := todo - {l};
      }
      NoneTouches(all, id);
      IsolatedNode(View(), id);
      nodes := nodes - {id};
    }

    method AssignLinks(mine: seq<LinkId>, part: Part)
      requires forall i :: 0 <= i < |mine| ==> mine[i] in links
      modifies this
      ensures nodes == old(nodes)
      ensures links == map l | l in old(links) :: if l in mine then old(links)[l].(part := part) else old(links)[l]
    {
      ghost var ls := links;
      for i := 0 to |mine|
        invariant nodes == old(nodes)
        invariant links == map l | l in ls :: if l in mine[..i] then ls[l].(part := part) else ls[l]
      {
        links := links[mine[i] := links[mine[i]].(part := part)];
        assert mine[..i + 1] == mine[..i] + [mine[i]];
      }
      assert mine[..|mine|] == mine;
    }

    /** Gives node n, and the links that lead to it, a partition. */
    method AssignNode(n: NodeId, part: Part, ghost parts: map<NodeId, Part>, ghost g: RoadNet, ghost done: set<NodeId>)
      requires Wired(g) && g.nodes.Keys <= parts.Keys && n in g.nodes && n !in done && part == parts[n]
      requires View() == Assigned(g, parts, done)
      modifies this
      ensures View() == Assigned(g, parts, done + {n})
    {
      hide NodeWired, Assigned;
      assert Covered(g, parts);
      InLinksOf(g, n);
      hide Wired;
      AssignedStep(g, parts, done, n, g.nodes[n].inLinks);
      nodes := nodes[n := nodes[n].(part := part)];
      AssignLinks(nodes[n].inLinks, part);
    }

    /** Gives every node its partition and every link the partition of the node it leads to. */
    method PartitionNetwork(parts: map<NodeId, Part>)
      requires Wired(View()) && nodes.Keys <= parts.Keys
      modifies this
      ensures Wired(View()) && OwnedByToNode(View())
      ensures View() == Assigned(old(View()), parts, old(nodes).Keys)
    {
      ghost var g := View();
      var todo := nodes.Keys;
      while todo != {}
        invariant todo <= g.nodes.Keys
        invariant View() == Assigned(g, parts, g.nodes.Keys - todo)
        decreases todo
      {
        var n :| n in todo;
        AssignNode(n, parts[n], parts, g, g.nodes.Keys - todo);
        assert g.nodes.Keys - (todo - {n}) == g.nodes.Keys - todo + {n};
        todo := todo - {n};
      }
      assert g.nodes.Keys - todo == g.nodes.Keys;
      AssignedWired(g, parts);
    }
  }

  lemma {:induction false} InLinksOf(g: RoadNet, n: NodeId)
    requires Wired(g) && n in g.nodes
    ensures forall l :: l in g.nodes[n].inLinks <==> l in g.links && g.links[l].to == n
    ensures forall i :: 0 <= i < |g.nodes[n].inLinks| ==> g.nodes[n].inLinks[i] in g.links
  {
    assert NodeWired(g, n);
    var mine := g.nodes[n].inLinks;
    assert forall i :: 0 <= i < |mine| ==> mine[i] in mine;
  }

  ghost predicate Covered(g: RoadNet, parts: map<NodeId, Part>)
  {
    g.nodes.Keys <= parts.Keys && forall l :: l in g.links ==> g.links[l].to in parts
  }

  /** The network after the nodes in done, and the links that lead to them, have their partition. */
  ghost function Assigned(g: RoadNet, parts: map<NodeId, Part>, done: set<NodeId>): (r: RoadNet)
    requires Covered(g, parts)
  {
    RoadNet(
      map n | n in g.nodes :: if n in done then g.nodes[n].(part := parts[n]) else g.nodes[n],
      map l | l in g.links :: if g.links[l].to in done then g.links[l].(part := parts[g.links[l].to]) else g.links[l])
  }

  lemma {:induction false} AssignedStep(g: RoadNet, parts: map<NodeId, Part>, done: set<NodeId>, n: NodeId, mine: seq<LinkId>)
    requires Covered(g, parts) && n in g.nodes && n !in done
    requires forall l :: l in mine <==> l in g.links && g.links[l].to == n
    ensures var a, b := Assigned(g, parts, done), Assigned(g, parts, done + {n});
            && n in a.nodes && a.nodes[n].inLinks == g.nodes[n].inLinks && a.links.Keys == g.links.Keys
            && b.nodes == a.nodes[n := a.nodes[n].(part := parts[n])]
            && b.links == map l | l in a.links :: if l in mine then a.links[l].(part := parts[n]) else a.links[l]
  {
    var a, b := Assigned(g, parts, done), Assigned(g, parts, done + {n});
    forall l | l in g.links
      ensures b.links[l] == if l in mine then a.links[l].(part := parts[n]) else a.links[l]
    {
    }
  }

  lemma {:induction false} AssignedWired(g: RoadNet, parts: map<NodeId, Part>)
    requires Wired(g) && g.nodes.Keys <= parts.Keys
    ensures Wired(Assigned(g, parts, g.nodes.Keys)) && OwnedByToNode(Assigned(g, parts, g.nodes.Keys))
  {
    var h := Assigned(g, parts, g.nodes.Keys);
    forall n | n in h.nodes
      ensures NodeWired(h, n)
    {
      AssignedNodeWired(g, parts, n);
    }
  }

  lemma {:induction false} AssignedNodeWired(g: RoadNet, parts: map<NodeId, Part>, n: NodeId)
    requires Covered(g, parts) && n in g.nodes && NodeWired(g, n)
    ensures NodeWired(Assigned(g, parts, g.nodes.Keys), n)
  {
  }
}
