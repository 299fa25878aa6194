/**
 What the tour-graph builder guarantees: one node per stored file in upload
 order, ids "1".."N" without gaps or repeats, a backward link on every node
 but the first and a forward link on every node but the last, constant
 anchors by direction, and links that form exactly the symmetric chain
 i <-> i+1 over the nodes, so that no link dangles.
 */
module TourProperties {
  import opened Decimal
  import opened Tour

  /** Node `i` of `nodes` has a link whose target is the id of node `j`. */
  ghost predicate LinksTo(nodes: seq<Node>, i: int, j: int)
    requires 0 <= i < |nodes| && 0 <= j < |nodes|
  {
    exists k :: 0 <= k < |nodes[i].links| && nodes[i].links[k].nodeId == nodes[j].id
  }

  /** Some node of `nodes` has id `id`. */
  ghost predicate IsNodeId(nodes: seq<Node>, id: string) {
    exists j :: 0 <= j < |nodes| && nodes[j].id == id
  }

  /** The node at position `i` is the one the callback builds for index `i`. */
  lemma NodeAt(tourId: string, files: seq<string>, i: int)
    requires 0 <= i < |files|
    ensures BuildTour(tourId, files)[i] == MakeNode(i, |files|, PanoramaUrl(tourId, files[i]))
  {
  }

  /** A panorama URL names the stored file it was built from. */
  lemma PanoramaRoundTrip(tourId: string, filename: string)
    ensures FileOfUrl(tourId, PanoramaUrl(tourId, filename)) == Some(filename)
  {
  }

  /** One node per file, in upload order, each showing its own file under
      the tour's upload prefix; no files give no nodes. */
  lemma BuildTourPanoramas(tourId: string, files: seq<string>)
    ensures |BuildTour(tourId, files)| == |files|
    ensures files == [] ==> BuildTour(tourId, files) == []
    ensures forall i :: 0 <= i < |files| ==>
      && BuildTour(tourId, files)[i].panorama == PanoramaUrl(tourId, files[i])
      && FileOfUrl(tourId, BuildTour(tourId, files)[i].panorama) == Some(files[i])
  {
  }

  /** Ids and names: node `i` is number `i + 1` in decimal and its name is
      "Scene " followed by its id. */
  lemma BuildTourIds(tourId: string, files: seq<string>)
    ensures var r := BuildTour(tourId, files);
      forall i :: 0 <= i < |r| ==>
        && r[i].id == NatToString(i + 1)
        && DecimalValue(r[i].id) == i + 1
        && r[i].name == "Scene " + r[i].id
  {
  }

  /** No two nodes share an id. */
  lemma BuildTourIdsDistinct(tourId: string, files: seq<string>)
    ensures var r := BuildTour(tourId, files);
      forall i, j :: 0 <= i < |r| && 0 <= j < |r| && r[i].id == r[j].id ==> i == j
  {
  }

  /** The ids are exactly "1".."N": a string is a node id if and only if it
      is the canonical decimal of a number in 1..N. */
  lemma BuildTourIdsAreOneToN(tourId: string, files: seq<string>)
    ensures var r := BuildTour(tourId, files);
      forall s :: IsNodeId(r, s) <==> IsCanonical(s) && 1 <= DecimalValue(s) <= |r|
  {
    var r := BuildTour(tourId, files);
    forall s
      ensures IsNodeId(r, s) <==> IsCanonical(s) && 1 <= DecimalValue(s) <= |r|
    {
      if IsNodeId(r, s) {
        var j :| 0 <= j < |r| && r[j].id == s;
        ValueOfNatToString(j + 1);
      }
      if IsCanonical(s) && 1 <= DecimalValue(s) <= |r| {
        var j := DecimalValue(s) - 1;
        NatToStringOfValue(s);
        assert r[j].id == s;
      }
    }
  }

  /** Every link of node `i` is either the backward link to node `i - 1`,
      anchored at (1200,1800), or the forward link to node `i + 1`,
      anchored at (300,1800). */
  lemma BuildTourLinksAreChainLinks(tourId: string, files: seq<string>)
    ensures var r := BuildTour(tourId, files);
      forall i, k :: 0 <= i < |r| && 0 <= k < |r[i].links| ==>
        || (i > 0 && r[i].links[k] == Link(r[i - 1].id, BackwardAnchor))
        || (i < |r| - 1 && r[i].links[k] == Link(r[i + 1].id, ForwardAnchor))
  {
  }

  /** The backward link: every node but the first has one to its predecessor
      as its first link, and the first node has none. */
  lemma BuildTourBackwardLinks(tourId: string, files: seq<string>)
    ensures var r := BuildTour(tourId, files);
      forall i :: 0 < i < |r| ==>
        |r[i].links| >= 1 && r[i].links[0] == Link(r[i - 1].id, BackwardAnchor)
    ensures var r := BuildTour(tourId, files);
      forall i, k :: 0 <= i < |r| && 0 <= k < |r[i].links| && r[i].links[k].position == BackwardAnchor ==> i > 0
  {
  }

  /** The forward link: every node but the last has one to its successor as
      its last link, and the last node has none. */
  lemma BuildTourForwardLinks(tourId: string, files: seq<string>)
    ensures var r := BuildTour(tourId, files);
      forall i :: 0 <= i < |r| - 1 ==>
        |r[i].links| >= 1 && r[i].links[|r[i].links| - 1] == Link(r[i + 1].id, ForwardAnchor)
    ensures var r := BuildTour(tourId, files);
      forall i, k :: 0 <= i < |r| && 0 <= k < |r[i].links| && r[i].links[k].position == ForwardAnchor ==> i < |r| - 1
  {
  }

  /** Link counts: interior nodes have two links, backward then forward; the
      ends of a chain of two or more have one; a lone node has none. */
  lemma BuildTourLinkCounts(tourId: string, files: seq<string>)
    ensures var r := BuildTour(tourId, files);
      forall i :: 0 < i < |r| - 1 ==>
        && |r[i].links| == 2
        && r[i].links[0].position == BackwardAnchor
        && r[i].links[1].position == ForwardAnchor
    ensures var r := BuildTour(tourId, files);
      |r| >= 2 ==> |r[0].links| == 1 && |r[|r| - 1].links| == 1
    ensures var r := BuildTour(tourId, files);
      |r| == 1 ==> r[0].links == []
  {
  }

  /** One pair of nodes: `i` links to `j` exactly when they are neighbours. */
  lemma ChainAdjacencyAt(tourId: string, files: seq<string>, i: int, j: int)
    requires 0 <= i < |files| && 0 <= j < |files|
    ensures LinksTo(BuildTour(tourId, files), i, j) <==> j == i + 1 || i == j + 1
  {
    var r := BuildTour(tourId, files);
    NodeAt(tourId, files, i);
    NodeAt(tourId, files, j);
    var links := r[i].links;
    assert links == NodeLinks(i, |files|);
    assert r[j].id == NatToString(j + 1);
    if LinksTo(r, i, j) {
      var k :| 0 <= k < |links| && links[k].nodeId == r[j].id;
      if i > 0 && k == 0 {
        assert links[k].nodeId == NatToString(i);
        NatToStringInjective(i, j + 1);
      } else {
        assert links[k].nodeId == NatToString(i + 2);
        NatToStringInjective(i + 2, j + 1);
      }
    }
    if j == i + 1 {
      assert links[|links| - 1].nodeId == r[j].id;
    }
    if i == j + 1 {
      assert links[0].nodeId == r[j].id;
    }
  }

  /** The link relation of a built tour is exactly the undirected chain:
      node `i` links to node `j` if and only if they are neighbours. */
  lemma BuildTourChainAdjacency(tourId: string, files: seq<string>)
    ensures var r := BuildTour(tourId, files);
      forall i, j :: 0 <= i < |r| && 0 <= j < |r| ==>
        (LinksTo(r, i, j) <==> j == i + 1 || i == j + 1)
  {
    forall i, j | 0 <= i < |files| && 0 <= j < |files|
      ensures LinksTo(BuildTour(tourId, files), i, j) <==> j == i + 1 || i == j + 1
    {
      ChainAdjacencyAt(tourId, files, i, j);
    }
  }

  /** Links are symmetric: a link from `i` to `j` is matched by one from `j`
      back to `i`. */
  lemma BuildTourLinksSymmetric(tourId: string, files: seq<string>)
    ensures var r := BuildTour(tourId, files);
      forall i, j :: 0 <= i < |r| && 0 <= j < |r| && LinksTo(r, i, j) ==> LinksTo(r, j, i)
  {
    BuildTourChainAdjacency(tourId, files);
  }

  /** No link dangles: every link target is the id of a node of the tour,
      and never of the node the link starts from. */
  lemma BuildTourNoDanglingLinks(tourId: string, files: seq<string>)
    ensures var r := BuildTour(tourId, files);
      forall i, k :: 0 <= i < |r| && 0 <= k < |r[i].links| ==>
        IsNodeId(r, r[i].links[k].nodeId) && r[i].links[k].nodeId != r[i].id
  {
    var r := BuildTour(tourId, files);
    forall i, k | 0 <= i < |r| && 0 <= k < |r[i].links|
      ensures IsNodeId(r, r[i].links[k].nodeId) && r[i].links[k].nodeId != r[i].id
    {
      BuildTourLinksAreChainLinks(tourId, files);
      if i > 0 && r[i].links[k] == Link(r[i - 1].id, BackwardAnchor) {
        assert r[i - 1].id == r[i].links[k].nodeId;
        NatToStringInjective(i, i + 1);
      } else {
        assert r[i + 1].id == r[i].links[k].nodeId;
        NatToStringInjective(i + 2, i + 1);
      }
    }
  }

  /** The graph depends only on the number of files: ids, names and links
      are the same for any two uploads of equally many files. */
  lemma BuildTourShapeDependsOnlyOnCount(tourId1: string, files1: seq<string>, tourId2: string, files2: seq<string>)
    requires |files1| == |files2|
    ensures forall i :: 0 <= i < |files1| ==>
      && BuildTour(tourId1, files1)[i].id == BuildTour(tourId2, files2)[i].id
      && BuildTour(tourId1, files1)[i].name == BuildTour(tourId2, files2)[i].name
      && BuildTour(tourId1, files1)[i].links == BuildTour(tourId2, files2)[i].links
  {
  }

  /** Three files a.jpg, b.jpg, c.jpg give the chain 1 <-> 2 <-> 3. */
  lemma ThreeFileTour(tourId: string)
    ensures BuildTour(tourId, ["a.jpg", "b.jpg", "c.jpg"]) == [
      Node("1", PanoramaUrl(tourId, "a.jpg"), "Scene 1", [Link("2", Position(300, 1800))]),
      Node("2", PanoramaUrl(tourId, "b.jpg"), "Scene 2",
           [Link("1", Position(1200, 1800)), Link("3", Position(300, 1800))]),
      Node("3", PanoramaUrl(tourId, "c.jpg"), "Scene 3", [Link("2", Position(1200, 1800))])
    ]
  {
    var files := ["a.jpg", "b.jpg", "c.jpg"];
    var r := BuildTour(tourId, files);
    assert NatToString(1) == "1" && NatToString(2) == "2" && NatToString(3) == "3";
    NodeAt(tourId, files, 0);
    NodeAt(tourId, files, 1);
    NodeAt(tourId, files, 2);
    assert r[0].links == [Link("2", ForwardAnchor)];
    assert r[1].links == [Link("1", BackwardAnchor), Link("3", ForwardAnchor)];
    assert r[2].links == [Link("2", BackwardAnchor)];
    assert SceneName(1) == "Scene 1" && SceneName(2) == "Scene 2" && SceneName(3) == "Scene 3";
    assert r == [r[0], r[1], r[2]];
  }

  /** One file gives one node with no links. */
  lemma OneFileTour(tourId: string, file: string)
    ensures BuildTour(tourId, [file]) == [Node("1", PanoramaUrl(tourId, file), "Scene 1", [])]
  {
    assert NatToString(1) == "1";
    NodeAt(tourId, [file], 0);
    assert NodeLinks(0, 1) == [];
    assert SceneName(1) == "Scene 1";
  }
}
