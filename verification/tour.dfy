/**
 The tour-graph builder of the upload handler: an ordered list of stored
 image filenames, together with the tour identifier they were stored under,
 becomes a list of panorama nodes chained by backward and forward links.

 Node `i` (0-based) has id and name built from the decimal rendering of
 `i + 1`, a panorama URL under `/uploads/<tourId>/`, a backward link to the
 previous node when there is one and a forward link to the next node when
 there is one. The anchors of the links are fixed texture coordinates.
 */
module Tour {
  import opened Decimal

  datatype Option<T> = None | Some(value: T)

  /** Texture coordinates at which a link is drawn on a panorama. */
  datatype Position = Position(textureX: int, textureY: int)

  /** A directed navigation link to the node whose id is `nodeId`. */
  datatype Link = Link(nodeId: string, position: Position)

  /** One panorama scene of a tour. */
  datatype Node = Node(id: string, panorama: string, name: string, links: seq<Link>)

  /** Anchor of every link back to the previous scene. */
  const BackwardAnchor: Position := Position(1200, 1800)

  /** Anchor of every link on to the next scene. */
  const ForwardAnchor: Position := Position(300, 1800)

  /** The URL path under which the files of tour `tourId` are served. */
  function UploadPrefix(tourId: string): string {
    "/uploads/" + tourId + "/"
  }

  /** The URL of the stored file `filename` of tour `tourId`. */
  function PanoramaUrl(tourId: string, filename: string): (url: string)
    ensures |url| == |UploadPrefix(tourId)| + |filename|
  {
    UploadPrefix(tourId) + filename
  }

  /** The stored filename a URL of tour `tourId` points at, or None when the
      URL is not under that tour's upload prefix. Inverse of `PanoramaUrl`. */
  function FileOfUrl(tourId: string, url: string): (f: Option<string>)
    ensures f.Some? <==> |UploadPrefix(tourId)| <= |url| && url[..|UploadPrefix(tourId)|] == UploadPrefix(tourId)
    ensures f.Some? ==> url == UploadPrefix(tourId) + f.value
  {
    var prefix := UploadPrefix(tourId);
    if |prefix| <= |url| && url[..|prefix|] == prefix then Some(url[|prefix|..]) else None
  }

  /** The URLs of the stored files, in upload order. */
  function ImageUrls(tourId: string, files: seq<string>): (urls: seq<string>)
    ensures |urls| == |files|
  {
    seq(|files|, i requires 0 <= i < |files| => PanoramaUrl(tourId, files[i]))
  }

  /** The display name of the scene numbered `k` (1-based): "Scene "
      followed by the decimal of `k`, which reads back as `k`. */
  function SceneName(k: nat): (name: string)
    ensures |name| > 6 && name[..6] == "Scene "
    ensures IsCanonical(name[6..]) && DecimalValue(name[6..]) == k
  {
    ValueOfNatToString(k);
    var name := "Scene " + NatToString(k);
    assert name[6..] == NatToString(k);
    name
  }

  /** The links of the node at 0-based position `i` of a tour of `n` nodes:
      first the backward link, if any, then the forward link, if any. A
      backward link targets scene number `i` and a forward link targets
      scene number `i + 2`, i.e. the neighbours of scene number `i + 1`. */
  function NodeLinks(i: nat, n: nat): (links: seq<Link>)
    ensures |links| == (if i > 0 then 1 else 0) + (if i < n - 1 then 1 else 0)
    ensures forall k :: 0 <= k < |links| ==>
      (links[k].position == BackwardAnchor <==> k == 0 && i > 0)
    ensures forall k :: 0 <= k < |links| ==>
      && IsCanonical(links[k].nodeId)
      && (|| (links[k].position == BackwardAnchor && DecimalValue(links[k].nodeId) == i)
          || (links[k].position == ForwardAnchor && DecimalValue(links[k].nodeId) == i + 2))
  {
    ValueOfNatToString(i);
    ValueOfNatToString(i + 2);
    var back := if i > 0 then [Link(NatToString(i), BackwardAnchor)] else [];
    var forward := if i < n - 1 then [Link(NatToString(i + 2), ForwardAnchor)] else [];
    back + forward
  }

  /** The node at 0-based position `i` of a tour of `n` nodes. */
  function MakeNode(i: nat, n: nat, url: string): Node {
    Node(NatToString(i + 1), url, SceneName(i + 1), NodeLinks(i, n))
  }

  /** The tour graph of the stored files `files` of tour `tourId`. */
  function BuildTour(tourId: string, files: seq<string>): (nodes: seq<Node>)
    ensures |nodes| == |files|
  {
    var urls := ImageUrls(tourId, files);
    seq(|urls|, i requires 0 <= i < |urls| => MakeNode(i, |urls|, urls[i]))
  }
}
