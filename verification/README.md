# Virtual tour graph builder — Dafny model

The virtual-tour server accepts a batch of uploaded panorama images, stores
them under a fresh tour identifier, and turns the ordered list of stored
filenames into a tour graph. The graph is a list of nodes chained by
navigation links. This project models that graph builder, the only logic in
the upload handler (`index.js`). It proves what the builder guarantees:

- one node per file, in upload order;
- node ids "1".."N" with no gaps and no repeats;
- a backward link on every node but the first, anchored at (1200,1800);
- a forward link on every node but the last, anchored at (300,1800);
- links that form exactly the symmetric chain `i <-> i+1`, so no link dangles.

Files:

- `decimal.dfy` (module `Decimal`): the decimal rendering used by the
  template strings `${i + 1}`, and its inverse, a digit-string parser. The
  two are proved inverse in both directions, which gives injectivity.
- `tour.dfy` (module `Tour`): the `Position`, `Link` and `Node` records, the
  two anchor constants, the URL mapping and `BuildTour`. `BuildTour` mirrors
  the two `map` calls of the handler.
- `tour_properties.dfy` (module `TourProperties`): the lemmas about
  `BuildTour`.

The model takes the tour identifier and the stored filenames as inputs. The
handler itself gets them from the upload middleware.

## Model

| member | source | states |
|---|---|---|
| `Decimal.NatToString` | index.js:35 | The rendering of `i + 1` is a canonical decimal: non-empty, ASCII digits only, no leading zero. It starts with '0' exactly when the number is 0. It is one character long exactly when the number is below 10. |
| `Decimal.ValueOfNatToString` | index.js:35 | Parsing the rendered id gives back the number it was rendered from. |
| `Decimal.NatToStringOfValue` | index.js:35 | Every canonical decimal string is the rendering of its own value. This is the other direction of the round trip. |
| `Decimal.NatToStringInjective` | index.js:35 | Two numbers render to the same string if and only if they are equal. |
| `Tour.PanoramaUrl` | index.js:31 | A panorama URL is as long as the `/uploads/<tourId>/` prefix plus the stored filename. `TourProperties.PanoramaRoundTrip` shows that the filename can be read back from it. |
| `Tour.FileOfUrl` | index.js:31 | Recovering the filename from a URL succeeds exactly when the URL starts with `/uploads/<tourId>/`. The URL is then that prefix followed by the recovered filename. |
| `Tour.ImageUrls` | index.js:31 | The upload-URL list has one entry per stored file. |
| `Tour.SceneName` | index.js:37 | A scene name is "Scene " followed by a canonical decimal that reads back as the scene number. |
| `Tour.NodeLinks` | index.js:38-51 | The callback's link list for 0-based position `i` of `n` nodes has one link if `i > 0`, plus one more if `i < n - 1`. Only the first link can carry the backward anchor (1200,1800), and it does so exactly when `i > 0`. Every link target is a canonical decimal: a backward link targets scene number `i` and a forward link, anchored at (300,1800), targets scene number `i + 2`. |
| `Tour.BuildTour` | index.js:33-53 | The tour has exactly one node per input file. Node `i` is built by `Tour.MakeNode` (the node literal of index.js:34-52) from id `${i + 1}`, the `i`-th URL, `Tour.SceneName` and `Tour.NodeLinks`. |
| `TourProperties.PanoramaRoundTrip` | index.js:31 | The filename can be recovered from the panorama URL built for it. |
| `TourProperties.BuildTourPanoramas` | index.js:31-36 | As many nodes as files, in the same order. The node at `i` shows `/uploads/<tourId>/<files[i]>`, and `files[i]` can be recovered from it. The builder maps an empty list to an empty node list. |
| `TourProperties.BuildTourIds` | index.js:35-37 | The node at 0-based position `i` has id `NatToString(i + 1)`, and that id parses back to `i + 1`. Its name is `"Scene "` followed by its id. |
| `TourProperties.BuildTourIdsDistinct` | index.js:35 | No two nodes share an id. |
| `TourProperties.BuildTourIdsAreOneToN` | index.js:33-35 | A string is a node id if and only if it is the canonical decimal of a number in 1..N. The ids are therefore exactly "1".."N", with no gaps. |
| `TourProperties.BuildTourLinksAreChainLinks` | index.js:40-51 | Every link is one of two kinds. It is either the backward link to node `i-1` with anchor (1200,1800), or the forward link to node `i+1` with anchor (300,1800). |
| `TourProperties.BuildTourBackwardLinks` | index.js:40-45 | Every node after the first has, as its first link, a link to its predecessor's id anchored at (1200,1800). The first node has no link anchored at (1200,1800). |
| `TourProperties.BuildTourForwardLinks` | index.js:46-51 | Every node before the last has, as its last link, a link to its successor's id anchored at (300,1800). The last node has no link anchored at (300,1800). |
| `TourProperties.BuildTourLinkCounts` | index.js:38-51 | Interior nodes have exactly two links, backward first and forward second. The two ends of a chain of two or more nodes have one link each. A one-node tour has no links. |
| `TourProperties.ChainAdjacencyAt` | index.js:35-51 | For one pair of positions `i` and `j`, node `i` links to node `j` if and only if they are neighbours. |
| `TourProperties.BuildTourChainAdjacency` | index.js:35-51 | Node `i` links to node `j` if and only if `j = i + 1` or `i = j + 1`. The link relation is exactly the undirected chain. |
| `TourProperties.BuildTourLinksSymmetric` | index.js:40-51 | Whenever node `i` links to node `j`, node `j` links back to node `i`. |
| `TourProperties.BuildTourNoDanglingLinks` | index.js:42-48 | Every link target is the id of some node of the tour. No link targets its own node. |
| `TourProperties.BuildTourShapeDependsOnlyOnCount` | index.js:33-53 | Two uploads with the same number of files get the same ids, names and links at every position. Only the panorama URLs differ. |
| `TourProperties.ThreeFileTour` | index.js:33-53 | Files a.jpg, b.jpg, c.jpg give node "1" linking forward to "2", node "2" linking back to "1" and forward to "3", and node "3" linking back to "2". |
| `TourProperties.OneFileTour` | index.js:33-53 | A single file gives a single node "1" named "Scene 1" with no links. |

Equal inputs give equal outputs because `BuildTour` is a pure function.
No separate lemma states this.

## Left out

- Express setup, CORS, JSON body parsing and static file serving (index.js:8-13, 68). These are framework plumbing.
- Multer disk storage (index.js:15-27). This covers directory creation, `uuidv4()` identifier generation, stashing the identifier on the request, and `Date.now()`-based filenames. All of it is nondeterministic I/O, so the tour identifier and stored filenames are inputs of `BuildTour`.
- Writing `nodes.json` and returning `{ tourId }` (index.js:55-56). These are filesystem and HTTP effects. The model stops at the structured `seq<Node>` value, and JSON serialisation is not modelled.
- The lookup endpoint (index.js:59-66). It is only a file-existence check and a file read.
- The 20-file cap (index.js:29). The upload middleware enforces it, not the builder. The builder maps any number of files, and the model accepts any length.
- The listening port (index.js:9). The code hardcodes 5000 and has no environment override.
- The handler's failure on an upload with no files (index.js:55). The middleware then never runs the destination callback (index.js:16-21), so `req.tourId` stays undefined. The builder still returns an empty node list, but the write to `uploads/undefined/nodes.json` throws because that directory does not exist. The model covers only the builder's empty result.
- The handler's failure when `req.files` is unset (index.js:31). This happens on a request that is not multipart, and the `map` call then throws. The model always receives a filename list.
