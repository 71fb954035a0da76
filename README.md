# 6.009 labs: images, Bacon numbers and HyperMines, modelled in Dafny

This project models the sequential core of three labs of the 6.009 course.

* **`images.dfy`, module `Images`** (lab 1). A grayscale `Image` holds a `width`, a `height` and a row-major `pixels` list. The module covers:
  * index arithmetic and pixel lookup;
  * edge clamping for out-of-range coordinates;
  * in-place `set_pixel`;
  * the per-pixel map and inversion;
  * correlation with an integer kernel;
  * clipping to `[0, 255]`.

  `new` and `_clip` build their pixel lists with comprehensions, as the original does. `apply_per_pixel` and `correlate` fill a fresh `Image` with the original's nested loops. Each method is proved against a specification of the finished image.
* **`bacon.dfy`, module `Bacon`** (lab 2). Records `(id1, id2, film)` are turned into an undirected actor graph, a `map<int, set<int>>`. Two breadth-first searches start from Kevin Bacon's id, 4724:
  * one returns the actors at Bacon number `n`;
  * the other returns a shortest path from Bacon to a given actor.

  Round `n` of the search is specified by `Within(g, n)`: the actors reached in at most `n` rounds. Layer `n` is `Within(g, n) - Within(g, n - 1)`. Lemmas connect these sets to paths in the graph: a layer is exactly the set of actors whose shortest path has `n` steps. Both searches are proved against that specification.
* **`hyper_coords.dfy`, module `HyperCoords`** (lab 3). Boards of any number of dimensions are nested lists, written as a `Grid<T>` that is either a `Cell` or a `Row` of sub-grids. The module provides:
  * `make_board`;
  * lookup and update at a coordinate;
  * bounds checking;
  * the neighbours of a square.
* **`hyper_mines.dfy`, module `HyperMines`** (lab 3). The class `HyperMinesGame` has the four attributes `dimensions`, `board`, `mask` and `state`, and the methods:
  * `dig`, whose recursive flood fill reveals squares and which updates the game state;
  * `render`, with its `xray` switch;
  * `is_victory`;
  * `get_coords` and `set_coords`;
  * the two ways of building a game: the constructor and `from_dict`.

  The lab's bodies are stubs. Their behaviour is taken from the doc-comments of `labs/lab3/lab.py`.

`wrappers.dfy` holds the `Option` type used for Python's `None` results.

Two modelling choices in lab 3 fill gaps the doc-comments leave open:
* **Neighbours.** A neighbour of a square is every in-bounds coordinate that differs by at most 1 in each component, other than the square itself.
* **What `dig` reveals.** The doc-comment describes the flood fill only loosely, so `FloodFilled` states what it reveals:
  * the dug square is shown;
  * nothing shown before is hidden afterwards;
  * every newly shown blank square (a safe square with no neighbouring bombs) has all its neighbours shown;
  * every other newly shown square is a neighbour of a newly shown blank square;
  * nothing more is shown: every mask that keeps the old squares, shows the dug square and shows the neighbours of each newly shown blank square also shows everything the dig shows (`Least`).

  The last clause makes the dig's mask the smallest mask obeying the rules, so there is exactly one (`FloodUnique`).

## Model

| member | source | states |
|---|---|---|
| Images.Image.constructor | labs/lab1/lab.py:23-26 | the three attributes are exactly the arguments |
| Images.Image.New | labs/lab1/lab.py:175-182 | a fresh, well-formed image of the given width and height whose every pixel is 0 |
| Images.Image.GetIndex | labs/lab1/lab.py:28-32 | for in-bounds (x, y) the row-major index lies in [0, width*height) |
| Images.RowMajorBound | labs/lab1/lab.py:28-32 | in-bounds coordinates give an index inside the pixel list |
| Images.RowMajorInjective | labs/lab1/lab.py:28-32 | two in-bounds coordinates with the same row-major index are the same coordinate |
| Images.RowMajorCover | labs/lab1/lab.py:28-32 | every index of the pixel list is the row-major index of an in-bounds coordinate |
| Images.ListSlot | labs/lab1/lab.py:38 | a Python list index in [-n, n) names slot i, or slot n + i when negative |
| Images.Image.GetPixel | labs/lab1/lab.py:34-38 | for in-bounds (x, y) the pixel is the list entry at y*width + x |
| Images.TransformCoordinate | labs/lab1/lab.py:40-45 | when max_x >= 1 the result lies in [0, max_x-1]; it is the identity on in-range x; below the range it is 0 and above it max_x-1 |
| Images.Image.GetUnboundedPixel | labs/lab1/lab.py:47-53 | the pixel at the clamped coordinate, and get_pixel itself for in-bounds coordinates |
| Images.UnboundedPixelExample | labs/lab1/test.py:63-72 | the nine clamped lookups of the 3-by-3 test image give 21, 57, 167, 215, 32, 209, 2, 98, 182 |
| Images.Image.SetPixel | labs/lab1/lab.py:55-59 | only the addressed slot of the pixel list changes; width and height stay; the pixel at (x, y) becomes c and every other pixel keeps its value |
| Images.Image.Equals | labs/lab1/lab.py:143-145 | two well-formed images are equal iff they have the same width and height and agree on every pixel |
| Images.Image.PixelwiseToList | labs/lab1/lab.py:143-145 | images of one size that agree on every pixel have equal pixel lists |
| Images.Image.ApplyPerPixel | labs/lab1/lab.py:61-71 | a fresh image of the same size whose every pixel is func of the old pixel; the receiver is not modified |
| Images.Image.Inverted | labs/lab1/lab.py:73-77 | a fresh image of the same size whose every pixel is 255 minus the old one |
| Images.InvertedExample | labs/lab1/test.py:46-50 | inverting [24, 93, 140, 197] gives [231, 162, 115, 58] |
| Images.InvertTwice | labs/lab1/lab.py:73-77 | inverting twice gives an image equal to the original |
| Images.Image.WeightedSum | labs/lab1/lab.py:90-93 | the dx/dy accumulation equals the kernel-weighted sum of clamped pixels around (base_x, base_y) |
| Images.Image.CorrelateColumn | labs/lab1/lab.py:88-94 | column base_x of the result gets its weighted sums; every other column keeps its value |
| Images.Image.Correlate | labs/lab1/lab.py:79-95 | a fresh image of the same size whose pixel (x, y) is the sum over dx, dy of unbounded(x-c+dx, y-c+dy) * k[dy][dx], with c = len(k)//2; the input is not modified |
| Images.IdentityWindow | labs/lab1/test.py:77-79 | the weighted sum under the 3-by-3 identity kernel is the pixel itself |
| Images.CorrelateIdentity | labs/lab1/test.py:89-97 | correlating with the identity kernel gives an image equal to the input |
| Images.ClipValue | labs/lab1/lab.py:101-105 | the result lies in [0, 255]; values in range are unchanged; values below give 0 and above give 255 |
| Images.Image.Clip | labs/lab1/lab.py:97-105 | a fresh image with the same width, height and pixel count; every pixel is within [0, 255] and in-range pixels are kept |
| Bacon.DidActTogether | labs/lab2/lab.py:8-12 | true iff some record has ids (a, b) or (b, a) |
| Bacon.ActedTogetherSymmetric | labs/lab2/lab.py:8-12 | the pair test is symmetric in the two actors |
| Bacon.InvertDict | labs/lab2/lab.py:15-17 | the keys of the inverse are the values of d, and d maps inverse[v] back to v |
| Bacon.InvertTwice | labs/lab2/lab.py:15-17 | for an injective dictionary, inverting twice gives it back |
| Bacon.GetValue | labs/lab2/lab.py:20-22 | a value exactly when the key is present, and then the stored one |
| Bacon.LookupInverted | labs/lab2/lab.py:15-22 | looking up the inverse at a value of d, then d at the result, gives that value |
| Bacon.GetActorGraph | labs/lab2/lab.py:25-31 | the loop builds exactly the graph ActorGraph describes |
| Bacon.ActorGraphSpec | labs/lab2/lab.py:25-31 | the keys are exactly the actors that occur in some record, and b is in graph[a] iff some record pairs a and b |
| Bacon.OccursInGraph | labs/lab2/lab.py:25-31 | an actor is a key of the graph iff it occurs in a record |
| Bacon.ActedTogetherExtend | labs/lab2/lab.py:26-30 | one more record adds exactly its own pair to the act-together relation |
| Bacon.ActorGraphSymmetric | labs/lab2/lab.py:25-31 | the graph is symmetric: b in graph[a] implies a in graph[b] |
| Bacon.ActorGraphClosed | labs/lab2/lab.py:25-31 | every co-star listed in the graph is itself a key |
| Bacon.Within | labs/lab2/lab.py:34-46 | Bacon is reached in every round |
| Bacon.WithinMonotone | labs/lab2/lab.py:39-45 | later rounds only add actors |
| Bacon.PathInWithin | labs/lab2/lab.py:39-45 | the end of a walk from Bacon of k steps is reached by round k |
| Bacon.WithinHasPath | labs/lab2/lab.py:39-45 | every actor reached by round n has a walk from Bacon of at most n steps |
| Bacon.WithinIffReachable | labs/lab2/lab.py:39-45 | an actor is reached by round n iff some walk from Bacon to it has at most n steps |
| Bacon.LayerIsBaconNumber | labs/lab2/lab.py:34-46 | an actor is in layer n iff their shortest walk from Bacon has exactly n steps |
| Bacon.LayersAreBaconNumbers | labs/lab2/lab.py:34-46 | layer n is exactly the set of actors with Bacon number n |
| Bacon.NextLayer | labs/lab2/lab.py:40-43 | round n is the rounds before plus layer n, and layer n+1 is the co-stars of layer n not reached by round n |
| Bacon.WithinStable | labs/lab2/lab.py:44-45 | once a round adds nobody, no later round does |
| Bacon.EmptyLayerStays | labs/lab2/lab.py:44-45 | once a layer is empty every later layer is empty, so the early break returns the right set |
| Bacon.ExpandFrontier | labs/lab2/lab.py:41-42 | the frontier grows by exactly the co-stars of its members |
| Bacon.GetActorsWithBaconNumber | labs/lab2/lab.py:34-46 | n = 0 gives {4724}; for every n the result is exactly the actors with Bacon number n, so it is empty when nobody is that far and holds nobody nearer |
| Bacon.VisitChildren | labs/lab2/lab.py:62-65 | every child not yet in paths is added to the next fringe with its parent's path plus itself; stored paths are kept |
| Bacon.SearchRound | labs/lab2/lab.py:58-65 | one pass over the fringe either returns a walk to the actor one step longer than the round, or leaves the next fringe as the unvisited co-stars of the fringe, with valid stored paths |
| Bacon.EndRound | labs/lab2/lab.py:66-67 | after a pass the next fringe is the next layer, and paths are stored for every actor of the next round |
| Bacon.BaconPathToBacon | labs/lab2/lab.py:55-56 | [4724] is a walk from Bacon to Bacon, and no walk is shorter |
| Bacon.FoundIsShortest | labs/lab2/lab.py:60-61 | a walk to an actor not reached by round k of at most k+2 entries is a shortest walk |
| Bacon.SearchLayer | labs/lab2/lab.py:58-67 | one round either finds a shortest walk to the actor, or advances the fringe and the stored paths to the next layer while the unvisited part of the graph shrinks or the fringe is empty |
| Bacon.SearchFromBacon | labs/lab2/lab.py:51-67 | the actor 4724 gives [4724]; a returned list is a walk from Bacon to the actor of which no walk is shorter; None exactly when the actor is unreachable |
| Bacon.GetBaconPath | labs/lab2/lab.py:49-67 | the same, for the graph built from the records |
| HyperCoords.InBounds | labs/lab3/lab.py:61-72 | one component per dimension, each within [0, dimensions[i]); on a shaped board this is exactly when the coordinate names a square (ShapedFits) |
| HyperCoords.Get | labs/lab3/lab.py:22-34 | the square reached by indexing the nested lists with each component in turn; its properties are stated by GetSet |
| HyperCoords.Set | labs/lab3/lab.py:36-45 | the board with one square replaced; its properties are stated by GetSet, SetFits and SetShaped |
| HyperCoords.GridExt | labs/lab3/lab.py:22-34 | two boards of one shape holding the same value at every coordinate are equal |
| HyperCoords.MakeBoard | labs/lab3/lab.py:47-59 | the board has the extent of dimensions in every dimension, and every square is elem |
| HyperCoords.ShapedFits | labs/lab3/lab.py:61-72 | on a board of the given shape, a coordinate names a square iff it is in bounds: one component per dimension, each within [0, dimensions[i]) |
| HyperCoords.GetSet | labs/lab3/lab.py:22-45 | after setting c to v, looking up c gives v and looking up any other square gives its old value |
| HyperCoords.SetShaped | labs/lab3/lab.py:36-45 | setting a square keeps the board's shape |
| HyperCoords.SetFits | labs/lab3/lab.py:36-45 | setting a square changes which coordinates name squares not at all |
| HyperCoords.TabulateAll | labs/lab3/lab.py:47-59 | a board built from a function of the coordinate has the given shape and holds that function's value at every square |
| HyperCoords.Box | labs/lab3/lab.py:74-85 | the in-bounds coordinates within 1 of c in every component, each listed once |
| HyperCoords.Neighbors | labs/lab3/lab.py:74-85 | b is listed iff it is in bounds, within 1 of c in every component and not c itself; no coordinate is listed twice |
| HyperCoords.NeighborsSymmetric | labs/lab3/lab.py:74-85 | being a neighbour is symmetric |
| HyperMines.InitialBoard | labs/lab3/lab.py:9-20 | the board has the game's shape, with a bomb at every listed location and elsewhere the count of neighbouring bombs |
| HyperMines.InitialBoardConsistent | labs/lab3/lab.py:9-20 | a new board is consistent (every safe square holds the number of bombs among its neighbours), and its bombs are exactly the listed ones |
| HyperMines.HyperMinesGame.constructor | labs/lab3/lab.py:9-20 | the dimensions, that initial board, an all-hidden mask and the state ongoing; no bomb is shown |
| HyperMines.HyperMinesGame.FromDict | labs/lab3/lab.py:149-156 | the four attributes are exactly the dictionary's entries |
| HyperMines.HyperMinesGame.GetCoords | labs/lab3/lab.py:22-34 | on a consistent board, a safe square holds the number of bombs among its neighbours |
| HyperMines.HyperMinesGame.SetCoords | labs/lab3/lab.py:36-45 | get_coords(c) then returns the new value, and no other square changes |
| HyperMines.SafeSquaresShown | labs/lab3/lab.py:88-97 | true iff every square without a bomb is revealed |
| HyperMines.BombsShown | labs/lab3/lab.py:108-110 | true iff at least one bomb is revealed |
| HyperMines.Outcome | labs/lab3/lab.py:108-110 | "defeat" iff some bomb is visible; "victory" iff no bomb is visible and every safe square is; "ongoing" otherwise |
| HyperMines.HyperMinesGame.IsVictory | labs/lab3/lab.py:88-97 | true iff every non-bomb square is revealed |
| HyperMines.FloodStart | labs/lab3/lab.py:102-105 | revealing a hidden square alone is the least mask showing it, and a complete dig when the square is not blank |
| HyperMines.FloodStep | labs/lab3/lab.py:102-105 | a complete dig from a neighbour of a blank square keeps the dig from that square well formed |
| HyperMines.FloodStepLeast | labs/lab3/lab.py:102-105 | digging a neighbour of the dug blank square shows nothing that every closed mask showing that square does not show |
| HyperMines.FloodFinish | labs/lab3/lab.py:102-105 | once all neighbours of the dug blank square are shown, the dig is complete, including its minimality |
| HyperMines.FloodUnique | labs/lab3/lab.py:99-105 | two complete digs at the same square from the same mask leave the same mask |
| HyperMines.HiddenSet | labs/lab3/lab.py:102-104 | revealing one hidden square lowers the count of hidden squares by one |
| HyperMines.FloodAvoidsBombs | labs/lab3/lab.py:102-104 | on a consistent board, the recursion never reveals a bomb other than the dug square |
| HyperMines.DigSafeShowsNoBomb | labs/lab3/lab.py:102-110 | digging a safe square on a consistent board shows no bomb if none was shown before |
| HyperMines.HyperMinesGame.Reveal | labs/lab3/lab.py:99-105 | the mask becomes the complete dig from c, the least mask obeying the flood rules; the result is the number of squares newly shown; a shown square changes nothing; a hidden square that is not blank is revealed alone |
| HyperMines.HyperMinesGame.DigNeighbors | labs/lab3/lab.py:102-104 | digging every neighbour of a newly shown blank square completes the dig, counting the squares shown |
| HyperMines.HyperMinesGame.DigNeighbor | labs/lab3/lab.py:102-104 | digging one neighbour of a newly shown blank square shows that neighbour and keeps the partial dig well formed and least |
| HyperMines.HyperMinesGame.Dig | labs/lab3/lab.py:99-118 | a game not ongoing is left alone and 0 returned; otherwise the mask becomes the unique complete dig, the count of newly shown squares is returned, and the state is the outcome of the new mask; a shown square yields 0; digging a bomb means defeat |
| HyperMines.DigTwice | labs/lab3/lab.py:99-118 | digging the same square again returns 0 and changes nothing |
| HyperMines.LineVictory | labs/lab3/lab.py:99-118 | on a 1-by-5 line with a bomb at 4, digging 0 reveals 4 squares and wins |
| HyperMines.LineDefeat | labs/lab3/lab.py:99-118 | on the same line, digging the bomb reveals 1 square and loses |
| HyperMines.LineNearBomb | labs/lab3/lab.py:99-118 | on a 1-by-6 line with a bomb at 2, digging 0 reveals 2 squares (0 and 1) and the game goes on |
| HyperMines.NearBombDig | labs/lab3/lab.py:99-105 | on that line the complete dig at 0 shows exactly squares 0 and 1 |
| HyperMines.CornerNextToBomb | labs/lab3/lab.py:99-118 | on a 3-by-3 board with a bomb in the centre, digging a corner reveals 1 square and the game goes on |
| HyperMines.DecimalString | labs/lab3/lab.py:124-126 | decimal digits without a leading zero whose value is n |
| HyperMines.Symbol | labs/lab3/lab.py:121-137 | "_" iff hidden and no xray; otherwise "." iff a bomb, " " iff a safe square with no neighbouring bombs, and the digits of the count otherwise |
| HyperMines.RenderSpec | labs/lab3/lab.py:121-137 | the rendering holds, at every square of the board, the symbol of that square |
| HyperMines.HyperMinesGame.Render | labs/lab3/lab.py:121-137 | an array shaped like dimensions whose every square is that square's symbol under the mask and xray; the game is not changed |

## Left out

- `labs/lab1/lab.py` file and display code (`load`, `save`, `gif_data`, `show`, tkinter, the `__main__` block): file I/O and UI.
- `create_blur_kernel`, `blurred`, `sharpened`, `edges`: fractional kernels, `round` and `math.sqrt` are floating point. `correlate` and `_clip` are modelled over integer pixels and integer kernels only.
- Images.Image.Clip: `round` is the identity on integers, so the model omits it.
- Images.Image.GetPixel: an index outside `[-len(pixels), len(pixels))` raises `IndexError` in Python. Here it is a precondition.
- Images.Image.SetPixel: likewise, an index outside `[-len(pixels), len(pixels))` raises `IndexError` in Python. Here it is a precondition.
- Images.Image.constructor: Python stores the caller's list itself (`labs/lab1/lab.py:26`), so two images built on one list share it, and `set_pixel` on one shows in the other (`labs/lab1/test.py:90` builds such a copy). The model's `pixels` is a value, so that aliasing is not modelled.
- Images.Image.GetPixel: an in-range negative index follows Python's wrap-around (`ListSlot`). The pixel contracts speak of well-formed images and in-bounds coordinates.
- Images.Image.ApplyPerPixel: `func` is a total function on integers. Python callables with side effects or exceptions are not modelled.
- Images.Image.Correlate: the kernel is required to be square with rows at least as long as the kernel. Python raises `IndexError` on shorter rows.
- Bacon.InvertDict: where several keys share a value, Python keeps the last inserted key. The model is a ghost function that keeps one of them unspecified. Under injectivity the two agree.
- Bacon.GetValue: a missing key raises `KeyError` in Python. Here it gives `None`.
- Bacon.GetActorsWithBaconNumber: for `n >= 1` the Python code looks up `graph[4724]`, which raises when 4724 occurs in no record. That case is a precondition.
- Bacon.GetBaconPath: for an actor other than 4724, the same `graph[4724]` failure is a precondition.
- Bacon.SearchRound: Python iterates a set in an order the language leaves unspecified. The model iterates in an arbitrary order. Which shortest path is returned when several exist depends on that order, so the contract constrains the length of the path, not its content.
- `get_path` (`labs/lab2/lab.py:70-71`): an unimplemented stub.
- JSON loading and printing (`labs/lab2/lab.py:74-106`): file I/O.
- `sys.setrecursionlimit` (`labs/lab3/lab.py:3-4`): a runtime knob. The recursion of `dig` is bounded by the number of hidden squares, which is its termination measure.
- `dump` (`labs/lab3/lab.py:141-147`): prints only.
- HyperMines.HyperMinesGame.constructor: the doc-comment does not say what happens with a bomb outside the board. The model requires every bomb to be in bounds.
- HyperMines.HyperMinesGame.FromDict: the dictionary is taken as given, board and mask may have any shape, and `Valid()` is not promised, as in the source.
- HyperMines.HyperMinesGame.FromDict: Python shares the dictionary's board and mask lists with the new game (`labs/lab3/lab.py:154-155`). The model's `board` and `mask` are values, so that aliasing is not modelled.
- HyperMines.HyperMinesGame.Render: the `xray` argument has no default here. Python's default `xray=False` (`labs/lab3/lab.py:121`) is `Render(false)`.
- HyperMines.HyperMinesGame.GetCoords: the coordinate must be in bounds. Python's negative indexing of nested lists is not modelled.
- HyperMines.HyperMinesGame.SetCoords: the coordinate must be in bounds, for the same reason.
- HyperMines.HyperMinesGame.Dig: the coordinate must be in bounds.
- HyperMines.HyperMinesGame.Dig: the order in which neighbours are dug is fixed by `Neighbors`. The revealed set does not depend on that order, because the dig's mask is unique (`FloodUnique`).
- Board storage: board and mask are nested lists (`Grid`), as the render doc-comment describes ("nested lists"). A flat row-major list is not used.
