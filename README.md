# Criminal face sketch: a verified model of its core

This project is a Dafny model of the parts of the forensic face-sketch
application that hold its logic. The rest of the application is HTTP and
UI plumbing around them.

- **The feature-layer compositor** (`backend/compositor.py`,
  `FacialFeatureCompositor`).
  - It takes a selection: a map from a category key such as `faceShape` to
    a variant string such as `"oval"`.
  - Eight generators each turn their own variant into vector strokes at
    fixed integer coordinates on a 512x512 canvas.
  - `create_composite` picks the layers by fixed skip rules and stacks them
    in a fixed order onto an opaque light-grey canvas. It then flattens the
    stack to RGB.
- **The earlier compositor** (`backend/compositor_old.py`). It draws five
  categories at absolute coordinates onto a white canvas.
- **The criminal-database search** (`search_similar_faces` in
  `criminal_face_generator.py`). It filters by crime type and location,
  scores each record by word-set Jaccard similarity, and keeps scores
  above 0.2. It then sorts by score, highest first. The description
  concatenation of `refine_face` is modelled as well.
- **The sketch editor's undo/redo history** (`SketchEditor.jsx`): a list
  of canvas snapshots and a cursor into it.
- **The nine-step feature wizard** (`FeatureSelector.jsx`): the option
  table, the step index and the selection map.
- **The sketch page** (`SketchCanvas.jsx`): the description built from the
  selection, and the page state whose version history the handlers append
  to.

## How the model is built

| file | module | what it holds |
|---|---|---|
| `wrappers.dfy` | `Wrappers` | `Option` |
| `strings.dfy` | `Strings` | Python's `in` on strings, `lower()`, `split()`, `", ".join`, and JavaScript's `trim() == ""` |
| `features.dfy` | `Features` | the categories, their selection keys and the `(category, variant)` layer choice |
| `raster.dfy` | `Raster` | RGBA pixels, source-over compositing, the layer stack, and the in-place compositing loop over an `array` |
| `drawing.dfy` | `Drawing` | the `ImageDraw` primitives, canvas bounds, and mirroring about a vertical line |
| `compositor.dfy` | `Compositor` | the geometry constants, the eight generators, the loop methods, the orchestrator and `CreateComposite` |
| `compositor_old.dfy` | `CompositorOld` | the five generators, their orchestration and `CreateComposite` |
| `face_search.dfy` | `FaceSearch` | exact-fraction scores, Jaccard, the filters, the insertion sort, `Search` and `RefineDescription` |
| `sketch_editor.dfy` | `SketchEditor` | the `History` state machine and the `Editor` class |
| `feature_selector.dfy` | `FeatureSelector` | the option table, the `Step` state machine and the `Wizard` class |
| `sketch_canvas.dfy` | `SketchCanvas` | `BuildDescription`, the `Page` state machine and the `Session` class |

### Design choices

- **Generators and the orchestrator are pure functions.** A generator maps
  its variant string to a list of primitives. The orchestrator `Layers`
  maps a selection to an ordered list of `(category, variant)` choices.
- **Rasterising is a parameter.** `render` stands for PIL's rasteriser,
  which decides which pixels a stroke covers. `CreateComposite` takes it as
  a function, and properties about pixels are proved for every such
  function. Where a property needs a layer with nothing drawn on it to
  stay fully transparent, as the source's `(255, 255, 255, 0)` layers
  start, it says so with `Compositor.BlankIsClear(render)`.
- **Compositing runs in place.** `Raster.AlphaCompositeInto` updates an
  `array` accumulator, and `Raster.Composite` fills it, composites each
  layer in order, and flattens it.
- **Stubble randomness is an input.** The stubble layer's random draws are
  passed in as `StubbleDraws`: 100 offset pairs within `randint`'s
  inclusive bounds.
- **Scores are exact fractions.** They are `Ratio`s compared by
  cross-multiplication, not Python floats. The threshold is exactly 1/5.
- **The stable sort becomes a strict order.** The source sorts by score,
  highest first, with Python's stable `sort(reverse=True)`. Equal scores
  therefore keep database order. Database ids ascend in database order, so
  this result equals the list ordered strictly by
  `Before` (score descending, then id ascending).
  - `SortMatches` is an in-place insertion sort proved to produce that
    order.
  - `OrderedUnique` shows that only one list is ordered this way.
- **Each React component is a state machine plus a class.**
  - A pure state datatype (`History`, `Step`, `Page`) carries one function
    per handler, and the lemmas are proved about those functions.
  - A class (`Editor`, `Wizard`, `Session`) holds the same state as fields.
    Each handler is a method proved to move the fields exactly as the
    function says.
  - React's asynchronous `setState` is modelled as sequential updates.
  - The server's replies are parameters: `None` stands for a failed request.

Where the prose description of the system and the code differ, the model
follows the code.

## Model

| member | source | states |
|---|---|---|
| Raster.Over | backend/compositor.py:33 | Source-over onto the opaque accumulator: the result is opaque, a pixel with alpha 0 leaves the accumulator unchanged, and an opaque pixel replaces it |
| Raster.Mix | backend/compositor.py:33 | One blended channel lies between the source and destination values; alpha 0 gives the destination and alpha 255 the source |
| Raster.Flatten | backend/compositor.py:71-72 | Pasting an opaque accumulator pixel through its own alpha onto the background keeps its colour |
| Raster.StackAt | backend/compositor.py:28-68 | The accumulator pixel after all layers is opaque, because the canvas starts opaque |
| Raster.LaterOpaqueWins | backend/compositor.py:30-68 | Where layer k is opaque and no later layer draws, the composite shows layer k's pixel, whatever lies beneath |
| Raster.UntouchedIsBackground | backend/compositor.py:28-72 | A pixel that no layer draws on keeps the background colour |
| Raster.TransparentLayerVanishes | backend/compositor.py:30-68 | Inserting a layer that is transparent at a pixel anywhere in the stack leaves that pixel unchanged |
| Raster.AlphaCompositeInto | backend/compositor.py:33 | Compositing a layer in place: each accumulator pixel becomes the layer pixel composited over its old value |
| Raster.Composite | backend/compositor.py:28-72 | The image has n pixels, and pixel i is the flattened stack of all layers at i over the background |
| Drawing.MirrorPoints | backend/compositor.py:125-145 | Mirroring a polyline keeps its number of vertices |
| Drawing.MirrorSegment | backend/compositor.py:126-127 | A two-point stroke mirrors onto its mirrored ends, in reverse order |
| Drawing.MirrorPolyline3 | backend/compositor.py:182-195 | A three-point polyline mirrors onto its mirrored vertices, in reverse order |
| Features.KeyInjective | backend/compositor.py:31-66 | Distinct categories read distinct selection keys |
| Features.CategoriesOf | backend/compositor.py:30-68 | The category list of the layer choices has one entry per choice |
| Features.CategoriesOfAppend | backend/compositor.py:30-68 | Category lists distribute over concatenation of layer choices |
| Strings.ContainsSelf | backend/compositor.py:370 | Every string contains itself, so `'scar' in 'scar'` holds |
| Strings.MissingCharRulesOut | backend/compositor.py:370-384 | A pattern with a character the string lacks is not a substring of it |
| Strings.Lower | criminal_face_generator.py:119 | `lower()` keeps the length and maps each character through ASCII lower-casing |
| Strings.DropSpaces | criminal_face_generator.py:119 | Drops exactly the leading whitespace: the result is a suffix that starts with no space |
| Strings.TakeWord | criminal_face_generator.py:119 | The first word is the longest space-free prefix |
| Strings.Words | criminal_face_generator.py:119 | Every word of `split()` is non-empty and contains no whitespace |
| Strings.WordsEmptyIffBlank | criminal_face_generator.py:119 | `split()` gives no words exactly when the string is blank |
| Strings.LowerKeepsBlank | criminal_face_generator.py:119 | Lower-casing neither creates nor removes blankness |
| Strings.LowerAppend | criminal_face_generator.py:92-93 | Lower-casing distributes over concatenation |
| Strings.DropSpacesAppend | criminal_face_generator.py:119 | Leading-space removal on a concatenation: it skips a blank prefix, and otherwise works on the prefix alone |
| Strings.TakeWordAppend | criminal_face_generator.py:119 | A word cannot run past a following whitespace character |
| Strings.WordsAppend | criminal_face_generator.py:92-93 | Splitting a concatenation whose second half starts with whitespace gives the words of each half, in order |
| Strings.WordsAfterSpace | criminal_face_generator.py:92-93 | A leading whitespace character adds no word |
| Strings.SameStart | criminal_face_generator.py:119 | Strings equal after their leading whitespace split into the same words |
| Strings.Join | frontend/src/components/SketchCanvas.jsx:31 | Joining no parts gives "", one part gives that part, and otherwise the result starts with the first part |
| Strings.JoinLength | frontend/src/components/SketchCanvas.jsx:31 | The joined length is the total of the parts plus one separator between each pair |
| Compositor.FaceShapeLayer | backend/compositor.py:76-110 | Every face shape draws at least one primitive, all on the 512x512 canvas |
| Compositor.FaceBoxes | backend/compositor.py:14-17 | The face box is (126, 76)-(386, 436); "oval" outlines exactly it, "round" shrinks top and bottom by 50, and any unrecognised shape draws the oblong (146, 76)-(366, 436) |
| Compositor.EyebrowLayer | backend/compositor.py:112-147 | Every eyebrow variant draws exactly two primitives, on the canvas |
| Compositor.EyebrowDefaultIsStraight | backend/compositor.py:119-145 | An unrecognised eyebrow value draws exactly what "straight" draws; the brows sit at x = 181 and x = 331 |
| Compositor.EyebrowsSymmetric | backend/compositor.py:119-145 | For every eyebrow variant, each primitive's mirror image about x = 256 is in the layer |
| Compositor.EyeLayer | backend/compositor.py:149-204 | Every eye variant draws 4 to 6 primitives on the canvas, including both pupils at x = 181 and x = 331 |
| Compositor.EyesSymmetric | backend/compositor.py:156-202 | For every eye variant, each primitive's mirror image about x = 256 is in the layer |
| Compositor.NoseLayer | backend/compositor.py:206-251 | Every nose draws 4 or 5 primitives on the canvas, and 5 exactly for the default branch |
| Compositor.MouthLayer | backend/compositor.py:253-290 | Every mouth draws 1 or 2 primitives on the canvas, and 1 exactly for "downturned" |
| Compositor.Ringlets | backend/compositor.py:312-313 | Curly hair has nine curls |
| Compositor.WavePoints | backend/compositor.py:318-319 | The wavy polyline has seven vertices |
| Compositor.Strands | backend/compositor.py:324-325 | Straight hair has thirteen strands |
| Compositor.DrawRinglets | backend/compositor.py:312-313 | The curl loop over i = -80..80 step 20 produces exactly the nine curls |
| Compositor.DrawWavePoints | backend/compositor.py:318-319 | The wave loop over i = -90..90 step 30 produces exactly the seven vertices |
| Compositor.DrawStrands | backend/compositor.py:324-325 | The strand loop over i = -90..90 step 15 produces exactly the thirteen strands |
| Compositor.HairLayer | backend/compositor.py:292-327 | Every hair variant stays on the canvas |
| Compositor.CurlyBeatsWavy | backend/compositor.py:309-313 | Any value containing "curly" (other than the two exact matches) draws the crown and the nine curls, even when it also contains "wavy" |
| Compositor.WavyWithoutCurly | backend/compositor.py:314-320 | A value containing "wavy" but not "curly" draws the crown and the seven-vertex wave |
| Compositor.StrandPositions | backend/compositor.py:321-325 | Straight hair (no "curly", no "wavy", not an exact special value) is the crown plus 13 strands at x = 256 + i for i = -90..90 step 15 |
| Compositor.CurlPositions | backend/compositor.py:309-313 | Curly hair is the crown plus 9 curls centred at 256 + i for i = -80..80 step 20 |
| Compositor.WaveHeights | backend/compositor.py:318-319 | Vertex k is at x = 166 + 30k, and its y is face_top - 40 exactly where (x - 256) mod 60 is 0, that is for i in {-60, 0, 60}; elsewhere it is face_top - 60 |
| Compositor.StubbleDots | backend/compositor.py:354-358 | Stubble is 100 points |
| Compositor.DrawStubble | backend/compositor.py:352-358 | Whatever the random draws, the stubble loop draws exactly 100 black points with x in [186, 326] and y in [331, 401] |
| Compositor.FacialHairLayer | backend/compositor.py:329-360 | Facial hair stays on the canvas, and draws nothing exactly when the value is none of mustache, beard, goatee, stubble |
| Compositor.MarksLayer | backend/compositor.py:362-389 | A mark draws at most one primitive, on the canvas, and nothing exactly when the value contains none of the four keywords |
| Compositor.MarksPriority | backend/compositor.py:370-384 | The first matching keyword decides the mark, in the order scar, mole, broken nose |
| Compositor.MissingToothDrawsNothing | backend/compositor.py:370-389 | "missing tooth" matches no keyword, so its layer is empty |
| Compositor.RankOfOrder | backend/compositor.py:30-68 | Each position of the fixed layer order holds exactly one category |
| Compositor.IncreasingGap | backend/compositor.py:30-68 | In a list in layer order, ranks grow by at least one per position |
| Compositor.PicksFrom | backend/compositor.py:30-68 | The categories picked from a position onwards are exactly those at or after it that the selection draws |
| Compositor.Picks | backend/compositor.py:30-68 | The drawn categories are in strictly increasing layer order (so each at most once), and a category is drawn exactly when its skip rule lets it through |
| Compositor.PicksFromIncreasing | backend/compositor.py:30-68 | Picked categories are in strictly increasing layer order |
| Compositor.Layers | backend/compositor.py:30-68 | The layer list's categories are exactly the picked ones in order, and each choice carries its own key's value |
| Compositor.SkipRules | backend/compositor.py:31-66 | Facial hair is drawn iff its key is present, non-empty and not "clean shaven"; marks iff present, non-empty and not "none"; the other six iff the key is present, even with "" |
| Compositor.PicksFromAgree | backend/compositor.py:30-68 | Selections that draw the same categories pick the same list |
| Compositor.LayersAgree | backend/compositor.py:30-68 | The layers depend only on which categories are drawn and on those categories' values |
| Compositor.UnknownKeysIgnored | backend/compositor.py:30-68 | Keys other than the eight layer keys have no effect on the layers |
| Compositor.FacialHairSentinels | backend/compositor.py:36 | Facial hair "clean shaven" or "" gives the same layers as no facial-hair key |
| Compositor.MarksSentinels | backend/compositor.py:66 | Marks "none" or "" give the same layers as no marks key |
| Compositor.OnlyOwnLayerChanges | backend/compositor.py:30-68 | Changing one category's value changes that category's layer and no other, as long as the layer is not switched on or off |
| Compositor.PicksSplit | backend/compositor.py:30-68 | Dropping a drawn category removes exactly its entry from the picked list |
| Compositor.Rendered | backend/compositor.py:30-68 | Each chosen layer is painted to a full-size pixel layer, in layer order |
| Compositor.ImageOf | backend/compositor.py:71-74 | The output image has 512 x 512 pixels |
| Compositor.PixelOf | backend/compositor.py:28-72 | Each output pixel is the flattened stack, over light grey, of the painted layers at that pixel |
| Compositor.CreateComposite | backend/compositor.py:19-74 | `create_composite` returns the 512x512 image the specification `ImageOf` defines for the selection, random draws and rasteriser |
| Compositor.EmptySelectionIsBackground | backend/compositor.py:28-72 | An empty selection gives every pixel (245, 245, 245) |
| Compositor.MarksOnTop | backend/compositor.py:65-68 | Wherever the marks layer is opaque, the output pixel is the mark's colour, whatever the other layers drew |
| Compositor.LastLayerOnTop | backend/compositor.py:65-68 | The same, for any painter |
| Compositor.TransparentLayerInvisible | backend/compositor.py:30-72 | A drawn layer that paints fully transparent gives the same image as leaving its key out |
| Compositor.TransparentLayerPixel | backend/compositor.py:30-72 | The same, for one pixel |
| Compositor.DroppedLayerChoices | backend/compositor.py:30-68 | Dropping a drawn category's key removes exactly its choice from the layer list |
| Compositor.DroppedLayerStack | backend/compositor.py:30-68 | The painted stack without that key is the stack with that one layer taken out |
| Compositor.RenderedDrop | backend/compositor.py:30-68 | Painting a list with one entry removed paints the same stack with that layer removed |
| Compositor.MissingToothInvisible | backend/compositor.py:66-68 | With marks "missing tooth", the image equals the image without a marks key, for any rasteriser that leaves an empty layer transparent |
| CompositorOld.FaceShapeLayer | backend/compositor_old.py:57-81 | Every face shape draws at least one primitive on the canvas |
| CompositorOld.FaceBoxes | backend/compositor_old.py:64-79 | oval (100, 80)-(412, 480), round (100, 100)-(412, 460), square (100, 100)-(412, 450); any other shape draws the oblong (120, 80)-(392, 480) |
| CompositorOld.EyebrowLayer | backend/compositor_old.py:83-107 | Every eyebrow value draws two primitives on the canvas |
| CompositorOld.EyebrowDefaultIsStraight | backend/compositor_old.py:91-105 | Values other than straight, arched, bushy and thin (such as "rounded" and "angled") draw exactly the straight brows |
| CompositorOld.EyebrowsSymmetric | backend/compositor_old.py:88-105 | Every eyebrow style is mirror-symmetric about x = 256 |
| CompositorOld.EyeLayer | backend/compositor_old.py:109-133 | Every eye value draws four primitives on the canvas, with both pupils |
| CompositorOld.EyesAlmondOrRound | backend/compositor_old.py:114-131 | Every value other than "round" draws exactly the almond eyes, and "round" differs from them |
| CompositorOld.EyesSymmetric | backend/compositor_old.py:114-131 | The eyes sit at x = 180 and x = 332, and the layer is mirror-symmetric about x = 256 |
| CompositorOld.NoseLayer | backend/compositor_old.py:135-156 | Every nose draws two primitives on the canvas, starting with a bridge from (256, 220) |
| CompositorOld.NoseDefaultIsStraight | backend/compositor_old.py:143-154 | Nose values other than straight, broad and button draw exactly the straight nose |
| CompositorOld.MouthLayer | backend/compositor_old.py:158-176 | Every mouth draws one or two primitives on the canvas, and two exactly for "full" |
| CompositorOld.ThinMouthIsOneLine | backend/compositor_old.py:169-170 | The thin mouth is one horizontal 80-pixel line at y = 360 |
| CompositorOld.LayersFor | backend/compositor_old.py:26-49 | Each category of the order is taken exactly when its key is present, in order, carrying its value |
| CompositorOld.Layers | backend/compositor_old.py:26-49 | Only face, eyebrows, eyes, nose and mouth are layered, in that order, each exactly when its key is present |
| CompositorOld.OnlyFiveCategories | backend/compositor_old.py:26-49 | Setting or removing hair, facial hair or marks leaves the layers unchanged |
| CompositorOld.TakesAgree | backend/compositor_old.py:26-49 | Selections that agree on the five categories give the same layers |
| CompositorOld.ImageOf | backend/compositor_old.py:52-55 | The output image has 512 x 512 pixels |
| CompositorOld.PixelOf | backend/compositor_old.py:24-53 | Each output pixel is the flattened stack, over white, of the painted layers |
| CompositorOld.CreateComposite | backend/compositor_old.py:16-55 | `create_composite` returns the image `ImageOf` defines |
| CompositorOld.EmptySelectionIsWhite | backend/compositor_old.py:24-53 | An empty selection gives an all-(255, 255, 255) image |
| FaceSearch.BelowTransitive | criminal_face_generator.py:129-138 | Score comparison by cross-multiplication is transitive, also through equal values |
| FaceSearch.Trichotomy | criminal_face_generator.py:133-138 | Any two scores are in exactly one of the relations less, equal or greater |
| FaceSearch.WordSet | criminal_face_generator.py:119-131 | Every word of a description's word set is non-empty and has no whitespace |
| FaceSearch.WordSetEmptyIffBlank | criminal_face_generator.py:119 | A description has no words exactly when it is blank |
| FaceSearch.Jaccard | criminal_face_generator.py:129-131 | The score's numerator is at most its denominator; it is 0 exactly for disjoint word sets; 0 <= score <= 1 |
| FaceSearch.DatabaseWellFormed | criminal_face_generator.py:110-115 | The four database records have ascending ids and non-blank descriptions |
| FaceSearch.FilteredSound | criminal_face_generator.py:121-135 | Every kept match is a database record that passes both filters (a falsy filter passes all), scores strictly above 0.2 and carries its own score |
| FaceSearch.FilteredComplete | criminal_face_generator.py:121-135 | Every record that passes the filters with a score above 0.2 is kept, with its score |
| FaceSearch.FilteredAscending | criminal_face_generator.py:121-135 | The kept matches come in database order |
| FaceSearch.AppendAscending | criminal_face_generator.py:134-135 | Appending a record with a larger id keeps the matches in id order |
| FaceSearch.BeforeTransitive | criminal_face_generator.py:138 | The result order (score descending, then id) is transitive |
| FaceSearch.BeforeTotal | criminal_face_generator.py:138 | Matches with distinct ids are always ordered one way or the other |
| FaceSearch.Swapped | criminal_face_generator.py:138 | Swapping neighbours exchanges those two, keeps every other entry and keeps the multiset |
| FaceSearch.SwapStep | criminal_face_generator.py:138 | An out-of-order swap moves the inserted element one place down and keeps the rest ordered |
| FaceSearch.SwapKeepsDistinct | criminal_face_generator.py:138 | Swapping keeps the ids distinct |
| FaceSearch.InsertDone | criminal_face_generator.py:138 | Once the inserted element is in place, the prefix is one longer and ordered |
| FaceSearch.SortMatches | criminal_face_generator.py:138 | The in-place sort leaves the matches ordered by score descending, ties in id order, as a permutation of the input |
| FaceSearch.FilteredStep | criminal_face_generator.py:121-135 | One pass of the loop appends the next record's match exactly when it qualifies |
| FaceSearch.NoWordsNoMatches | criminal_face_generator.py:119-133 | With an empty target word set, every score is 0 and nothing is kept |
| FaceSearch.Search | criminal_face_generator.py:98-141 | The result is a permutation of the filtered matches, sorted by score descending with ties in database order. Each entry is a distinct database record that passes the filters and scores above 0.2. A blank target returns [] |
| FaceSearch.SearchSimilarFaces | criminal_face_generator.py:98-141 | On the four-entry mock database: a stable score-descending permutation of the qualifying records, each a database record passing both filters, with distinct ids, empty for a blank target, and at most four results |
| FaceSearch.FilteredBounded | criminal_face_generator.py:121-135 | At most one match per record |
| FaceSearch.SameFirst | criminal_face_generator.py:138 | Two ordered lists with the same elements start with the same element |
| FaceSearch.DropFirst | criminal_face_generator.py:138 | Dropping the head of an ordered list removes one copy of it and keeps the rest ordered |
| FaceSearch.OrderedUnique | criminal_face_generator.py:138 | There is only one ordered arrangement of a multiset of matches, so the stable sort's result is determined |
| FaceSearch.RefineDescription | criminal_face_generator.py:92-93 | The refined description is the original, then ", ", then the additional text |
| FaceSearch.RefinedWords | criminal_face_generator.py:92-93 | The refined description's words are those of the original with a trailing comma plus those of the addition, so every added word is searchable |
| SketchEditor.Saved | frontend/src/components/SketchEditor.jsx:32-38 | A save keeps the first step+1 snapshots, appends the new one and makes it current, leaving nothing to redo |
| SketchEditor.Undone | frontend/src/components/SketchEditor.jsx:40-51 | With step > 0 the cursor moves back one and redo becomes possible; otherwise nothing changes; the snapshots never change |
| SketchEditor.Redone | frontend/src/components/SketchEditor.jsx:54-65 | With a later snapshot the cursor moves forward one; otherwise nothing changes; the snapshots never change |
| SketchEditor.UndoThenRedo | frontend/src/components/SketchEditor.jsx:40-65 | Redo after an undo restores the state |
| SketchEditor.RedoThenUndo | frontend/src/components/SketchEditor.jsx:40-65 | Undo after a redo restores the state, once something has been saved |
| SketchEditor.SaveAfterUndo | frontend/src/components/SketchEditor.jsx:34-35 | A save after an undo discards every snapshot that was ahead of the cursor |
| SketchEditor.SaveAppends | frontend/src/components/SketchEditor.jsx:34-35 | With nothing to redo, a save appends exactly one snapshot |
| SketchEditor.Moved | frontend/src/components/SketchEditor.jsx:40-65 | Any run of undo and redo presses keeps the invariant and never changes the snapshots |
| SketchEditor.Editor.constructor | frontend/src/components/SketchEditor.jsx:5-10 | The editor starts with an empty history, cursor -1 and not drawing |
| SketchEditor.Editor.SaveToHistory | frontend/src/components/SketchEditor.jsx:32-38 | The fields move exactly as `Saved` says, keeping the invariant |
| SketchEditor.Editor.Undo | frontend/src/components/SketchEditor.jsx:40-51 | The fields move exactly as `Undone` says |
| SketchEditor.Editor.Redo | frontend/src/components/SketchEditor.jsx:54-65 | The fields move exactly as `Redone` says |
| SketchEditor.Editor.StartDrawing | frontend/src/components/SketchEditor.jsx:80-88 | A stroke starts; the history is untouched |
| SketchEditor.Editor.StopDrawing | frontend/src/components/SketchEditor.jsx:106-111 | A stroke in progress ends with exactly one save; with none, nothing changes |
| SketchEditor.Editor.ClearCanvas | frontend/src/components/SketchEditor.jsx:113-119 | Clearing saves the blank canvas as one new snapshot |
| FeatureSelector.TableShape | frontend/src/components/FeatureSelector.jsx:5-51 | There are exactly nine steps, one per key, each with options; the first five are the structural features |
| FeatureSelector.KeysDistinct | frontend/src/components/FeatureSelector.jsx:50 | No key appears twice |
| FeatureSelector.KeysCoverCategories | frontend/src/components/FeatureSelector.jsx:5-42 | The wizard asks for every category the compositor draws, under the same key, plus complexion |
| FeatureSelector.Select | frontend/src/components/FeatureSelector.jsx:54-80 | Selecting sets the current key's entry, leaves every other entry as it was, and advances by one unless at the last step |
| FeatureSelector.PreviewRequest | frontend/src/components/FeatureSelector.jsx:61-74 | A composite preview is requested exactly at steps 0-4, with the whole updated selection |
| FeatureSelector.Back | frontend/src/components/FeatureSelector.jsx:82-86 | Back moves one step back exactly when the index is above 0, and keeps the selections |
| FeatureSelector.CompleteOnlyAtEnd | frontend/src/components/FeatureSelector.jsx:92-93 | Completion is offered exactly at the last step once distinctive marks have been chosen |
| FeatureSelector.SelectThenBack | frontend/src/components/FeatureSelector.jsx:54-86 | Back after a selection returns to the same step and keeps the selection |
| FeatureSelector.Run | frontend/src/components/FeatureSelector.jsx:54-80 | Any run of selections keeps the index within [0, 8] |
| FeatureSelector.RunFromStart | frontend/src/components/FeatureSelector.jsx:45-80 | Selecting options one by one from the start records the i-th under the i-th key, selects nothing else, and the index counts the selections, held at 8 |
| FeatureSelector.NineSelectionsComplete | frontend/src/components/FeatureSelector.jsx:77-93 | Nine selections from the start offer completion with every key chosen |
| FeatureSelector.Wizard.constructor | frontend/src/components/FeatureSelector.jsx:45-46 | The wizard opens at step 0 with nothing selected |
| FeatureSelector.Wizard.SelectOption | frontend/src/components/FeatureSelector.jsx:54-80 | The fields move exactly as `Select` says, and the preview sent is `PreviewRequest` |
| FeatureSelector.Wizard.GoBack | frontend/src/components/FeatureSelector.jsx:82-86 | The fields move exactly as `Back` says |
| FeatureSelector.Wizard.CompleteOffered | frontend/src/components/FeatureSelector.jsx:186-192 | The complete button shows iff the index is 8 and distinctive marks are chosen |
| SketchCanvas.PartsOfMembers | frontend/src/components/SketchCanvas.jsx:16-30 | Every part comes from a shown slot, and every shown slot contributes its part |
| SketchCanvas.PartsStep | frontend/src/components/SketchCanvas.jsx:17-30 | Each `if` pushes the slot's text exactly when it is shown |
| SketchCanvas.BuildDescription | frontend/src/components/SketchCanvas.jsx:16-32 | The nine conditional pushes and the join produce exactly `Description` |
| SketchCanvas.TextNonEmpty | frontend/src/components/SketchCanvas.jsx:18-29 | A shown slot contributes a non-empty part |
| SketchCanvas.DescriptionEmptyIff | frontend/src/components/SketchCanvas.jsx:16-31 | The description is "" exactly when no slot is shown |
| SketchCanvas.EmptySelectionDescription | frontend/src/components/SketchCanvas.jsx:31 | An empty selection gives "" |
| SketchCanvas.PartsOfAgree | frontend/src/components/SketchCanvas.jsx:17-30 | Selections that show the same slots with the same texts build the same parts |
| SketchCanvas.IgnoredEntry | frontend/src/components/SketchCanvas.jsx:18-30 | An empty value, facial hair "clean shaven", marks "none" or an unknown key contributes nothing |
| SketchCanvas.SkipValuesAgree | frontend/src/components/SketchCanvas.jsx:25-29 | The facial-hair and marks parts appear exactly when the compositor draws those layers |
| SketchCanvas.FullSelection | frontend/src/components/SketchCanvas.jsx:18-31 | With all nine chosen and no skip value, the parts are the nine texts in the fixed order with their nouns |
| SketchCanvas.Generated | frontend/src/components/SketchCanvas.jsx:34-59 | On a reply, one version with the prompt (typed description, else the built one) is appended and becomes current; a failed request changes nothing |
| SketchCanvas.Refined | frontend/src/components/SketchCanvas.jsx:61-91 | Without a sketch or with blank details nothing changes; on a reply one version is appended, becomes current, and the details are cleared |
| SketchCanvas.EditorOpened | frontend/src/components/SketchCanvas.jsx:111-115 | The editor opens only over an existing sketch; nothing else changes |
| SketchCanvas.EditorSaved | frontend/src/components/SketchCanvas.jsx:117-126 | One version marked " (manually edited)" is appended, the edit becomes the sketch and the editor closes |
| SketchCanvas.EditorCancelled | frontend/src/components/SketchCanvas.jsx:128-130 | The editor closes and nothing else changes |
| SketchCanvas.DescriptionTyped | frontend/src/components/SketchCanvas.jsx:173 | Typing replaces the description and nothing else |
| SketchCanvas.DetailsTyped | frontend/src/components/SketchCanvas.jsx:207 | Typing replaces the additional details and nothing else |
| SketchCanvas.TypedDescriptionWins | frontend/src/components/SketchCanvas.jsx:35 | A typed description is what is recorded; an empty box records the built description |
| SketchCanvas.RefineAfterTyping | frontend/src/components/SketchCanvas.jsx:61-84 | Non-blank details over a sketch lead to one appended version and a cleared box; blank details are refused |
| SketchCanvas.HistoryAppendOnly | frontend/src/components/SketchCanvas.jsx:34-126 | Over any sequence of actions, the earlier versions stay in order and each action adds at most one |
| SketchCanvas.Session.constructor | frontend/src/components/SketchCanvas.jsx:6-12 | The page opens with no sketch, empty texts and an empty history |
| SketchCanvas.Session.Generate | frontend/src/components/SketchCanvas.jsx:34-59 | The fields move exactly as `Generated` says, building the description only when none is typed |
| SketchCanvas.Session.Refine | frontend/src/components/SketchCanvas.jsx:61-91 | The fields move exactly as `Refined` says |
| SketchCanvas.Session.OpenEditor | frontend/src/components/SketchCanvas.jsx:111-115 | The fields move exactly as `EditorOpened` says |
| SketchCanvas.Session.EditorSave | frontend/src/components/SketchCanvas.jsx:117-126 | The fields move exactly as `EditorSaved` says |
| SketchCanvas.Session.EditorCancel | frontend/src/components/SketchCanvas.jsx:128-130 | The fields move exactly as `EditorCancelled` says |
| SketchCanvas.Session.TypeDescription | frontend/src/components/SketchCanvas.jsx:173 | The fields move exactly as `DescriptionTyped` says |
| SketchCanvas.Session.TypeDetails | frontend/src/components/SketchCanvas.jsx:207 | The fields move exactly as `DetailsTyped` says |

## Left out

- Rasterisation: which pixels PIL's `ellipse`, `arc`, `line`, `polygon` and `point` cover is library internals. It is the parameter `render`, and every pixel property is proved for all rasterisers.
- Raster.Mix: partial-alpha blending (the goatee fill at backend/compositor.py:351 and the birthmark at :387, both alpha 128) uses a rounded convex blend, not PIL's exact `alpha_composite` arithmetic. Only alpha 0 and alpha 255 are modelled exactly.
- Compositor.DrawStubble: the draws of `random.randint` come from an unseeded global generator. They are a parameter constrained to `randint`'s inclusive bounds, and only those bounds are assumed.
- The dead code in backend/compositor_old.py after `return layer` (:176-195) and the never-called `_draw_eyes`, `_draw_nose`, `_draw_mouth` and `_draw_eyebrows` helpers (:197-269) are not modelled, since they never run.
- Strings.Lower and Strings.Words: lower-casing and whitespace splitting are ASCII only (space, tab, newline, vertical tab, form feed, carriage return). Python's `lower()` and `split()` also act on non-ASCII letters and on Unicode and \x1c-\x1f separators.
- Strings.IsBlank: the same ASCII restriction applies to JavaScript's `trim()` at frontend/src/components/SketchCanvas.jsx:62.
- FaceSearch.Search: the score is an exact fraction compared exactly with 1/5. Python compares a float quotient with the float 0.2. The two can only disagree for a fraction within about 1e-17 of 1/5, and a fraction a/b other than 1/5 differs from it by at least 1/(5b), so they agree for any word sets of realistic size.
- FaceSearch.Search: `criminal["similarity_score"] = ...` adds the score to the record dict itself (criminal_face_generator.py:135). `mock_database` is a local list built afresh on every call (criminal_face_generator.py:110-115), so nothing is shared between calls; the visible effect is that each returned dict is its database record with a `similarity_score` key added. The model returns that pair as a fresh `Match` value rather than updating the record in place.
- FaceSearch.Search: the equivalence of the stable descending sort with the strict order relies on the database ids ascending in database order (`WellFormed`), which the four mock records satisfy (`DatabaseWellFormed`). The sort is modelled as an insertion sort, not Timsort.
- FaceSearch.Search: `crime_type` and `location` are `Option<string>`. `None` and `""` are the falsy values; other Python falsy objects are not modelled.
- The `print` calls of `search_similar_faces` and `refine_face` are console output and are left out.
- `refine_face` then calls `generate_face_from_description`, which does HTTP and file I/O. Only its description concatenation is modelled.
- `generate_face_from_description`, `_create_mock_face_data`, `generated_faces` and their wall-clock timestamps are not part of this model.
- Feature values are strings; other JavaScript values in a selection are not modelled. The wizard's "Next" button (frontend/src/components/FeatureSelector.jsx:194-196) re-selects the current value and is disabled unless that value is not `undefined` (:93), so whenever it can fire it is `FeatureSelector.Select` with a selected option.
- The editor's mount effect (frontend/src/components/SketchEditor.jsx:12-30) loads or paints the initial canvas, then calls `saveToHistory`. It is `SaveToHistory` with that snapshot; image loading is left out.
- Canvas 2D drawing, `draw`, `getMousePos` with its float scaling, `toDataURL` and image loading in SketchEditor.jsx are left out. Snapshots are opaque strings.
- The `tool`, `color` and `lineWidth` settings of the editor are left out, since they affect only the pixels drawn.
- React's asynchronous `setState`, stale closures and the `isGenerating` flag are left out. Each handler is one synchronous update, and the server's reply is a parameter (`None` for a failed request, whose `alert` is left out).
- Timestamps (`Date.now()`) in the sketch versions are left out.
- The server's refined description (`response.data.description`) is part of the reply parameter. The server side is not part of this model.
- The file upload and `useEditedSketch` (frontend/src/components/SketchCanvas.jsx:93-109) and the download code are file I/O, and are left out.
- The old compositor's final paste onto a white RGB image is `Flatten` over white, the same construction as the new compositor's.
- backend/app.py, backend/generator.py, backend/comfyui_client.py, streamlit_app.py, demo.py, run_app.py, App.jsx, ColorPanel.jsx and faceShapes.js are HTTP, UI or process plumbing and are not part of this model.
