/**
 * The earlier feature compositor (backend/compositor_old.py): five layer
 * generators with absolute coordinates, drawn in the order face, eyebrows,
 * eyes, nose, mouth onto an opaque white 512x512 canvas. There are no skip
 * rules: a layer is drawn whenever its key is present.
 */
module CompositorOld {
  import opened Wrappers
  import opened Raster
  import opened Drawing
  import opened Features
  import Compositor

  const Size := 512
  const CenterX := Size / 2
  const CenterY := Size / 2

  /** The white accumulator, and the white image the result is pasted onto. */
  const White := Rgba(255, 255, 255, 255)

  /** The categories this compositor draws, in its layer order. */
  const OldOrder: seq<Category> := [FaceShape, Eyebrows, EyeShape, NoseType, MouthShape]

  // ---------------------------------------------------------------------
  // Generators

  /** The outlines recognised by name; anything else is drawn as "oblong". */
  const FaceShapes := {"oval", "round", "square", "diamond", "heart"}

  function FaceShapeLayer(shape: string): (r: seq<Primitive>)
    ensures |r| >= 1 && AllOnCanvas(r, Size)
  {
    if shape == "oval" then
      [Ellipse(Box(100, 80, 412, 480), Some(Black), None, 3)]
    else if shape == "round" then
      [Ellipse(Box(100, 100, 412, 460), Some(Black), None, 3)]
    else if shape == "square" then
      [Rectangle(Box(100, 100, 412, 450), Black, 3)]
    else if shape == "diamond" then
      [Polygon([Point(CenterX, 80), Point(380, CenterY), Point(CenterX, 460), Point(132, CenterY)], Black, 3)]
    else if shape == "heart" then
      [ Arc(Box(80, 80, 240, 200), 180, 360, Black, 3),
        Arc(Box(272, 80, 432, 200), 180, 360, Black, 3),
        Line([Point(80, 140), Point(CenterX, 460)], Black, 3),
        Line([Point(432, 140), Point(CenterX, 460)], Black, 3) ]
    else
      [Ellipse(Box(120, 80, 392, 480), Some(Black), None, 3)]
  }

  /**
   * Face outlines use absolute boxes: oval (100, 80)-(412, 480), round
   * (100, 100)-(412, 460), square (100, 100)-(412, 450); every other shape
   * is the oblong ellipse (120, 80)-(392, 480).
   */
  lemma FaceBoxes(shape: string)
    ensures FaceShapeLayer("oval") == [Ellipse(Box(100, 80, 412, 480), Some(Black), None, 3)]
    ensures FaceShapeLayer("round") == [Ellipse(Box(100, 100, 412, 460), Some(Black), None, 3)]
    ensures FaceShapeLayer("square") == [Rectangle(Box(100, 100, 412, 450), Black, 3)]
    ensures shape !in FaceShapes ==> FaceShapeLayer(shape) == [Ellipse(Box(120, 80, 392, 480), Some(Black), None, 3)]
  {
  }

  const EyebrowLeftX := 180
  const EyebrowRightX := 332
  const EyebrowY := 170

  /** The eyebrow styles recognised by name; anything else is drawn as "straight". */
  const EyebrowKinds := {"straight", "arched", "bushy", "thin"}

  /** A horizontal brow stroke 70 pixels long centred on `x`. */
  function Brow(x: int, width: nat): Primitive {
    Line([Point(x - 35, EyebrowY), Point(x + 35, EyebrowY)], Black, width)
  }

  /** The upper half of the ellipse (x - 35, 155)-(x + 35, 175). */
  function ArchedBrow(x: int): Primitive {
    Arc(Box(x - 35, EyebrowY - 15, x + 35, EyebrowY + 5), 180, 360, Black, 4)
  }

  function EyebrowLayer(kind: string): (r: seq<Primitive>)
    ensures |r| == 2 && AllOnCanvas(r, Size)
  {
    if kind == "straight" then [Brow(EyebrowLeftX, 4), Brow(EyebrowRightX, 4)]
    else if kind == "arched" then [ArchedBrow(EyebrowLeftX), ArchedBrow(EyebrowRightX)]
    else if kind == "bushy" then [Brow(EyebrowLeftX, 6), Brow(EyebrowRightX, 6)]
    else if kind == "thin" then [Brow(EyebrowLeftX, 2), Brow(EyebrowRightX, 2)]
    else [Brow(EyebrowLeftX, 4), Brow(EyebrowRightX, 4)]
  }

  /** Eyebrow values outside straight, arched, bushy and thin (such as "rounded") draw the straight brows. */
  lemma EyebrowDefaultIsStraight(kind: string)
    requires kind !in EyebrowKinds
    ensures EyebrowLayer(kind) == EyebrowLayer("straight")
  {
  }

  /** Every eyebrow style is symmetric about the vertical centre line x = 256. */
  lemma EyebrowsSymmetric(kind: string)
    ensures MirrorSymmetric(EyebrowLayer(kind), CenterX)
  {
    forall w: nat ensures Mirror(Brow(EyebrowLeftX, w), CenterX) == Brow(EyebrowRightX, w)
                      && Mirror(Brow(EyebrowRightX, w), CenterX) == Brow(EyebrowLeftX, w) {
      MirrorSegment(Point(EyebrowLeftX - 35, EyebrowY), Point(EyebrowLeftX + 35, EyebrowY), CenterX);
      MirrorSegment(Point(EyebrowRightX - 35, EyebrowY), Point(EyebrowRightX + 35, EyebrowY), CenterX);
    }
    assert Mirror(ArchedBrow(EyebrowLeftX), CenterX) == ArchedBrow(EyebrowRightX);
    assert Mirror(ArchedBrow(EyebrowRightX), CenterX) == ArchedBrow(EyebrowLeftX);
  }

  const EyeLeftX := 180
  const EyeRightX := 332
  const EyeY := 200

  /** The filled 16x16 pupil centred on (x, 200). */
  function Pupil(x: int): Primitive {
    Ellipse(Box(x - 8, EyeY - 8, x + 8, EyeY + 8), None, Some(Black), 1)
  }

  /** The eye outline centred on `x`: a 60x30 almond or a 50x50 round ellipse. */
  function EyeOutline(x: int, round: bool): Primitive {
    if round then Ellipse(Box(x - 25, EyeY - 25, x + 25, EyeY + 25), Some(Black), None, 3)
    else Ellipse(Box(x - 30, EyeY - 15, x + 30, EyeY + 15), Some(Black), None, 3)
  }

  function EyeLayer(shape: string): (r: seq<Primitive>)
    ensures |r| == 4 && AllOnCanvas(r, Size)
    ensures Pupil(EyeLeftX) in r && Pupil(EyeRightX) in r
  {
    if shape == "almond" then
      [EyeOutline(EyeLeftX, false), Pupil(EyeLeftX), EyeOutline(EyeRightX, false), Pupil(EyeRightX)]
    else if shape == "round" then
      [EyeOutline(EyeLeftX, true), Pupil(EyeLeftX), EyeOutline(EyeRightX, true), Pupil(EyeRightX)]
    else
      [EyeOutline(EyeLeftX, false), Pupil(EyeLeftX), EyeOutline(EyeRightX, false), Pupil(EyeRightX)]
  }

  /** Only "almond" and "round" are told apart; every other value draws the almond eyes. */
  lemma EyesAlmondOrRound(shape: string)
    ensures shape != "round" ==> EyeLayer(shape) == EyeLayer("almond")
    ensures EyeLayer("round") != EyeLayer("almond")
  {
  }

  /** The eyes sit at x = 180 and x = 332, mirror images about x = 256. */
  lemma EyesSymmetric(shape: string)
    ensures EyeLeftX + EyeRightX == 2 * CenterX
    ensures MirrorSymmetric(EyeLayer(shape), CenterX)
  {
    assert Mirror(Pupil(EyeLeftX), CenterX) == Pupil(EyeRightX);
    assert Mirror(Pupil(EyeRightX), CenterX) == Pupil(EyeLeftX);
    assert forall b: bool :: Mirror(EyeOutline(EyeLeftX, b), CenterX) == EyeOutline(EyeRightX, b);
    assert forall b: bool :: Mirror(EyeOutline(EyeRightX, b), CenterX) == EyeOutline(EyeLeftX, b);
  }

  const NoseY := 280

  /** The bridge from (256, 220) down to (256, bottom). */
  function Bridge(bottom: int, width: nat): Primitive {
    Line([Point(CenterX, 220), Point(CenterX, bottom)], Black, width)
  }

  function NoseLayer(kind: string): (r: seq<Primitive>)
    ensures |r| == 2 && AllOnCanvas(r, Size)
    ensures r[0].Line? && r[0].points[0] == Point(CenterX, 220)
  {
    if kind == "straight" then
      [Bridge(NoseY, 3), Arc(Box(CenterX - 15, NoseY - 10, CenterX + 15, NoseY + 10), 0, 180, Black, 3)]
    else if kind == "broad" then
      [Bridge(NoseY, 4), Arc(Box(CenterX - 20, NoseY - 12, CenterX + 20, NoseY + 12), 0, 180, Black, 3)]
    else if kind == "button" then
      [Bridge(NoseY - 10, 3), Ellipse(Box(CenterX - 15, NoseY - 15, CenterX + 15, NoseY + 5), Some(Black), None, 3)]
    else
      [Bridge(NoseY, 3), Arc(Box(CenterX - 15, NoseY - 10, CenterX + 15, NoseY + 10), 0, 180, Black, 3)]
  }

  /** Nose values other than straight, broad and button draw the straight nose. */
  lemma NoseDefaultIsStraight(kind: string)
    requires kind !in {"straight", "broad", "button"}
    ensures NoseLayer(kind) == NoseLayer("straight")
  {
  }

  const MouthY := 360

  function MouthLayer(shape: string): (r: seq<Primitive>)
    ensures 1 <= |r| <= 2 && AllOnCanvas(r, Size)
    ensures |r| == 2 <==> shape == "full"
  {
    if shape == "full" then
      [ Arc(Box(CenterX - 40, MouthY - 15, CenterX + 40, MouthY + 5), 0, 180, Black, 4),
        Arc(Box(CenterX - 40, MouthY - 5, CenterX + 40, MouthY + 25), 180, 360, Black, 4) ]
    else if shape == "thin" then
      [Line([Point(CenterX - 40, MouthY), Point(CenterX + 40, MouthY)], Black, 3)]
    else if shape == "wide" then
      [Arc(Box(CenterX - 50, MouthY - 15, CenterX + 50, MouthY + 5), 0, 180, Black, 4)]
    else
      [Arc(Box(CenterX - 40, MouthY - 15, CenterX + 40, MouthY + 5), 0, 180, Black, 3)]
  }

  /** The thin mouth is one horizontal 80-pixel line at y = 360. */
  lemma ThinMouthIsOneLine()
    ensures var r := MouthLayer("thin");
      |r| == 1 && r[0].Line? && |r[0].points| == 2
      && r[0].points[0].y == r[0].points[1].y == 360
      && r[0].points[1].x - r[0].points[0].x == 80
  {
  }

  // ---------------------------------------------------------------------
  // Orchestration

  /** The generator of category `c` applied to its variant `v`; the other three categories are never drawn. */
  function Generate(c: Category, v: string): seq<Primitive> {
    match c
    case FaceShape => FaceShapeLayer(v)
    case Eyebrows => EyebrowLayer(v)
    case EyeShape => EyeLayer(v)
    case NoseType => NoseLayer(v)
    case MouthShape => MouthLayer(v)
    case _ => []
  }

  /** The choice for category `c` when the selection has its key, whatever the value. */
  function Take(features: FeatureSet, c: Category): seq<Choice> {
    if Key(c) in features then [Choice(c, features[Key(c)])] else []
  }

  /**
   * The layers for the categories of `order`, taken in turn: each exactly
   * when its key is present, carrying that key's value.
   */
  function LayersFor(features: FeatureSet, order: seq<Category>): (r: seq<Choice>)
    requires Compositor.Increasing(order)
    ensures forall c :: c in CategoriesOf(r) <==> c in order && Key(c) in features
    ensures Compositor.Increasing(CategoriesOf(r))
    ensures forall k | 0 <= k < |r| :: Compositor.TakenFrom(r[k], features)
  {
    if order == [] then []
    else
      var rest := LayersFor(features, order[1..]);
      TakeThenRest(features, order, rest);
      Take(features, order[0]) + rest
  }

  /** Taking the first category in front of the layers for the others gives the layers for the whole order. */
  lemma TakeThenRest(features: FeatureSet, order: seq<Category>, rest: seq<Choice>)
    requires order != [] && Compositor.Increasing(order)
    requires forall c :: c in CategoriesOf(rest) <==> c in order[1..] && Key(c) in features
    requires Compositor.Increasing(CategoriesOf(rest))
    requires forall k | 0 <= k < |rest| :: Compositor.TakenFrom(rest[k], features)
    ensures var r := Take(features, order[0]) + rest;
      && (forall c :: c in CategoriesOf(r) <==> c in order && Key(c) in features)
      && Compositor.Increasing(CategoriesOf(r))
      && (forall k | 0 <= k < |r| :: Compositor.TakenFrom(r[k], features))
  {
    CategoriesOfAppend(Take(features, order[0]), rest);
    assert CategoriesOf(Take(features, order[0])) == if Key(order[0]) in features then [order[0]] else [];
    assert forall c :: c in order <==> c == order[0] || c in order[1..];
    assert forall c | c in order[1..] :: Compositor.Rank(order[0]) < Compositor.Rank(c);
  }

  /** The layers drawn: face, eyebrows, eyes, nose, mouth, in that order, each exactly when its key is present. */
  function Layers(features: FeatureSet): (r: seq<Choice>)
    ensures forall c :: c in CategoriesOf(r) <==> c in OldOrder && Key(c) in features
    ensures Compositor.Increasing(CategoriesOf(r))
    ensures forall k | 0 <= k < |r| :: Compositor.TakenFrom(r[k], features)
  {
    var order := OldOrder;
    LayersFor(features, order)
  }

  /** Hair, facial hair and marks have no effect: changing or removing their keys leaves the layers alone. */
  lemma OnlyFiveCategories(features: FeatureSet, c: Category, v: string)
    requires c !in OldOrder
    ensures Layers(features[Key(c) := v]) == Layers(features)
    ensures Layers(features - {Key(c)}) == Layers(features)
  {
    forall d | d in OldOrder ensures Take(features[Key(c) := v], d) == Take(features, d)
                                && Take(features - {Key(c)}, d) == Take(features, d) {
      KeyInjective(c, d);
    }
    TakesAgree(features[Key(c) := v], features, OldOrder);
    TakesAgree(features - {Key(c)}, features, OldOrder);
  }

  /** Selections that take the same choices for every category of `order` give the same layers. */
  lemma {:induction false} TakesAgree(f: FeatureSet, g: FeatureSet, order: seq<Category>)
    requires Compositor.Increasing(order)
    requires forall d | d in order :: Take(f, d) == Take(g, d)
    ensures LayersFor(f, order) == LayersFor(g, order)
  {
    if order != [] {
      TakesAgree(f, g, order[1..]);
    }
  }

  /** How one chosen layer is drawn to pixels: its generator, then the rasteriser `render`. */
  function Painter(render: seq<Primitive> -> Compositor.LayerImage): Choice -> Compositor.LayerImage {
    (choice: Choice) => render(Generate(choice.category, choice.variant))
  }

  /** The flattened 512x512 RGB image for a selection whose layers are drawn by `paint`. */
  function ImageOf(features: FeatureSet, paint: Choice -> Compositor.LayerImage): (img: seq<Rgb>)
    ensures |img| == Compositor.Pixels
  {
    Flattened(White, Compositor.Rendered(Layers(features), paint), Compositor.Pixels)
  }

  lemma PixelOf(features: FeatureSet, paint: Choice -> Compositor.LayerImage, i: nat)
    requires i < Compositor.Pixels
    ensures ImageOf(features, paint)[i] == Flatten(StackAt(White, Compositor.Rendered(Layers(features), paint), i), White)
  {
  }

  /**
   * `create_composite`: composites the present layers in order onto the
   * opaque white accumulator, then pastes the result onto a white RGB
   * image (which, the accumulator being opaque, keeps its colours).
   */
  method CreateComposite(features: FeatureSet, render: seq<Primitive> -> Compositor.LayerImage)
    returns (image: seq<Rgb>)
    ensures |image| == Compositor.Pixels
    ensures image == ImageOf(features, Painter(render))
  {
    var paint := Painter(render);
    image := Composite(White, Compositor.Rendered(Layers(features), paint), Compositor.Pixels);
    forall i | 0 <= i < Compositor.Pixels ensures image[i] == ImageOf(features, paint)[i] {
      PixelOf(features, paint, i);
    }
  }

  /** An empty selection yields an all-white 512x512 image. */
  lemma EmptySelectionIsWhite(paint: Choice -> Compositor.LayerImage)
    ensures forall i | 0 <= i < Compositor.Pixels :: ImageOf(map[], paint)[i] == Rgb(255, 255, 255)
  {
    var none: FeatureSet := map[];
    assert Layers(none) == [];
    var stack := Compositor.Rendered(Layers(none), paint);
    assert stack == [];
    forall i | 0 <= i < Compositor.Pixels ensures ImageOf(none, paint)[i] == Rgb(255, 255, 255) {
      PixelOf(none, paint, i);
      assert StackAt(White, stack, i) == White;
    }
  }
}
