/**
 * The feature-layer compositor (`FacialFeatureCompositor` in
 * backend/compositor.py): eight layer generators, each a pure function of
 * its own variant string onto a list of vector primitives placed at fixed
 * integer coordinates, the orchestrator that picks and orders the layers
 * from a feature selection, and the entry point that composites the
 * rendered layers onto a light-grey 512x512 canvas.
 */
module Compositor {
  import opened Wrappers
  import opened Strings
  import opened Raster
  import opened Drawing
  import opened Features

  // ---------------------------------------------------------------------
  // Proportion model

  const Size := 512
  const FaceWidth := 260
  const FaceHeight := 360
  const CenterX := Size / 2
  const CenterY := Size / 2
  const FaceLeft := CenterX - FaceWidth / 2
  const FaceRight := CenterX + FaceWidth / 2
  const FaceTop := CenterY - FaceHeight / 2
  const FaceBottom := CenterY + FaceHeight / 2
  /** Horizontal distance from the centre line to each eye and eyebrow. */
  const EyeSpacing := 75
  const LeftX := CenterX - EyeSpacing
  const RightX := CenterX + EyeSpacing
  const EyebrowY := CenterY - 70
  const EyeY := CenterY - 40
  const NoseStartY := CenterY - 20
  const NoseEndY := CenterY + 50
  const MouthY := CenterY + 90

  /** Number of pixels of the canvas and of every layer. */
  const Pixels := Size * Size

  /** The light-grey background of the accumulator and of the flattened image. */
  const Background := Rgba(245, 245, 245, 255)

  /** A rendered layer: one RGBA pixel per canvas position. */
  type LayerImage = s: seq<Rgba> | |s| == Pixels witness seq(Pixels, _ => Clear)

  // ---------------------------------------------------------------------
  // Face outline

  /** The outlines the face-shape generator recognises; anything else is drawn as "oblong". */
  const FaceShapes := {"oval", "round", "square", "diamond", "heart"}

  function FaceShapeLayer(shape: string): (r: seq<Primitive>)
    ensures |r| >= 1 && AllOnCanvas(r, Size)
  {
    if shape == "oval" then
      [Ellipse(Box(FaceLeft, FaceTop, FaceRight, FaceBottom), Some(Black), None, 4)]
    else if shape == "round" then
      var adjust := (FaceHeight - FaceWidth) / 2;
      [Ellipse(Box(FaceLeft, FaceTop + adjust, FaceRight, FaceBottom - adjust), Some(Black), None, 4)]
    else if shape == "square" then
      [Rectangle(Box(FaceLeft, FaceTop, FaceRight, FaceBottom), Black, 4)]
    else if shape == "diamond" then
      [Polygon([Point(CenterX, FaceTop), Point(FaceRight, CenterY), Point(CenterX, FaceBottom), Point(FaceLeft, CenterY)], Black, 4)]
    else if shape == "heart" then
      [ Arc(Box(FaceLeft, FaceTop, CenterX - 10, FaceTop + 100), 180, 360, Black, 4),
        Arc(Box(CenterX + 10, FaceTop, FaceRight, FaceTop + 100), 180, 360, Black, 4),
        Line([Point(FaceLeft, FaceTop + 50), Point(CenterX, FaceBottom)], Black, 4),
        Line([Point(FaceRight, FaceTop + 50), Point(CenterX, FaceBottom)], Black, 4) ]
    else
      [Ellipse(Box(FaceLeft + 20, FaceTop, FaceRight - 20, FaceBottom), Some(Black), None, 4)]
  }

  /**
   * The face box is (126, 76)-(386, 436); "oval" outlines exactly that box,
   * "round" trims 50 pixels off top and bottom to a 260x260 box, and every
   * unrecognised shape draws the oblong ellipse (146, 76)-(366, 436).
   */
  lemma FaceBoxes(shape: string)
    ensures FaceLeft == 126 && FaceRight == 386 && FaceTop == 76 && FaceBottom == 436
    ensures FaceShapeLayer("oval") == [Ellipse(Box(126, 76, 386, 436), Some(Black), None, 4)]
    ensures FaceShapeLayer("round") == [Ellipse(Box(126, 126, 386, 386), Some(Black), None, 4)]
    ensures shape !in FaceShapes ==> FaceShapeLayer(shape) == [Ellipse(Box(146, 76, 366, 436), Some(Black), None, 4)]
    ensures shape !in FaceShapes ==> FaceShapeLayer(shape) == FaceShapeLayer("oblong")
  {
  }

  // ---------------------------------------------------------------------
  // Eyebrows

  function EyebrowLayer(kind: string): (r: seq<Primitive>)
    ensures |r| == 2 && AllOnCanvas(r, Size)
  {
    var l, rx, y := LeftX, RightX, EyebrowY;
    if kind == "straight" then
      [ Line([Point(l - 40, y), Point(l + 40, y)], Black, 5),
        Line([Point(rx - 40, y), Point(rx + 40, y)], Black, 5) ]
    else if kind == "arched" then
      [ Arc(Box(l - 40, y - 15, l + 40, y + 5), 180, 360, Black, 5),
        Arc(Box(rx - 40, y - 15, rx + 40, y + 5), 180, 360, Black, 5) ]
    else if kind == "rounded" then
      [ Arc(Box(l - 40, y - 10, l + 40, y + 10), 180, 360, Black, 5),
        Arc(Box(rx - 40, y - 10, rx + 40, y + 10), 180, 360, Black, 5) ]
    else if kind == "angled" then
      [ Line([Point(l - 40, y + 5), Point(l - 10, y - 5), Point(l + 40, y)], Black, 5),
        Line([Point(rx - 40, y), Point(rx + 10, y - 5), Point(rx + 40, y + 5)], Black, 5) ]
    else if kind == "bushy" then
      [ Line([Point(l - 40, y), Point(l + 40, y)], Black, 8),
        Line([Point(rx - 40, y), Point(rx + 40, y)], Black, 8) ]
    else if kind == "thin" then
      [ Line([Point(l - 40, y), Point(l + 40, y)], Black, 3),
        Line([Point(rx - 40, y), Point(rx + 40, y)], Black, 3) ]
    else
      [ Line([Point(l - 40, y), Point(l + 40, y)], Black, 5),
        Line([Point(rx - 40, y), Point(rx + 40, y)], Black, 5) ]
  }

  const EyebrowKinds := {"straight", "arched", "rounded", "angled", "bushy", "thin"}

  /** The eyebrow default branch draws exactly what "straight" draws. */
  lemma EyebrowDefaultIsStraight(kind: string)
    requires kind !in EyebrowKinds
    ensures EyebrowLayer(kind) == EyebrowLayer("straight")
    ensures LeftX == 181 && RightX == 331
  {
  }

  /**
   * Every eyebrow variant is mirror-symmetric about x = 256: the right
   * brow's box or polyline is the left one's reflection.
   */
  lemma EyebrowsSymmetric(kind: string)
    ensures MirrorSymmetric(EyebrowLayer(kind), CenterX)
  {
    var l, rx, y := LeftX, RightX, EyebrowY;
    MirrorSegment(Point(l - 40, y), Point(l + 40, y), CenterX);
    MirrorSegment(Point(rx - 40, y), Point(rx + 40, y), CenterX);
    MirrorPolyline3(Point(l - 40, y + 5), Point(l - 10, y - 5), Point(l + 40, y), CenterX);
    MirrorPolyline3(Point(rx - 40, y), Point(rx + 10, y - 5), Point(rx + 40, y + 5), CenterX);
  }

  // ---------------------------------------------------------------------
  // Eyes

  /** A filled pupil of radius 10 centred at (x, EyeY). */
  function Pupil(x: int): Primitive {
    Ellipse(Box(x - 10, EyeY - 10, x + 10, EyeY + 10), None, Some(Black), 1)
  }

  /** The eye variants the generator tells apart; every other value is drawn as "monolid". */
  datatype EyeStyle = Almond | RoundEyes | Hooded | Upturned | Downturned | Monolid

  /** Dispatch on the eye-shape value: exact matches, else the monolid default. */
  function EyeStyleOf(shape: string): EyeStyle {
    if shape == "almond" then Almond
    else if shape == "round" then RoundEyes
    else if shape == "hooded" then Hooded
    else if shape == "upturned" then Upturned
    else if shape == "downturned" then Downturned
    else Monolid
  }

  /** The strokes of one eye variant, left eye first. */
  function EyeStrokes(style: EyeStyle): seq<Primitive> {
    var l, rx, y := LeftX, RightX, EyeY;
    match style
    case Almond =>
      [ Ellipse(Box(l - 35, y - 18, l + 35, y + 18), Some(Black), None, 4), Pupil(l),
        Ellipse(Box(rx - 35, y - 18, rx + 35, y + 18), Some(Black), None, 4), Pupil(rx) ]
    case RoundEyes =>
      [ Ellipse(Box(l - 28, y - 28, l + 28, y + 28), Some(Black), None, 4), Pupil(l),
        Ellipse(Box(rx - 28, y - 28, rx + 28, y + 28), Some(Black), None, 4), Pupil(rx) ]
    case Hooded =>
      [ Ellipse(Box(l - 35, y - 15, l + 35, y + 15), Some(Black), None, 4),
        Arc(Box(l - 35, y - 25, l + 35, y - 5), 180, 360, Black, 3), Pupil(l),
        Ellipse(Box(rx - 35, y - 15, rx + 35, y + 15), Some(Black), None, 4),
        Arc(Box(rx - 35, y - 25, rx + 35, y - 5), 180, 360, Black, 3), Pupil(rx) ]
    case Upturned =>
      [ Line([Point(l - 35, y + 5), Point(l, y - 10), Point(l + 35, y - 15)], Black, 4),
        Line([Point(rx - 35, y - 15), Point(rx, y - 10), Point(rx + 35, y + 5)], Black, 4),
        Pupil(l), Pupil(rx) ]
    case Downturned =>
      [ Line([Point(l - 35, y - 15), Point(l, y - 10), Point(l + 35, y + 5)], Black, 4),
        Line([Point(rx - 35, y + 5), Point(rx, y - 10), Point(rx + 35, y - 15)], Black, 4),
        Pupil(l), Pupil(rx) ]
    case Monolid =>
      [ Ellipse(Box(l - 35, y - 15, l + 35, y + 15), Some(Black), None, 4), Pupil(l),
        Ellipse(Box(rx - 35, y - 15, rx + 35, y + 15), Some(Black), None, 4), Pupil(rx) ]
  }

  function EyeLayer(shape: string): (r: seq<Primitive>)
    ensures 4 <= |r| <= 6 && AllOnCanvas(r, Size)
    ensures Pupil(LeftX) in r && Pupil(RightX) in r
  {
    EyeStrokes(EyeStyleOf(shape))
  }

  /**
   * Every eye variant is mirror-symmetric about x = 256: outlines, lids,
   * pupils and polylines on the right reflect those on the left.
   */
  lemma EyesSymmetric(shape: string)
    ensures MirrorSymmetric(EyeLayer(shape), CenterX)
  {
    EyeStrokesSymmetric(EyeStyleOf(shape));
  }

  lemma EyeStrokesSymmetric(style: EyeStyle)
    ensures MirrorSymmetric(EyeStrokes(style), CenterX)
  {
    var l, rx, y := LeftX, RightX, EyeY;
    match style
    case Upturned =>
      MirrorPolyline3(Point(l - 35, y + 5), Point(l, y - 10), Point(l + 35, y - 15), CenterX);
      MirrorPolyline3(Point(rx - 35, y - 15), Point(rx, y - 10), Point(rx + 35, y + 5), CenterX);
    case Downturned =>
      MirrorPolyline3(Point(l - 35, y - 15), Point(l, y - 10), Point(l + 35, y + 5), CenterX);
      MirrorPolyline3(Point(rx - 35, y + 5), Point(rx, y - 10), Point(rx + 35, y - 15), CenterX);
    case _ =>
  }

  // ---------------------------------------------------------------------
  // Nose

  /** The two nostril outlines, each `w` wide and `h` high, `gap` pixels either side of the centre line. */
  function Nostrils(gap: int, w: int, h: int): seq<Primitive> {
    [ Ellipse(Box(CenterX - gap - w, NoseEndY, CenterX - gap, NoseEndY + h), Some(Black), None, 2),
      Ellipse(Box(CenterX + gap, NoseEndY, CenterX + gap + w, NoseEndY + h), Some(Black), None, 2) ]
  }

  function NoseLayer(kind: string): (r: seq<Primitive>)
    ensures 4 <= |r| <= 5 && AllOnCanvas(r, Size)
    ensures |r| == 5 <==> kind !in {"straight", "aquiline", "broad", "button", "narrow"}
  {
    var cx, top, end := CenterX, NoseStartY, NoseEndY;
    if kind == "straight" then
      [ Line([Point(cx, top), Point(cx, end)], Black, 4),
        Arc(Box(cx - 18, end - 12, cx + 18, end + 12), 0, 180, Black, 4) ] + Nostrils(8, 7, 7)
    else if kind == "aquiline" then
      [ Arc(Box(cx - 15, top - 10, cx + 15, end), 180, 270, Black, 4),
        Arc(Box(cx - 18, end - 12, cx + 18, end + 12), 0, 180, Black, 4) ] + Nostrils(8, 7, 7)
    else if kind == "broad" then
      [ Line([Point(cx, top), Point(cx, end)], Black, 5),
        Arc(Box(cx - 22, end - 15, cx + 22, end + 15), 0, 180, Black, 4) ] + Nostrils(10, 8, 8)
    else if kind == "button" then
      [ Line([Point(cx, top), Point(cx, end - 5)], Black, 4),
        Ellipse(Box(cx - 16, end - 12, cx + 16, end + 8), Some(Black), None, 4),
        Ellipse(Box(cx - 12, end + 2, cx - 7, end + 7), None, Some(Black), 1),
        Ellipse(Box(cx + 7, end + 2, cx + 12, end + 7), None, Some(Black), 1) ]
    else if kind == "narrow" then
      [ Line([Point(cx, top), Point(cx, end)], Black, 3),
        Arc(Box(cx - 14, end - 10, cx + 14, end + 10), 0, 180, Black, 3) ] + Nostrils(7, 5, 5)
    else
      [ Line([Point(cx, top), Point(cx, end)], Black, 5),
        Line([Point(cx - 3, top), Point(cx - 3, end)], Black, 2),
        Arc(Box(cx - 18, end - 12, cx + 18, end + 12), 0, 180, Black, 4) ] + Nostrils(8, 7, 7)
  }

  // ---------------------------------------------------------------------
  // Mouth

  function MouthLayer(shape: string): (r: seq<Primitive>)
    ensures 1 <= |r| <= 2 && AllOnCanvas(r, Size)
    ensures |r| == 1 <==> shape == "downturned"
  {
    var cx, y := CenterX, MouthY;
    if shape == "full" then
      [ Arc(Box(cx - 45, y - 18, cx + 45, y), 0, 180, Black, 5),
        Arc(Box(cx - 45, y, cx + 45, y + 28), 180, 360, Black, 5) ]
    else if shape == "thin" then
      [ Line([Point(cx - 42, y), Point(cx + 42, y)], Black, 4),
        Arc(Box(cx - 42, y - 5, cx + 42, y + 5), 0, 180, Black, 3) ]
    else if shape == "wide" then
      [ Arc(Box(cx - 55, y - 15, cx + 55, y + 2), 0, 180, Black, 5),
        Arc(Box(cx - 55, y - 2, cx + 55, y + 20), 180, 360, Black, 5) ]
    else if shape == "small" then
      [ Arc(Box(cx - 30, y - 12, cx + 30, y), 0, 180, Black, 4),
        Arc(Box(cx - 30, y, cx + 30, y + 18), 180, 360, Black, 4) ]
    else if shape == "bow" then
      [ Line([Point(cx - 45, y - 8), Point(cx - 15, y - 12), Point(cx, y - 8), Point(cx + 15, y - 12), Point(cx + 45, y - 8)], Black, 4),
        Arc(Box(cx - 45, y - 8, cx + 45, y + 20), 180, 360, Black, 5) ]
    else if shape == "downturned" then
      [ Arc(Box(cx - 45, y + 5, cx + 45, y + 30), 0, 180, Black, 5) ]
    else
      [ Arc(Box(cx - 42, y - 15, cx + 42, y), 0, 180, Black, 4),
        Arc(Box(cx - 42, y, cx + 42, y + 22), 180, 360, Black, 4) ]
  }

  // ---------------------------------------------------------------------
  // Hair

  /** The head arc drawn above the face by every hair style but "bald" and "receding hairline". */
  const Crown := Arc(Box(CenterX - 100, FaceTop - 70, CenterX + 100, FaceTop + 30), 180, 360, Black, 5)

  /** One curl of curly hair: a full circle of radius 10 centred `i` pixels right of the centre line. */
  function Ringlet(i: int): Primitive {
    Arc(Box(CenterX + i - 10, FaceTop - 60, CenterX + i + 10, FaceTop - 40), 0, 360, Black, 2)
  }

  /** The nine curls for i in -80, -60, ..., 80. */
  function Ringlets(): (r: seq<Primitive>)
    ensures |r| == 9
  {
    seq(9, k requires 0 <= k < 9 => Ringlet(-80 + 20 * k))
  }

  /**
   * The wave vertex for offset `i`: 10 pixels below the strand line where
   * `i % 60 == 0`, 10 above elsewhere. Python's `%` floors; with the
   * positive divisor 60 it agrees with Dafny's Euclidean `%`.
   */
  function WavePoint(i: int): Point {
    Point(CenterX + i, FaceTop - 50 + (if i % 60 == 0 then 10 else -10))
  }

  /** The seven vertices of the wavy polyline, for i in -90, -60, ..., 90. */
  function WavePoints(): (r: seq<Point>)
    ensures |r| == 7
  {
    seq(7, k requires 0 <= k < 7 => WavePoint(-90 + 30 * k))
  }

  /** One strand of straight hair: a vertical stroke `i` pixels right of the centre line. */
  function Strand(i: int): Primitive {
    Line([Point(CenterX + i, FaceTop - 60), Point(CenterX + i, FaceTop - 20)], Black, 2)
  }

  /** The thirteen strands for i in -90, -75, ..., 90. */
  function Strands(): (r: seq<Primitive>)
    ensures |r| == 13
  {
    seq(13, k requires 0 <= k < 13 => Strand(-90 + 15 * k))
  }

  /** The curl loop `for i in range(-80, 81, 20)`, appending one curl per pass. */
  method DrawRinglets() returns (r: seq<Primitive>)
    ensures r == Ringlets()
  {
    r := [];
    var i := -80;
    ghost var k := 0;
    while i < 81
      invariant i == -80 + 20 * k && 0 <= k <= 9
      invariant r == Ringlets()[..k]
    {
      r := r + [Ringlet(i)];
      i, k := i + 20, k + 1;
    }
  }

  /** The wave loop `for i in range(-90, 91, 30)`, appending one vertex per pass. */
  method DrawWavePoints() returns (points: seq<Point>)
    ensures points == WavePoints()
  {
    points := [];
    var i := -90;
    ghost var k := 0;
    while i < 91
      invariant i == -90 + 30 * k && 0 <= k <= 7
      invariant points == WavePoints()[..k]
    {
      points := points + [WavePoint(i)];
      i, k := i + 30, k + 1;
    }
  }

  /** The strand loop `for i in range(-90, 91, 15)`, appending one strand per pass. */
  method DrawStrands() returns (r: seq<Primitive>)
    ensures r == Strands()
  {
    r := [];
    var i := -90;
    ghost var k := 0;
    while i < 91
      invariant i == -90 + 15 * k && 0 <= k <= 13
      invariant r == Strands()[..k]
    {
      r := r + [Strand(i)];
      i, k := i + 15, k + 1;
    }
  }

  /**
   * Hair dispatch: exact "bald", then exact "receding hairline", then a
   * substring test for "curly", then for "wavy", else straight hair.
   */
  function HairLayer(hairType: string): (r: seq<Primitive>)
    ensures AllOnCanvas(r, Size)
  {
    if hairType == "bald" then
      [Arc(Box(CenterX - 90, FaceTop - 60, CenterX + 90, FaceTop + 40), 180, 360, Black, 4)]
    else if hairType == "receding hairline" then
      [ Arc(Box(CenterX - 90, FaceTop - 50, CenterX - 20, FaceTop + 20), 180, 270, Black, 5),
        Arc(Box(CenterX + 20, FaceTop - 50, CenterX + 90, FaceTop + 20), 270, 360, Black, 5),
        Arc(Box(CenterX - 30, FaceTop - 20, CenterX + 30, FaceTop + 20), 0, 180, Black, 5) ]
    else if Contains(hairType, "curly") then
      [Crown] + Ringlets()
    else if Contains(hairType, "wavy") then
      [Crown, Line(WavePoints(), Black, 3)]
    else
      [Crown] + Strands()
  }

  /** A value mentioning "curly" draws curly hair even if it also mentions "wavy". */
  lemma CurlyBeatsWavy(hairType: string)
    requires Contains(hairType, "curly") && hairType != "bald" && hairType != "receding hairline"
    ensures HairLayer(hairType) == HairLayer("curly") == [Crown] + Ringlets()
  {
    ContainsSelf("curly");
  }

  /** A value mentioning "wavy" but not "curly" draws the seven-vertex wave. */
  lemma WavyWithoutCurly(hairType: string)
    requires Contains(hairType, "wavy") && !Contains(hairType, "curly")
    requires hairType != "bald" && hairType != "receding hairline"
    ensures HairLayer(hairType) == [Crown, Line(WavePoints(), Black, 3)]
  {
  }

  /** Straight hair is the crown plus 13 strands at x = 256 + i for i = -90, -75, ..., 90. */
  lemma StrandPositions(hairType: string)
    requires hairType !in {"bald", "receding hairline"}
    requires !Contains(hairType, "curly") && !Contains(hairType, "wavy")
    ensures |HairLayer(hairType)| == 14 && HairLayer(hairType)[0] == Crown
    ensures forall k | 1 <= k < 14 :: HairLayer(hairType)[k] == Strand(-90 + 15 * (k - 1))
  {
    var straight := HairLayer(hairType);
    assert straight == [Crown] + Strands();
    forall k | 1 <= k < 14 ensures straight[k] == Strand(-90 + 15 * (k - 1)) {
      assert straight[k] == Strands()[k - 1];
    }
  }

  /** Curly hair is the crown plus 9 circles centred at x = 256 + i for i = -80, -60, ..., 80. */
  lemma CurlPositions()
    ensures |HairLayer("curly")| == 10 && HairLayer("curly")[0] == Crown
    ensures forall k | 1 <= k < 10 :: HairLayer("curly")[k].box.left + 10 == 256 - 80 + 20 * (k - 1)
  {
    ContainsSelf("curly");
    var curly := HairLayer("curly");
    assert curly == [Crown] + Ringlets();
    forall k | 1 <= k < 10
      ensures curly[k].box.left + 10 == 256 - 80 + 20 * (k - 1)
    {
      assert curly[k] == Ringlets()[k - 1] == Ringlet(-80 + 20 * (k - 1));
    }
  }

  /**
   * The wavy polyline's vertex k sits at x = 166 + 30k, and its y is
   * FaceTop - 40 exactly where (x - 256) is a multiple of 60, that is for
   * i in {-60, 0, 60}; the other four vertices sit at FaceTop - 60.
   */
  lemma WaveHeights()
    ensures forall k | 0 <= k < 7 :: WavePoints()[k].x == 166 + 30 * k
    ensures forall k | 0 <= k < 7 ::
      (WavePoints()[k].y == FaceTop - 40 <==> (WavePoints()[k].x - CenterX) % 60 == 0)
    ensures forall k | 0 <= k < 7 ::
      (WavePoints()[k].y == FaceTop - 40 <==> k in {1, 3, 5})
    ensures forall k | 0 <= k < 7 ::
      (WavePoints()[k].y == FaceTop - 40 || WavePoints()[k].y == FaceTop - 60)
  {
    forall k | 0 <= k < 7
      ensures WavePoints()[k].y == FaceTop - 40 <==> k in {1, 3, 5}
    {
      var i := -90 + 30 * k;
      assert WavePoints()[k] == WavePoint(i);
      assert k == 0 || k == 1 || k == 2 || k == 3 || k == 4 || k == 5 || k == 6;
    }
  }

  // ---------------------------------------------------------------------
  // Facial hair

  /** One `(randint(-70, 70), randint(-15, 55))` pair drawn by the stubble loop. */
  datatype Offset = Offset(dx: int, dy: int)

  /**
   * The random draws of the stubble loop, in call order: 100 pairs, each
   * within `randint`'s inclusive bounds. The source draws them from the
   * unseeded global generator; here they are supplied by the caller.
   */
  type StubbleDraws = d: seq<Offset>
    | |d| == 100 && forall k | 0 <= k < |d| :: -70 <= d[k].dx <= 70 && -15 <= d[k].dy <= 55
    witness seq(100, _ => Offset(0, 0))

  /** The single-pixel stubble mark for one draw. */
  function StubbleDot(o: Offset): Primitive {
    Dot(Point(CenterX + o.dx, MouthY + o.dy), Black)
  }

  function StubbleDots(draws: StubbleDraws): (r: seq<Primitive>)
    ensures |r| == 100
  {
    seq(100, k requires 0 <= k < 100 => StubbleDot(draws[k]))
  }

  /**
   * The stubble loop `for i in range(100)`: one black point per pass at
   * (256 + dx, 346 + dy). Whatever the draws, there are exactly 100 points,
   * all with x in [186, 326] and y in [331, 401].
   */
  method DrawStubble(draws: StubbleDraws) returns (dots: seq<Primitive>)
    ensures dots == StubbleDots(draws)
    ensures |dots| == 100
    ensures forall k | 0 <= k < |dots| ::
      dots[k].Dot? && dots[k].colour == Black && 186 <= dots[k].at.x <= 326 && 331 <= dots[k].at.y <= 401
  {
    dots := [];
    var i := 0;
    while i < 100
      invariant 0 <= i <= 100
      invariant dots == StubbleDots(draws)[..i]
    {
      dots := dots + [StubbleDot(draws[i])];
      i := i + 1;
    }
  }

  const FacialHairKinds := {"mustache", "beard", "goatee", "stubble"}

  function FacialHairLayer(kind: string, draws: StubbleDraws): (r: seq<Primitive>)
    ensures AllOnCanvas(r, Size)
    ensures r == [] <==> kind !in FacialHairKinds
  {
    var cx, cy, y := CenterX, CenterY, MouthY;
    if kind == "mustache" then
      [ Arc(Box(cx - 50, y - 35, cx - 10, y - 10), 0, 180, Black, 6),
        Arc(Box(cx + 10, y - 35, cx + 50, y - 10), 0, 180, Black, 6) ]
    else if kind == "beard" then
      [ Arc(Box(cx - 70, y, cx + 70, FaceBottom + 30), 0, 180, Black, 8),
        Line([Point(cx - 70, y + 20), Point(cx - 100, cy)], Black, 6),
        Line([Point(cx + 70, y + 20), Point(cx + 100, cy)], Black, 6) ]
    else if kind == "goatee" then
      [Ellipse(Box(cx - 25, y + 15, cx + 25, y + 65), Some(Black), Some(Rgba(100, 100, 100, 128)), 4)]
    else if kind == "stubble" then
      StubbleDots(draws)
    else
      []
  }

  // ---------------------------------------------------------------------
  // Distinctive marks

  /** First substring match among "scar", "mole", "broken nose", "birthmark"; anything else draws nothing. */
  function MarksLayer(mark: string): (r: seq<Primitive>)
    ensures |r| <= 1 && AllOnCanvas(r, Size)
    ensures r == [] <==>
      !Contains(mark, "scar") && !Contains(mark, "mole") && !Contains(mark, "broken nose") && !Contains(mark, "birthmark")
  {
    var cx, cy := CenterX, CenterY;
    if Contains(mark, "scar") then
      var sx, sy := cx - 60, cy + 20;
      [Line([Point(sx, sy), Point(sx + 30, sy + 40)], DarkRed, 3)]
    else if Contains(mark, "mole") then
      var mx, my := cx + 50, cy + 30;
      [Ellipse(Box(mx - 4, my - 4, mx + 4, my + 4), None, Some(Black), 1)]
    else if Contains(mark, "broken nose") then
      var ny := cy + 10;
      [Line([Point(cx - 8, ny), Point(cx + 8, ny)], Black, 6)]
    else if Contains(mark, "birthmark") then
      var my := cy - 100;
      [Ellipse(Box(cx - 15, my - 10, cx + 15, my + 10), Some(Brown), Some(Rgba(139, 69, 19, 128)), 2)]
    else
      []
  }

  /** The earliest keyword in the priority order decides the mark: a "scar" mention wins over all others. */
  lemma MarksPriority(mark: string)
    ensures Contains(mark, "scar") ==> MarksLayer(mark) == MarksLayer("scar")
    ensures !Contains(mark, "scar") && Contains(mark, "mole") ==> MarksLayer(mark) == MarksLayer("mole")
    ensures !Contains(mark, "scar") && !Contains(mark, "mole") && Contains(mark, "broken nose") ==>
      MarksLayer(mark) == MarksLayer("broken nose")
  {
    ContainsSelf("scar");
    ContainsSelf("mole");
    ContainsSelf("broken nose");
    MissingCharRulesOut("mole", "scar", 's');
    MissingCharRulesOut("broken nose", "scar", 'c');
    MissingCharRulesOut("broken nose", "mole", 'm');
  }

  /** "missing tooth" matches no keyword, so its layer is empty. */
  lemma MissingToothDrawsNothing()
    ensures MarksLayer("missing tooth") == []
  {
    MissingCharRulesOut("missing tooth", "scar", 'c');
    MissingCharRulesOut("missing tooth", "mole", 'l');
    MissingCharRulesOut("missing tooth", "broken nose", 'b');
    MissingCharRulesOut("missing tooth", "birthmark", 'b');
  }

  // ---------------------------------------------------------------------
  // Orchestration

  /** The fixed, total layer order of `create_composite`. */
  const LayerOrder: seq<Category> :=
    [FaceShape, FacialHair, HairType, Eyebrows, EyeShape, NoseType, MouthShape, DistinctiveMarks]

  /** The selection keys `create_composite` looks at; every other key is ignored. */
  const LayerKeys := {"faceShape", "facialHair", "hairType", "eyebrows", "eyeShape", "noseType", "mouthShape", "distinctiveMarks"}

  /** Position of a category in the layer order. */
  function Rank(c: Category): nat {
    match c
    case FaceShape => 0
    case FacialHair => 1
    case HairType => 2
    case Eyebrows => 3
    case EyeShape => 4
    case NoseType => 5
    case MouthShape => 6
    case DistinctiveMarks => 7
  }

  lemma RankOfOrder(k: nat)
    requires k < |LayerOrder|
    ensures Rank(LayerOrder[k]) == k
    ensures forall c :: Rank(c) == k ==> c == LayerOrder[k]
  {
  }

  /** Categories listed in strictly increasing layer order (so each at most once). */
  predicate Increasing(cs: seq<Category>) {
    forall k, j | 0 <= k < j < |cs| :: Rank(cs[k]) < Rank(cs[j])
  }

  /** In an increasing list, ranks grow by at least one per position. */
  lemma {:induction false} IncreasingGap(cs: seq<Category>, k: nat, j: nat)
    requires Increasing(cs) && k <= j < |cs|
    ensures Rank(cs[k]) + (j - k) <= Rank(cs[j])
    decreases j - k
  {
    if k < j {
      IncreasingGap(cs, k + 1, j);
    }
  }

  /**
   * Whether `create_composite` draws category `c` for the selection:
   * facial hair needs a non-empty value other than "clean shaven", marks a
   * non-empty value other than "none"; the other six need only the key.
   */
  predicate Renders(features: FeatureSet, c: Category) {
    Key(c) in features &&
    match c
    case FacialHair => features[Key(c)] != "" && features[Key(c)] != "clean shaven"
    case DistinctiveMarks => features[Key(c)] != "" && features[Key(c)] != "none"
    case _ => true
  }

  /** The categories at positions `from` onwards of the layer order that the selection draws. */
  function PicksFrom(features: FeatureSet, from: nat): (r: seq<Category>)
    requires from <= |LayerOrder|
    ensures forall c :: c in r <==> from <= Rank(c) && Renders(features, c)
    decreases |LayerOrder| - from
  {
    if from == |LayerOrder| then []
    else
      var c := LayerOrder[from];
      RankOfOrder(from);
      var rest := PicksFrom(features, from + 1);
      if Renders(features, c) then [c] + rest else rest
  }

  /**
   * The categories drawn for a selection, in the fixed order face, facial
   * hair, hair, eyebrows, eyes, nose, mouth, marks, each at most once and
   * exactly when its skip rule lets it through.
   */
  function Picks(features: FeatureSet): (r: seq<Category>)
    ensures Increasing(r)
    ensures forall c :: c in r <==> Renders(features, c)
  {
    PicksFromIncreasing(features, 0);
    PicksFrom(features, 0)
  }

  /** The picked list is in strictly increasing layer order. */
  lemma {:induction false} PicksFromIncreasing(features: FeatureSet, from: nat)
    requires from <= |LayerOrder|
    ensures Increasing(PicksFrom(features, from))
    decreases |LayerOrder| - from
  {
    if from < |LayerOrder| {
      PicksFromIncreasing(features, from + 1);
      RankOfOrder(from);
      var rest := PicksFrom(features, from + 1);
      forall k | 0 <= k < |rest| ensures from < Rank(rest[k]) {
        assert rest[k] in rest;
      }
    }
  }

  /** The generator of category `c` applied to its variant `v`. */
  function Generate(c: Category, v: string, draws: StubbleDraws): seq<Primitive> {
    match c
    case FaceShape => FaceShapeLayer(v)
    case FacialHair => FacialHairLayer(v, draws)
    case HairType => HairLayer(v)
    case Eyebrows => EyebrowLayer(v)
    case EyeShape => EyeLayer(v)
    case NoseType => NoseLayer(v)
    case MouthShape => MouthLayer(v)
    case DistinctiveMarks => MarksLayer(v)
  }

  /** The entry of the selection that `choice` was taken from. */
  predicate TakenFrom(choice: Choice, features: FeatureSet) {
    Key(choice.category) in features && choice.variant == features[Key(choice.category)]
  }

  /**
   * The orchestrator: one (category, variant) choice per drawn category, in
   * layer order, each carrying that category's own value.
   */
  function Layers(features: FeatureSet): (r: seq<Choice>)
    ensures CategoriesOf(r) == Picks(features)
    ensures forall k | 0 <= k < |r| :: TakenFrom(r[k], features)
  {
    var cs := Picks(features);
    var r := seq(|cs|, k requires 0 <= k < |cs| => Choice(cs[k], features[Key(cs[k])]));
    assert forall k | 0 <= k < |cs| :: CategoriesOf(r)[k] == cs[k];
    r
  }

  /**
   * The skip rules: facial hair is skipped when its key is absent, empty or
   * "clean shaven", marks when absent, empty or "none"; each of the other
   * six categories is drawn whenever its key is present, even with "".
   */
  lemma SkipRules(features: FeatureSet, c: Category)
    ensures FacialHair in Picks(features) <==>
      "facialHair" in features && features["facialHair"] !in {"", "clean shaven"}
    ensures DistinctiveMarks in Picks(features) <==>
      "distinctiveMarks" in features && features["distinctiveMarks"] !in {"", "none"}
    ensures c != FacialHair && c != DistinctiveMarks ==> (c in Picks(features) <==> Key(c) in features)
  {
  }

  /** Two selections that draw the same categories from position `from` on pick the same list from there. */
  lemma {:induction false} PicksFromAgree(f: FeatureSet, g: FeatureSet, from: nat)
    requires from <= |LayerOrder|
    requires forall c | from <= Rank(c) :: Renders(f, c) == Renders(g, c)
    ensures PicksFrom(f, from) == PicksFrom(g, from)
    decreases |LayerOrder| - from
  {
    if from < |LayerOrder| {
      RankOfOrder(from);
      PicksFromAgree(f, g, from + 1);
    }
  }

  /** Layers depend only on which categories are drawn and on the values of those. */
  lemma LayersAgree(f: FeatureSet, g: FeatureSet)
    requires forall c :: Renders(f, c) == Renders(g, c)
    requires forall c | Renders(f, c) && Renders(g, c) :: f[Key(c)] == g[Key(c)]
    ensures Layers(f) == Layers(g)
  {
    PicksFromAgree(f, g, 0);
    var lf, lg := Layers(f), Layers(g);
    forall k | 0 <= k < |lf| ensures lf[k] == lg[k] {
      assert lf[k].category in Picks(f);
    }
  }

  /** Keys outside the eight layer keys are ignored. */
  lemma UnknownKeysIgnored(features: FeatureSet)
    ensures Layers(features) == Layers(map k | k in features && k in LayerKeys :: features[k])
  {
    var g := map k | k in features && k in LayerKeys :: features[k];
    forall c ensures Renders(features, c) == Renders(g, c) {
      assert Key(c) in LayerKeys;
    }
    LayersAgree(features, g);
  }

  /** The sentinel "clean shaven" and the empty string skip facial hair exactly as an absent key does. */
  lemma FacialHairSentinels(features: FeatureSet, v: string)
    requires v == "clean shaven" || v == ""
    ensures Layers(features["facialHair" := v]) == Layers(features - {"facialHair"})
  {
    var f, g := features["facialHair" := v], features - {"facialHair"};
    forall c ensures Renders(f, c) == Renders(g, c) && (Renders(f, c) ==> f[Key(c)] == g[Key(c)]) {
      KeyInjective(c, FacialHair);
    }
    LayersAgree(f, g);
  }

  /** The sentinel "none" and the empty string skip the marks layer exactly as an absent key does. */
  lemma MarksSentinels(features: FeatureSet, v: string)
    requires v == "none" || v == ""
    ensures Layers(features["distinctiveMarks" := v]) == Layers(features - {"distinctiveMarks"})
  {
    var f, g := features["distinctiveMarks" := v], features - {"distinctiveMarks"};
    forall c ensures Renders(f, c) == Renders(g, c) && (Renders(f, c) ==> f[Key(c)] == g[Key(c)]) {
      KeyInjective(c, DistinctiveMarks);
    }
    LayersAgree(f, g);
  }

  /**
   * Changing one category's value changes that category's layer and no
   * other, as long as the change does not switch the layer on or off.
   */
  lemma OnlyOwnLayerChanges(features: FeatureSet, c: Category, v: string, w: string)
    requires Renders(features[Key(c) := v], c) == Renders(features[Key(c) := w], c)
    ensures var lv, lw := Layers(features[Key(c) := v]), Layers(features[Key(c) := w]);
      && CategoriesOf(lv) == CategoriesOf(lw)
      && (forall k | 0 <= k < |lv| && lv[k].category != c :: lv[k] == lw[k])
      && (forall k | 0 <= k < |lv| && lv[k].category == c :: lv[k].variant == v && lw[k].variant == w)
  {
    var fv, fw := features[Key(c) := v], features[Key(c) := w];
    forall d ensures Renders(fv, d) == Renders(fw, d) {
      KeyInjective(c, d);
    }
    PicksFromAgree(fv, fw, 0);
    ChoicesUnderUpdate(features, c, v, w, Layers(fv), Layers(fw));
  }

  /**
   * Two choice lists with the same categories, taken from selections that
   * differ only in the value of `c`, agree except in the variant of `c`.
   */
  lemma ChoicesUnderUpdate(features: FeatureSet, c: Category, v: string, w: string, lv: seq<Choice>, lw: seq<Choice>)
    requires CategoriesOf(lv) == CategoriesOf(lw)
    requires forall k | 0 <= k < |lv| :: TakenFrom(lv[k], features[Key(c) := v])
    requires forall k | 0 <= k < |lw| :: TakenFrom(lw[k], features[Key(c) := w])
    ensures forall k | 0 <= k < |lv| && lv[k].category != c :: lv[k] == lw[k]
    ensures forall k | 0 <= k < |lv| && lv[k].category == c :: lv[k].variant == v && lw[k].variant == w
  {
    forall k | 0 <= k < |lv|
      ensures lv[k].category == lw[k].category
      ensures lv[k].category != c ==> lv[k] == lw[k]
    {
      assert lv[k].category == CategoriesOf(lv)[k] == CategoriesOf(lw)[k] == lw[k].category;
      KeyInjective(c, lv[k].category);
    }
  }

  /** Regrouping a prefix onto a split list. */
  lemma PrependRegroups<T>(d: T, pre: seq<T>, c: T, post: seq<T>)
    ensures [d] + (pre + [c] + post) == [d] + pre + [c] + post
    ensures [d] + (pre + post) == [d] + pre + post
  {
  }

  /** An empty prefix leaves a split list as it is. */
  lemma EmptyPrefix<T>(c: T, post: seq<T>)
    ensures [] + [c] + post == [c] + post
    ensures [] + post == post
  {
  }

  /** The two selections draw the same categories, except that only `f` draws `c`. */
  predicate DropsOnly(f: FeatureSet, g: FeatureSet, c: Category) {
    Renders(f, c) && !Renders(g, c) && forall d | d != c :: Renders(f, d) == Renders(g, d)
  }

  /** At the position of `c`, the picked lists differ by their head. */
  lemma PicksSplitHere(f: FeatureSet, g: FeatureSet, c: Category, at: nat)
    requires at < |LayerOrder| && LayerOrder[at] == c && Renders(f, c) && !Renders(g, c)
    requires PicksFrom(f, at + 1) == PicksFrom(g, at + 1)
    ensures PicksFrom(f, at) == [c] + PicksFrom(g, at + 1)
    ensures PicksFrom(g, at) == PicksFrom(g, at + 1)
  {
    PicksFromAt(f, at);
    PicksFromAt(g, at);
  }

  /** After the position of `c`, both selections pick the same categories. */
  lemma PicksAgreeAfter(f: FeatureSet, g: FeatureSet, c: Category)
    requires DropsOnly(f, g, c) && Rank(c) < |LayerOrder|
    ensures PicksFrom(f, Rank(c) + 1) == PicksFrom(g, Rank(c) + 1)
  {
    forall d | Rank(c) + 1 <= Rank(d) ensures Renders(f, d) == Renders(g, d) {
      assert d != c;
    }
    PicksFromAgree(f, g, Rank(c) + 1);
  }

  /** The picks from position `at` are its category if it is drawn, then the picks after it. */
  lemma PicksFromAt(features: FeatureSet, at: nat)
    requires at < |LayerOrder|
    ensures Renders(features, LayerOrder[at]) ==> PicksFrom(features, at) == [LayerOrder[at]] + PicksFrom(features, at + 1)
    ensures !Renders(features, LayerOrder[at]) ==> PicksFrom(features, at) == PicksFrom(features, at + 1)
  {
  }

  /** Below the position of `c`, both selections pick the same category or neither does. */
  lemma PicksSplitStep(f: FeatureSet, g: FeatureSet, c: Category, from: nat, pre: seq<Category>, post: seq<Category>)
    returns (pre': seq<Category>)
    requires DropsOnly(f, g, c) && from < Rank(c)
    requires PicksFrom(f, from + 1) == pre + [c] + post
    requires PicksFrom(g, from + 1) == pre + post
    ensures PicksFrom(f, from) == pre' + [c] + post
    ensures PicksFrom(g, from) == pre' + post
  {
    RankOfOrder(from);
    var d := LayerOrder[from];
    assert Renders(f, d) == Renders(g, d);
    if Renders(f, d) {
      PrependRegroups(d, pre, c, post);
      pre' := [d] + pre;
    } else {
      pre' := pre;
    }
  }

  /**
   * Dropping category `c` from a selection that draws it removes exactly
   * that entry from the picked list.
   */
  lemma {:induction false} PicksSplit(f: FeatureSet, g: FeatureSet, c: Category, from: nat)
    returns (pre: seq<Category>, post: seq<Category>)
    requires DropsOnly(f, g, c) && from <= Rank(c)
    ensures PicksFrom(f, from) == pre + [c] + post
    ensures PicksFrom(g, from) == pre + post
    decreases |LayerOrder| - from
  {
    if from == Rank(c) {
      PicksAgreeAfter(f, g, c);
      RankOfOrder(from);
      PicksSplitHere(f, g, c, from);
      pre, post := [], PicksFrom(g, from + 1);
      EmptyPrefix(c, post);
    } else {
      var pre0, post0 := PicksSplit(f, g, c, from + 1);
      pre := PicksSplitStep(f, g, c, from, pre0, post0);
      post := post0;
    }
  }

  // ---------------------------------------------------------------------
  // The composite image

  /** How one chosen layer is drawn to pixels: its generator, then the rasteriser `render`. */
  function Painter(draws: StubbleDraws, render: seq<Primitive> -> LayerImage): Choice -> LayerImage {
    (choice: Choice) => render(Generate(choice.category, choice.variant, draws))
  }

  /** The chosen layers painted to pixels, in layer order. */
  function Rendered(layers: seq<Choice>, paint: Choice -> LayerImage): (r: seq<seq<Rgba>>)
    ensures |r| == |layers| && Sized(r, Pixels)
    ensures forall k | 0 <= k < |layers| :: r[k] == paint(layers[k])
  {
    var r := seq(|layers|, k requires 0 <= k < |layers| => paint(layers[k]));
    assert forall k | 0 <= k < |layers| :: |r[k]| == Pixels by {
      forall k | 0 <= k < |layers| ensures |r[k]| == Pixels {
        var image: LayerImage := paint(layers[k]);
        assert r[k] == image;
      }
    }
    r
  }

  /** The flattened 512x512 RGB image for a selection whose layers are drawn by `paint`. */
  function ImageOf(features: FeatureSet, paint: Choice -> LayerImage): (img: seq<Rgb>)
    ensures |img| == Pixels
  {
    Flattened(Background, Rendered(Layers(features), paint), Pixels)
  }

  /** One pixel of the image: the flattened stack of layer pixels at that position. */
  lemma PixelOf(features: FeatureSet, paint: Choice -> LayerImage, i: nat)
    requires i < Pixels
    ensures ImageOf(features, paint)[i] == Flatten(StackAt(Background, Rendered(Layers(features), paint), i), Background)
  {
  }

  /**
   * `create_composite`: generates the layers for the selection, has them
   * rendered, composites them in order onto the opaque light-grey
   * accumulator and flattens the result to RGB. `render` stands for PIL's
   * rasteriser and `draws` for the random source of the stubble layer.
   */
  method CreateComposite(features: FeatureSet, draws: StubbleDraws, render: seq<Primitive> -> LayerImage)
    returns (image: seq<Rgb>)
    ensures |image| == Pixels
    ensures image == ImageOf(features, Painter(draws, render))
  {
    var paint := Painter(draws, render);
    image := Composite(Background, Rendered(Layers(features), paint), Pixels);
    forall i | 0 <= i < Pixels ensures image[i] == ImageOf(features, paint)[i] {
      PixelOf(features, paint, i);
    }
  }

  /** An empty selection yields the bare 512x512 canvas, every pixel (245, 245, 245). */
  lemma EmptySelectionIsBackground(paint: Choice -> LayerImage)
    ensures forall i | 0 <= i < Pixels :: ImageOf(map[], paint)[i] == Rgb(245, 245, 245)
  {
    var none: FeatureSet := map[];
    var cs := Picks(none);
    assert forall c :: c !in cs;
    assert |cs| == 0;
    var stack := Rendered(Layers(none), paint);
    assert stack == [];
    forall i | 0 <= i < Pixels ensures ImageOf(none, paint)[i] == Rgb(245, 245, 245) {
      PixelOf(none, paint, i);
      assert StackAt(Background, stack, i) == Background;
    }
  }

  /**
   * The marks layer is composited last: wherever its rendering is opaque,
   * the output pixel is the mark's colour, whatever the face, hair or other
   * layers drew there.
   */
  lemma MarksOnTop(features: FeatureSet, draws: StubbleDraws, render: seq<Primitive> -> LayerImage, i: nat)
    requires Renders(features, DistinctiveMarks) && i < Pixels
    requires Opaque(render(MarksLayer(features["distinctiveMarks"]))[i])
    ensures var p := render(MarksLayer(features["distinctiveMarks"]))[i];
      ImageOf(features, Painter(draws, render))[i] == Rgb(p.r, p.g, p.b)
  {
    var paint := Painter(draws, render);
    var v := features["distinctiveMarks"];
    assert Generate(DistinctiveMarks, v, draws) == MarksLayer(v);
    assert paint(Choice(DistinctiveMarks, v)) == render(MarksLayer(v));
    LastLayerOnTop(features, paint, i);
  }

  /** Generic form of `MarksOnTop` for any painter. */
  lemma LastLayerOnTop(features: FeatureSet, paint: Choice -> LayerImage, i: nat)
    requires Renders(features, DistinctiveMarks) && i < Pixels
    requires Opaque(paint(Choice(DistinctiveMarks, features["distinctiveMarks"]))[i])
    ensures var p := paint(Choice(DistinctiveMarks, features["distinctiveMarks"]))[i];
      ImageOf(features, paint)[i] == Rgb(p.r, p.g, p.b)
  {
    MarksLayerLast(features);
    var layers := Layers(features);
    var stack := Rendered(layers, paint);
    var top := |stack| - 1;
    assert stack[top] == paint(layers[top]);
    LaterOpaqueWins(Background, stack, i, top);
    PixelOf(features, paint, i);
  }

  /** When marks are drawn, their choice is the last layer, since marks come last in the layer order. */
  lemma MarksLayerLast(features: FeatureSet)
    requires Renders(features, DistinctiveMarks)
    ensures var layers := Layers(features);
      |layers| > 0 && layers[|layers| - 1] == Choice(DistinctiveMarks, features["distinctiveMarks"])
  {
    var layers := Layers(features);
    MarksPickedLast(Picks(features));
    assert CategoriesOf(layers)[|layers| - 1] == DistinctiveMarks;
    assert TakenFrom(layers[|layers| - 1], features);
  }

  /** In an increasing list holding marks, marks come last. */
  lemma MarksPickedLast(cs: seq<Category>)
    requires Increasing(cs) && DistinctiveMarks in cs
    ensures |cs| > 0 && cs[|cs| - 1] == DistinctiveMarks
  {
    var k :| 0 <= k < |cs| && cs[k] == DistinctiveMarks;
    IncreasingGap(cs, k, |cs| - 1);
  }

  /**
   * A layer that `paint` leaves fully transparent, such as a facial-hair
   * value outside mustache, beard, goatee and stubble or the mark "missing
   * tooth" (whose generators draw nothing), gives the same image as leaving
   * its key out of the selection.
   */
  lemma TransparentLayerInvisible(f: FeatureSet, c: Category, paint: Choice -> LayerImage)
    requires Renders(f, c)
    requires forall i | 0 <= i < Pixels :: paint(Choice(c, f[Key(c)]))[i].a == 0
    ensures ImageOf(f, paint) == ImageOf(f - {Key(c)}, paint)
  {
    var g := f - {Key(c)};
    forall i | 0 <= i < Pixels
      ensures ImageOf(f, paint)[i] == ImageOf(g, paint)[i]
    {
      TransparentLayerPixel(f, c, paint, i);
    }
  }

  /** Pixel `i` of `TransparentLayerInvisible`. */
  lemma TransparentLayerPixel(f: FeatureSet, c: Category, paint: Choice -> LayerImage, i: nat)
    requires Renders(f, c) && i < Pixels
    requires paint(Choice(c, f[Key(c)]))[i].a == 0
    ensures ImageOf(f, paint)[i] == ImageOf(f - {Key(c)}, paint)[i]
  {
    var g := f - {Key(c)};
    var sf := Rendered(Layers(f), paint);
    var n := DroppedLayerStack(f, c, paint);
    PixelOf(f, paint, i);
    PixelOf(g, paint, i);
    TransparentLayerVanishes(Background, sf[..n], sf[n], sf[n + 1..], i);
  }

  /** The painted stack of `f` without `c` is that of `f` with the layer of `c` (at `n`) taken out. */
  lemma DroppedLayerStack(f: FeatureSet, c: Category, paint: Choice -> LayerImage)
    returns (n: nat)
    requires Renders(f, c)
    ensures var sf, sg := Rendered(Layers(f), paint), Rendered(Layers(f - {Key(c)}), paint);
      n < |sf| && sf[n] == paint(Choice(c, f[Key(c)]))
      && sf == sf[..n] + [sf[n]] + sf[n + 1..] && sg == sf[..n] + sf[n + 1..]
  {
    var lf := Layers(f);
    n := DroppedLayerChoices(f, c);
    RenderedDrop(lf, n, paint);
    SplitAt(Rendered(lf, paint), n);
  }

  /** A sequence is its part before `n`, its element at `n` and its part after. */
  lemma SplitAt<T>(s: seq<T>, n: nat)
    requires n < |s|
    ensures s == s[..n] + [s[n]] + s[n + 1..]
  {
    assert s[..n] + [s[n]] + s[n + 1..] == s[..n + 1] + s[n + 1..];
  }

  /** Removing the key of a drawn category `c` switches `c` off and leaves every other category as it was. */
  lemma DropKeyOnlyDropsIt(f: FeatureSet, c: Category)
    requires Renders(f, c)
    ensures DropsOnly(f, f - {Key(c)}, c)
  {
    var g := f - {Key(c)};
    forall d | d != c ensures Renders(f, d) == Renders(g, d) {
      KeyInjective(c, d);
    }
  }

  /**
   * Two choice lists taken from `f` and from `f` without `key`, whose
   * categories differ only by `c` at position |pre|, differ only by that
   * choice.
   */
  lemma ChoicesSplit(f: FeatureSet, key: string, lf: seq<Choice>, lg: seq<Choice>, pre: seq<Category>, c: Category, post: seq<Category>)
    requires CategoriesOf(lf) == pre + [c] + post && CategoriesOf(lg) == pre + post
    requires forall k | 0 <= k < |lf| :: TakenFrom(lf[k], f)
    requires forall k | 0 <= k < |lg| :: TakenFrom(lg[k], f - {key})
    ensures lg == lf[..|pre|] + lf[|pre| + 1..]
  {
    var n := |pre|;
    var cf, cg := CategoriesOf(lf), CategoriesOf(lg);
    var rest := lf[..n] + lf[n + 1..];
    forall k | 0 <= k < |lg| ensures lg[k] == rest[k] {
      var j := if k < n then k else k + 1;
      assert cg[k] == cf[j];
      assert lg[k].category == lf[j].category;
      assert TakenFrom(lg[k], f - {key}) && TakenFrom(lf[j], f);
      assert rest[k] == lf[j];
    }
  }

  /** Dropping the key of a drawn category `c` removes exactly its choice (at `n`) from the layer list. */
  lemma DroppedLayerChoices(f: FeatureSet, c: Category) returns (n: nat)
    requires Renders(f, c)
    ensures var lf, lg := Layers(f), Layers(f - {Key(c)});
      n < |lf| && lf[n] == Choice(c, f[Key(c)]) && lg == lf[..n] + lf[n + 1..]
  {
    var g := f - {Key(c)};
    DropKeyOnlyDropsIt(f, c);
    var pre, post := PicksSplit(f, g, c, 0);
    var lf, lg := Layers(f), Layers(g);
    n := |pre|;
    assert lf[n].category == CategoriesOf(lf)[n] == c;
    ChoicesSplit(f, Key(c), lf, lg, pre, c, post);
  }

  /** Painting a list with one entry removed paints the same stack with that layer removed. */
  lemma RenderedDrop(layers: seq<Choice>, n: nat, paint: Choice -> LayerImage)
    requires n < |layers|
    ensures var s := Rendered(layers, paint);
      Rendered(layers[..n] + layers[n + 1..], paint) == s[..n] + s[n + 1..]
  {
    var s, t := Rendered(layers, paint), Rendered(layers[..n] + layers[n + 1..], paint);
    forall k | 0 <= k < |t| ensures t[k] == (s[..n] + s[n + 1..])[k] {
      if k < n {
        assert (layers[..n] + layers[n + 1..])[k] == layers[k];
      } else {
        assert (layers[..n] + layers[n + 1..])[k] == layers[k + 1];
      }
    }
  }

  /**
   * The mark "missing tooth" draws nothing, so (with a rasteriser that
   * leaves an empty layer transparent) the image is as if no mark had been
   * chosen.
   */
  /** The rasteriser leaves a layer with nothing drawn on it fully transparent, as the `(255, 255, 255, 0)` layers start. */
  predicate BlankIsClear(render: seq<Primitive> -> LayerImage) {
    forall i | 0 <= i < Pixels :: render([])[i].a == 0
  }

  lemma MissingToothInvisible(features: FeatureSet, draws: StubbleDraws, render: seq<Primitive> -> LayerImage)
    requires BlankIsClear(render)
    ensures ImageOf(features["distinctiveMarks" := "missing tooth"], Painter(draws, render))
         == ImageOf(features - {"distinctiveMarks"}, Painter(draws, render))
  {
    var f := features["distinctiveMarks" := "missing tooth"];
    var paint := Painter(draws, render);
    MissingToothDrawsNothing();
    assert Generate(DistinctiveMarks, "missing tooth", draws) == [];
    assert paint(Choice(DistinctiveMarks, "missing tooth")) == render([]);
    TransparentLayerInvisible(f, DistinctiveMarks, paint);
    assert f - {"distinctiveMarks"} == features - {"distinctiveMarks"};
  }
}
