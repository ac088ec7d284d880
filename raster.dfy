/**
 * Pixel buffers and the layer-stack compositor shared by both compositors:
 * an RGBA accumulator filled with an opaque background, each layer applied
 * with source-over compositing (`Image.alpha_composite`), and the result
 * flattened onto an RGB image of the background colour (`paste` with the
 * accumulator as its own mask).
 */
module Raster {

  type Channel = x: int | 0 <= x <= 255

  /** One RGBA pixel; `a` is the alpha channel (0 transparent, 255 opaque). */
  datatype Rgba = Rgba(r: Channel, g: Channel, b: Channel, a: Channel)

  /** One pixel of the flattened, alpha-free output image. */
  datatype Rgb = Rgb(r: Channel, g: Channel, b: Channel)

  /** The fully transparent pixel every fresh layer is filled with, `(255, 255, 255, 0)`. */
  const Clear := Rgba(255, 255, 255, 0)

  predicate Opaque(p: Rgba) { p.a == 255 }

  /**
   * One channel of a source-over blend onto an opaque destination, with
   * source alpha `a`: the source's share is a/255, rounded to nearest.
   */
  function Mix(s: Channel, d: Channel, a: Channel): (r: Channel)
    ensures (if s <= d then s else d) <= r <= (if s <= d then d else s)
    ensures a == 0 ==> r == d
    ensures a == 255 ==> r == s
  {
    var total := s * a + d * (255 - a) + 127;
    MixBounds(s, d, a);
    total / 255
  }

  lemma MixBounds(s: Channel, d: Channel, a: Channel)
    ensures var total := s * a + d * (255 - a) + 127;
      && (if s <= d then s else d) * 255 <= total < ((if s <= d then d else s) + 1) * 255
      && (a == 0 ==> d * 255 <= total < (d + 1) * 255)
      && (a == 255 ==> s * 255 <= total < (s + 1) * 255)
  {
    var sum := s * a + d * (255 - a);
    if s <= d {
      SplitSum(s, d - s, a);
      ProductNonNegative(d - s, 255 - a);
      ProductNonNegative(d - s, a);
      assert sum == s * 255 + (d - s) * (255 - a);
      assert sum == d * 255 - (d - s) * a;
    } else {
      SplitSum(d, s - d, 255 - a);
      ProductNonNegative(s - d, a);
      ProductNonNegative(s - d, 255 - a);
      assert sum == d * 255 + (s - d) * a;
      assert sum == s * 255 - (s - d) * (255 - a);
    }
  }

  /** `(lo + gap) * a + ...` rearranged: the blend is the low value plus the gap weighted by the other share. */
  lemma SplitSum(lo: int, gap: int, a: int)
    ensures (lo + gap) * a + lo * (255 - a) == lo * 255 + gap * a
    ensures lo * a + (lo + gap) * (255 - a) == lo * 255 + gap * (255 - a)
    ensures (lo + gap) * a + lo * (255 - a) == (lo + gap) * 255 - gap * (255 - a)
    ensures lo * a + (lo + gap) * (255 - a) == (lo + gap) * 255 - gap * a
  {
  }

  lemma ProductNonNegative(x: int, y: int)
    requires x >= 0 && y >= 0
    ensures x * y >= 0
  {
  }

  /**
   * Source-over compositing of `src` onto the opaque pixel `dst`. The
   * accumulator is always opaque because it starts from an opaque
   * background, so the result is opaque too.
   */
  function Over(src: Rgba, dst: Rgba): (r: Rgba)
    requires Opaque(dst)
    ensures Opaque(r)
    ensures src.a == 0 ==> r == dst
    ensures Opaque(src) ==> r == src
  {
    Rgba(Mix(src.r, dst.r, src.a), Mix(src.g, dst.g, src.a), Mix(src.b, dst.b, src.a), 255)
  }

  /**
   * One pixel of the final RGB image: the accumulator pixel `p` pasted,
   * through its own alpha as mask, onto the background `bg`.
   */
  function Flatten(p: Rgba, bg: Rgba): (r: Rgb)
    requires Opaque(bg)
    ensures Opaque(p) ==> r == Rgb(p.r, p.g, p.b)
  {
    var q := Over(p, bg);
    Rgb(q.r, q.g, q.b)
  }

  /** Every layer in `layers` holds exactly `n` pixels. */
  predicate Sized(layers: seq<seq<Rgba>>, n: nat) {
    forall k | 0 <= k < |layers| :: |layers[k]| == n
  }

  /** Pixel `i` of the accumulator after compositing `layers`, in order, onto `bg`. */
  function StackAt(bg: Rgba, layers: seq<seq<Rgba>>, i: nat): (r: Rgba)
    requires Opaque(bg)
    requires forall k | 0 <= k < |layers| :: i < |layers[k]|
    ensures Opaque(r)
    decreases |layers|
  {
    if layers == [] then bg
    else Over(layers[|layers| - 1][i], StackAt(bg, layers[..|layers| - 1], i))
  }

  /**
   * Layer precedence: where layer `k` is opaque and no later layer draws,
   * the composite shows layer `k`'s pixel whatever lies underneath.
   */
  lemma {:induction false} LaterOpaqueWins(bg: Rgba, layers: seq<seq<Rgba>>, i: nat, k: nat)
    requires Opaque(bg)
    requires forall j | 0 <= j < |layers| :: i < |layers[j]|
    requires k < |layers| && Opaque(layers[k][i])
    requires forall j | k < j < |layers| :: layers[j][i].a == 0
    ensures StackAt(bg, layers, i) == layers[k][i]
    decreases |layers|
  {
    if k < |layers| - 1 {
      LaterOpaqueWins(bg, layers[..|layers| - 1], i, k);
    }
  }

  /** A pixel no layer draws on keeps the background colour. */
  lemma {:induction false} UntouchedIsBackground(bg: Rgba, layers: seq<seq<Rgba>>, i: nat)
    requires Opaque(bg)
    requires forall j | 0 <= j < |layers| :: i < |layers[j]| && layers[j][i].a == 0
    ensures StackAt(bg, layers, i) == bg
    decreases |layers|
  {
    if layers != [] {
      UntouchedIsBackground(bg, layers[..|layers| - 1], i);
    }
  }

  /** Compositing a layer that is transparent at pixel `i` changes nothing there, wherever it sits in the stack. */
  lemma {:induction false} TransparentLayerVanishes(bg: Rgba, pre: seq<seq<Rgba>>, layer: seq<Rgba>, post: seq<seq<Rgba>>, i: nat)
    requires Opaque(bg)
    requires forall j | 0 <= j < |pre| :: i < |pre[j]|
    requires forall j | 0 <= j < |post| :: i < |post[j]|
    requires i < |layer| && layer[i].a == 0
    ensures StackAt(bg, pre + [layer] + post, i) == StackAt(bg, pre + post, i)
    decreases |post|
  {
    var whole := pre + [layer] + post;
    if post == [] {
      assert whole[..|whole| - 1] == pre;
      assert pre + post == pre;
    } else {
      var last := post[|post| - 1];
      TransparentLayerVanishes(bg, pre, layer, post[..|post| - 1], i);
      assert whole[..|whole| - 1] == pre + [layer] + post[..|post| - 1];
      assert (pre + post)[..|pre + post| - 1] == pre + post[..|post| - 1];
    }
  }

  /**
   * Composites `layer` onto the accumulator in place (`Image.alpha_composite`
   * followed by rebinding the accumulator).
   */
  method AlphaCompositeInto(acc: array<Rgba>, layer: seq<Rgba>)
    requires |layer| == acc.Length
    requires forall i | 0 <= i < acc.Length :: Opaque(acc[i])
    modifies acc
    ensures forall i | 0 <= i < acc.Length :: acc[i] == Over(layer[i], old(acc[i]))
  {
    var i := 0;
    while i < acc.Length
      invariant 0 <= i <= acc.Length
      invariant forall j | 0 <= j < i :: acc[j] == Over(layer[j], old(acc[j]))
      invariant forall j | i <= j < acc.Length :: acc[j] == old(acc[j])
    {
      acc[i] := Over(layer[i], acc[i]);
      i := i + 1;
    }
  }

  /** The RGB image of `n` pixels whose pixel i is the flattened stack of `layers` at i over `bg`. */
  function Flattened(bg: Rgba, layers: seq<seq<Rgba>>, n: nat): (image: seq<Rgb>)
    requires Opaque(bg) && Sized(layers, n)
    ensures |image| == n
    ensures forall i | 0 <= i < n :: image[i] == Flatten(StackAt(bg, layers, i), bg)
  {
    seq(n, i requires 0 <= i < n => Flatten(StackAt(bg, layers, i), bg))
  }

  /**
   * The layer-stack compositor: fills an `n`-pixel accumulator with the
   * opaque background, composites every layer in order, and flattens the
   * result onto an RGB image of the same background.
   */
  method Composite(bg: Rgba, layers: seq<seq<Rgba>>, n: nat) returns (image: seq<Rgb>)
    requires Opaque(bg)
    requires Sized(layers, n)
    ensures |image| == n
    ensures forall i | 0 <= i < n :: image[i] == Flatten(StackAt(bg, layers, i), bg)
  {
    var acc := new Rgba[n](_ => bg);
    var k := 0;
    while k < |layers|
      invariant 0 <= k <= |layers|
      invariant acc.Length == n
      invariant forall i | 0 <= i < n :: acc[i] == StackAt(bg, layers[..k], i)
    {
      AlphaCompositeInto(acc, layers[k]);
      assert layers[..k + 1][..k] == layers[..k];
      k := k + 1;
    }
    assert layers[..k] == layers;
    image := [];
    var i := 0;
    while i < n
      invariant 0 <= i <= n
      invariant |image| == i
      invariant forall j | 0 <= j < i :: image[j] == Flatten(acc[j], bg)
    {
      image := image + [Flatten(acc[i], bg)];
      i := i + 1;
    }
  }
}
