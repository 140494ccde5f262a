/**
 * The Space Image Format of 8/src/lib.rs: layers of 25 × 6 pixels, a
 * checksum over the layer with the fewest zeros, and the picture seen
 * through the stack of layers.
 */
module SpaceImage {
  import opened Wrappers

  const LAYER_WIDTH: nat := 25
  const LAYER_HEIGHT: nat := 6
  const PIXELS_PER_LAYER: nat := LAYER_WIDTH * LAYER_HEIGHT

  datatype Pixel = Black | White | Transparent

  /** The digit of a pixel in the image text. */
  function PixelDigit(v: nat): char
    requires v < 3
  {
    if v == 0 then '0' else if v == 1 then '1' else '2'
  }

  /** The characters `load_image` accepts: the three digits, and '\n', which it drops. */
  predicate IsImageChar(c: char)
  {
    c == '0' || c == '1' || c == '2' || c == '\n'
  }

  predicate AllImageChars(s: string)
  {
    forall i :: 0 <= i < |s| ==> IsImageChar(s[i])
  }

  /**
   * `load_image`: newlines dropped, '0', '1', '2' read as 0, 1, 2; the first
   * other character panics, and is the error here.
   */
  function LoadImage(s: string): (r: Result<seq<nat>, char>)
    ensures r.Ok? <==> AllImageChars(s)
    ensures r.Ok? ==> forall i :: 0 <= i < |r.value| ==> r.value[i] < 3
    ensures r.Err? ==> !IsImageChar(r.error)
  {
    if s == [] then Ok([])
    else if s[0] == '\n' then LoadImage(s[1..])
    else if s[0] == '0' || s[0] == '1' || s[0] == '2' then
      var rest :- LoadImage(s[1..]);
      Ok([(s[0] as int - '0' as int) as nat] + rest)
    else Err(s[0])
  }

  /** The image text of a sequence of pixel values. */
  function Encode(values: seq<nat>): string
    requires forall i :: 0 <= i < |values| ==> values[i] < 3
  {
    if values == [] then [] else [PixelDigit(values[0])] + Encode(values[1..])
  }

  /** Loading the text of a sequence of pixel values gives them back. */
  lemma {:induction false} LoadEncode(values: seq<nat>)
    requires forall i :: 0 <= i < |values| ==> values[i] < 3
    ensures LoadImage(Encode(values)) == Ok(values)
  {
    if values != [] {
      LoadEncode(values[1..]);
      assert [values[0]] + values[1..] == values;
    }
  }

  function ToPixel(v: nat): Pixel
    requires v < 3
  {
    if v == 0 then Black else if v == 1 then White else Transparent
  }

  /** `load_pixels`: as `load_image`, with the `Pixel` variants in place of the numbers. */
  function LoadPixels(s: string): (r: Result<seq<Pixel>, char>)
    ensures r.Err? <==> LoadImage(s).Err?
    ensures r.Err? ==> r.error == LoadImage(s).error
    ensures r.Ok? ==> |r.value| == |LoadImage(s).value|
    ensures r.Ok? ==> forall i :: 0 <= i < |r.value| ==> r.value[i] == ToPixel(LoadImage(s).value[i])
  {
    if s == [] then Ok([])
    else if s[0] == '\n' then LoadPixels(s[1..])
    else if s[0] == '0' || s[0] == '1' || s[0] == '2' then
      var rest :- LoadPixels(s[1..]);
      Ok([if s[0] == '0' then Black else if s[0] == '1' then White else Transparent] + rest)
    else Err(s[0])
  }

  /** How many of the first `|image|` pixels fall in layer `layer` and have value `v`. */
  function CountIn(image: seq<nat>, layer: nat, v: nat): nat
  {
    if image == [] then 0 else
      var last := |image| - 1;
      CountIn(image[..last], layer, v) + (if last / PIXELS_PER_LAYER == layer && image[last] == v then 1 else 0)
  }

  /** The number of pixel positions below `n` that lie in layer `layer`. */
  function LayerSize(n: nat, layer: nat): nat
  {
    if n == 0 then 0 else LayerSize(n - 1, layer) + (if (n - 1) / PIXELS_PER_LAYER == layer then 1 else 0)
  }

  /** The counts of the three values in a layer add up to its number of pixels. */
  lemma {:induction false} CountsCoverLayer(image: seq<nat>, layer: nat)
    requires forall i :: 0 <= i < |image| ==> image[i] < 3
    ensures CountIn(image, layer, 0) + CountIn(image, layer, 1) + CountIn(image, layer, 2) == LayerSize(|image|, layer)
  {
    if image != [] {
      CountsCoverLayer(image[..|image| - 1], layer);
    }
  }

  /** A layer wholly inside the first `n` pixels has all 150 of them. */
  lemma {:induction false} FullLayer(n: nat, layer: nat)
    ensures LayerSize(n, layer) == if n <= PIXELS_PER_LAYER * layer then 0
      else if n >= PIXELS_PER_LAYER * (layer + 1) then PIXELS_PER_LAYER
      else n - PIXELS_PER_LAYER * layer
  {
    if n > 0 {
      FullLayer(n - 1, layer);
    }
  }

  /** When the image holds whole layers, each layer's counts sum to 150. */
  lemma LayerCountsSum(image: seq<nat>, layer: nat)
    requires forall i :: 0 <= i < |image| ==> image[i] < 3
    requires |image| % PIXELS_PER_LAYER == 0 && layer < |image| / PIXELS_PER_LAYER
    ensures CountIn(image, layer, 0) + CountIn(image, layer, 1) + CountIn(image, layer, 2) == PIXELS_PER_LAYER
  {
    CountsCoverLayer(image, layer);
    FullLayer(|image|, layer);
  }

  /** The first position holding the smallest value. */
  function FirstMin(values: seq<nat>): (l: nat)
    requires |values| > 0
    ensures l < |values|
    ensures forall k :: 0 <= k < |values| ==> values[l] <= values[k]
    ensures forall k :: 0 <= k < l ==> values[k] > values[l]
  {
    if |values| == 1 then 0
    else
      var l := FirstMin(values[..|values| - 1]);
      if values[|values| - 1] < values[l] then |values| - 1 else l
  }

  /** The zero count of every layer. */
  function Zeros(image: seq<nat>): (zs: seq<nat>)
    ensures |zs| == |image| / PIXELS_PER_LAYER
  {
    seq(|image| / PIXELS_PER_LAYER, (l: int) requires 0 <= l => CountIn(image, l, 0))
  }

  /** The checksum of the layer with the fewest zeros (the first such layer on a tie). */
  function Checksum(image: seq<nat>): nat
    requires |image| >= PIXELS_PER_LAYER
  {
    var layer := FirstMin(Zeros(image));
    CountIn(image, layer, 1) * CountIn(image, layer, 2)
  }

  /**
   * `count_image`: per-layer counts of each value in a `layer × 3` table,
   * then the layer with the fewest zeros. The source indexes past its table
   * unless the image is whole layers, at least one.
   */
  method CountImage(imageStr: string) returns (r: Result<nat, char>)
    requires LoadImage(imageStr).Ok? ==> |LoadImage(imageStr).value| >= PIXELS_PER_LAYER
    requires LoadImage(imageStr).Ok? ==> |LoadImage(imageStr).value| % PIXELS_PER_LAYER == 0
    ensures r.Err? <==> LoadImage(imageStr).Err?
    ensures r.Err? ==> r.error == LoadImage(imageStr).error
    ensures r.Ok? ==> r.value == Checksum(LoadImage(imageStr).value)
  {
    var image :- LoadImage(imageStr);
    var counts := CountLayers(image);
    var minLayer := FewestZeros(counts, image);
    return Ok(counts[minLayer, 1] * counts[minLayer, 2]);
  }

  /** The counting loop of `count_image`. */
  method CountLayers(image: seq<nat>) returns (counts: array2<nat>)
    requires forall i :: 0 <= i < |image| ==> image[i] < 3
    requires |image| % PIXELS_PER_LAYER == 0
    ensures fresh(counts)
    ensures counts.Length0 == |image| / PIXELS_PER_LAYER && counts.Length1 == 3
    ensures forall l, v :: 0 <= l < counts.Length0 && 0 <= v < 3 ==> counts[l, v] == CountIn(image, l, v)
  {
    var layerCount := |image| / PIXELS_PER_LAYER;
    counts := new nat[layerCount, 3]((_, _) => 0);
    for i := 0 to |image|
      invariant forall l, v :: 0 <= l < layerCount && 0 <= v < 3 ==> counts[l, v] == CountIn(image[..i], l, v)
    {
      assert image[..i + 1][..i] == image[..i];
      var layer := i / PIXELS_PER_LAYER;
      counts[layer, image[i]] := counts[layer, image[i]] + 1;
    }
    assert image[..|image|] == image;
  }

  /** The minimum-tracking loop of `count_image`. */
  method FewestZeros(counts: array2<nat>, ghost image: seq<nat>) returns (minLayer: nat)
    requires counts.Length0 == |image| / PIXELS_PER_LAYER >= 1 && counts.Length1 == 3
    requires forall l :: 0 <= l < counts.Length0 ==> counts[l, 0] == CountIn(image, l, 0)
    ensures minLayer == FirstMin(Zeros(image))
  {
    ghost var zeros := Zeros(image);
    minLayer := 0;
    var minZeros := counts[minLayer, 0];
    for i := 0 to counts.Length0
      invariant minLayer == FirstMin(zeros[..if i == 0 then 1 else i])
      invariant minZeros == zeros[minLayer]
    {
      assert zeros[..i + 1][..i] == zeros[..i];
      if counts[i, 0] < minZeros {
        minZeros := counts[i, 0];
        minLayer := i;
      }
    }
    assert zeros[..counts.Length0] == zeros;
  }

  /** The first pixel that is not transparent at `index`, `index + 150`, … */
  function FirstOpaque(image: seq<Pixel>, index: nat): (r: Option<Pixel>)
    ensures r.Some? ==> r.value != Transparent
    decreases |image| - index
  {
    if index >= |image| then None
    else if image[index] != Transparent then Some(image[index])
    else FirstOpaque(image, index + PIXELS_PER_LAYER)
  }

  function Glyph(p: Pixel): char
    requires p != Transparent
  {
    if p == Black then ' ' else '\U{2588}'
  }

  /** Every position of the first `count` positions of the screen shows some layer's pixel. */
  predicate Opaque(image: seq<Pixel>, count: nat)
  {
    forall pos :: 0 <= pos < count ==> FirstOpaque(image, pos).Some?
  }

  /** The glyphs of the first `count` positions of row `row`. */
  function RowGlyphs(image: seq<Pixel>, row: nat, count: nat): (s: string)
    requires count <= LAYER_WIDTH && Opaque(image, row * LAYER_WIDTH + count)
    ensures |s| == count
  {
    seq(count, i requires 0 <= i < count => Glyph(FirstOpaque(image, row * LAYER_WIDTH + i).value))
  }

  /** The first `rows` rows of the picture, each of 25 glyphs and a newline. */
  function Picture(image: seq<Pixel>, rows: nat): (s: string)
    requires Opaque(image, rows * LAYER_WIDTH)
    ensures |s| == rows * (LAYER_WIDTH + 1)
  {
    if rows == 0 then [] else Picture(image, rows - 1) + RowGlyphs(image, rows - 1, LAYER_WIDTH) + "\n"
  }

  /**
   * Character by character: row `row` of the picture holds, at column `col`,
   * the glyph of the front-most opaque pixel at that position, and ends in '\n'.
   */
  lemma {:induction false} PictureAt(image: seq<Pixel>, rows: nat, row: nat, col: nat)
    requires Opaque(image, rows * LAYER_WIDTH) && row < rows && col < LAYER_WIDTH
    ensures row * (LAYER_WIDTH + 1) + LAYER_WIDTH < |Picture(image, rows)|
    ensures Picture(image, rows)[row * (LAYER_WIDTH + 1) + col] == Glyph(FirstOpaque(image, row * LAYER_WIDTH + col).value)
    ensures Picture(image, rows)[row * (LAYER_WIDTH + 1) + LAYER_WIDTH] == '\n'
  {
    var before := Picture(image, rows - 1);
    assert Opaque(image, (rows - 1) * LAYER_WIDTH);
    if row < rows - 1 {
      PictureAt(image, rows - 1, row, col);
    } else {
      assert |before| == row * (LAYER_WIDTH + 1);
    }
  }

  datatype PrintError = BadPixel(c: char) | TransparentAt(position: nat)

  /**
   * `print_image`: each position shows the first layer, front to back, in
   * which it is not transparent. A position transparent in every layer makes
   * the source index past the image; the first such position is the error.
   */
  method PrintImage(imageStr: string) returns (r: Result<string, PrintError>)
    ensures LoadPixels(imageStr).Err? ==> r == Err(BadPixel(LoadPixels(imageStr).error))
    ensures LoadPixels(imageStr).Ok? ==> (r.Ok? <==> Opaque(LoadPixels(imageStr).value, PIXELS_PER_LAYER))
    ensures r.Ok? ==> LoadPixels(imageStr).Ok? && r.value == Picture(LoadPixels(imageStr).value, LAYER_HEIGHT)
    ensures r.Err? && r.error.TransparentAt? ==> LoadPixels(imageStr).Ok? && FirstTransparent(LoadPixels(imageStr).value, r.error.position)
  {
    var loaded := LoadPixels(imageStr);
    if loaded.Err? {
      return Err(BadPixel(loaded.error));
    }
    r := Render(loaded.value);
  }

  /** `position` is the first position of the screen that no layer covers. */
  predicate FirstTransparent(image: seq<Pixel>, position: nat)
  {
    position < PIXELS_PER_LAYER && FirstOpaque(image, position).None? && Opaque(image, position)
  }

  /** The printing loops of `print_image`. */
  method Render(image: seq<Pixel>) returns (r: Result<string, PrintError>)
    ensures r.Ok? <==> Opaque(image, PIXELS_PER_LAYER)
    ensures r.Ok? ==> r.value == Picture(image, LAYER_HEIGHT)
    ensures r.Err? ==> r.error.TransparentAt? && FirstTransparent(image, r.error.position)
  {
    var printed := "";
    for j := 0 to LAYER_HEIGHT
      invariant Opaque(image, j * LAYER_WIDTH)
      invariant printed == Picture(image, j)
    {
      for i := 0 to LAYER_WIDTH
        invariant Opaque(image, j * LAYER_WIDTH + i)
        invariant printed == Picture(image, j) + RowGlyphs(image, j, i)
      {
        var shown := ScreenPixel(image, j * LAYER_WIDTH + i);
        if shown.None? {
          NotOpaque(image, j * LAYER_WIDTH + i);
          return Err(TransparentAt(j * LAYER_WIDTH + i));
        }
        assert Opaque(image, j * LAYER_WIDTH + i + 1);
        assert RowGlyphs(image, j, i + 1) == RowGlyphs(image, j, i) + [Glyph(shown.value)];
        printed := printed + [Glyph(shown.value)];
      }
      printed := printed + "\n";
    }
    return Ok(printed);
  }

  lemma NotOpaque(image: seq<Pixel>, position: nat)
    requires position < PIXELS_PER_LAYER && FirstOpaque(image, position).None?
    ensures !Opaque(image, PIXELS_PER_LAYER)
  {
  }

  /** The transparency-skipping loop of `print_image` for one screen position. */
  method ScreenPixel(image: seq<Pixel>, position: nat) returns (shown: Option<Pixel>)
    ensures shown == FirstOpaque(image, position)
  {
    var pixelIndex := position;
    while pixelIndex < |image| && image[pixelIndex] == Transparent
      invariant FirstOpaque(image, position) == FirstOpaque(image, pixelIndex)
      decreases |image| - pixelIndex
    {
      pixelIndex := pixelIndex + PIXELS_PER_LAYER;
    }
    if pixelIndex >= |image| {
      return None;
    }
    return Some(image[pixelIndex]);
  }
}
