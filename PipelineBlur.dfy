/**
 * The blur post-processing pipeline: two blur filters, one vertical and one
 * horizontal, writing into an output texture that is rebuilt only when the
 * display size differs from the last size the pipeline saw.
 *
 * The display size is passed to Render as parameters; GPU work (creating the
 * image, running the filters) is not part of this model.
 */
module PostPipelines {

  const U32Modulus: int := 0x1_0000_0000

  /** The value an int takes when converted to uint32_t: reduced modulo 2^32. */
  function ToU32(x: int): (r: nat)
    ensures r < U32Modulus
    ensures 0 <= x < U32Modulus ==> r == x
    ensures (x - r) % U32Modulus == 0
  {
    x % U32Modulus
  }

  /** A texture size: scale times a display extent, truncated to a whole number of pixels. */
  function ScaledExtent(scale: real, extent: nat): (r: nat)
    ensures scale >= 0.0 ==> r as real <= scale * extent as real < r as real + 1.0
    ensures scale <= 0.0 ==> r == 0
  {
    var product := scale * extent as real;
    if product < 0.0 then 0 else product.Floor
  }

  datatype Vector2 = Vector2(x: real, y: real)

  /** A width and height in pixels, as unsigned 32-bit values. */
  datatype Extent = Extent(width: nat, height: nat)

  /** The display size as Render reads it into uint32_t variables. */
  function DisplayExtent(width: int, height: int): (r: Extent)
    ensures r.width < U32Modulus && r.height < U32Modulus
    ensures 0 <= width < U32Modulus ==> r.width == width
    ensures 0 <= height < U32Modulus ==> r.height == height
  {
    Extent(ToU32(width), ToU32(height))
  }

  /** Render rebuilds the output when either dimension differs from the last one seen. */
  function NeedsRebuild(last: Extent, current: Extent): (r: bool)
    ensures r <==> current != last
  {
    current.width != last.width || current.height != last.height
  }

  /** The last size seen after a run of renders at the given sizes, starting from `last`. */
  function LastOf(last: Extent, sizes: seq<Extent>): (r: Extent)
    ensures sizes == [] ==> r == last
    ensures sizes != [] ==> r in sizes
  {
    if sizes == [] then last else sizes[|sizes| - 1]
  }

  /** The number of rebuilds a run of renders at the given sizes performs, starting from `last`. */
  function Rebuilds(last: Extent, sizes: seq<Extent>): (r: nat)
    ensures r <= |sizes|
    decreases sizes
  {
    if sizes == [] then 0
    else (if NeedsRebuild(last, sizes[0]) then 1 else 0) + Rebuilds(sizes[0], sizes[1..])
  }

  /** One more render adds a rebuild exactly when its size differs from the last one seen. */
  lemma {:induction false} RebuildsSnoc(last: Extent, sizes: seq<Extent>, size: Extent)
    ensures Rebuilds(last, sizes + [size])
         == Rebuilds(last, sizes) + (if NeedsRebuild(LastOf(last, sizes), size) then 1 else 0)
    decreases |sizes|
  {
    if sizes != [] {
      assert (sizes + [size])[0] == sizes[0];
      assert (sizes + [size])[1..] == sizes[1..] + [size];
      RebuildsSnoc(sizes[0], sizes[1..], size);
      assert sizes[1..] != [] ==> LastOf(sizes[0], sizes[1..]) == LastOf(last, sizes);
    }
  }

  /** RebuildsSnoc for a prefix of a run: the count and the last size after render i + 1. */
  lemma RebuildsStep(last: Extent, sizes: seq<Extent>, i: nat)
    requires i < |sizes|
    ensures Rebuilds(last, sizes[..i + 1])
         == Rebuilds(last, sizes[..i]) + (if NeedsRebuild(LastOf(last, sizes[..i]), sizes[i]) then 1 else 0)
    ensures LastOf(last, sizes[..i + 1]) == sizes[i]
  {
    assert sizes[..i + 1] == sizes[..i] + [sizes[i]];
    RebuildsSnoc(last, sizes[..i], sizes[i]);
  }

  /** A run of renders at one size rebuilds at most once, and not at all when that size was the last one seen. */
  lemma {:induction false} RebuildsAtOneSize(last: Extent, sizes: seq<Extent>, size: Extent)
    requires forall i :: 0 <= i < |sizes| ==> sizes[i] == size
    ensures Rebuilds(last, sizes) == if sizes != [] && NeedsRebuild(last, size) then 1 else 0
    decreases |sizes|
  {
    if sizes != [] {
      RebuildsAtOneSize(size, sizes[1..], size);
    }
  }

  /** A run of renders rebuilds at all only if some size in it differs from the starting one. */
  lemma {:induction false} RebuildsNeedChange(last: Extent, sizes: seq<Extent>)
    ensures Rebuilds(last, sizes) > 0 ==> exists i :: 0 <= i < |sizes| && sizes[i] != last
    decreases |sizes|
  {
    if sizes != [] {
      RebuildsNeedChange(sizes[0], sizes[1..]);
      if Rebuilds(last, sizes) > 0 && sizes[0] == last {
        var i :| 0 <= i < |sizes[1..]| && sizes[1..][i] != sizes[0];
        assert sizes[i + 1] != last;
      }
    }
  }

  /** The sizes a run of renders reads from the display, in order. */
  function DisplayExtents(sizes: seq<(int, int)>): (r: seq<Extent>)
    ensures |r| == |sizes|
    ensures forall i :: 0 <= i < |sizes| ==> r[i] == DisplayExtent(sizes[i].0, sizes[i].1)
  {
    seq(|sizes|, i requires 0 <= i < |sizes| => DisplayExtent(sizes[i].0, sizes[i].1))
  }

  /** The number of times a history of output objects changes from one entry to the next. */
  function Replacements(outputs: seq<Texture?>): (r: nat)
    ensures r <= if |outputs| == 0 then 0 else |outputs| - 1
  {
    if |outputs| < 2 then 0
    else Replacements(outputs[..|outputs| - 1]) + (if outputs[|outputs| - 2] != outputs[|outputs| - 1] then 1 else 0)
  }

  class Texture {
    const width: nat
    const height: nat

    constructor (width: nat, height: nat)
      ensures this.width == width && this.height == height
    {
      this.width := width;
      this.height := height;
    }
  }

  /** The part of a blur filter the pipeline drives: its direction and its named attachments. */
  class FilterBlur {
    var direction: Vector2
    var attachments: map<string, Texture>

    constructor (direction: Vector2)
      ensures this.direction == direction && attachments == map[]
    {
      this.direction := direction;
      attachments := map[];
    }

    method SetAttachment(name: string, texture: Texture)
      modifies this`attachments
      ensures attachments == old(attachments)[name := texture]
    {
      attachments := attachments[name := texture];
    }

    method SetDirection(d: Vector2)
      modifies this`direction
      ensures direction == d
    {
      direction := d;
    }
  }

  class PipelineBlur {
    const filterBlurVertical: FilterBlur
    const filterBlurHorizontal: FilterBlur
    const scale: real
    const blur: real
    var output: Texture?
    var lastWidth: nat
    var lastHeight: nat
    /** The output object after construction and after each render, oldest first. */
    ghost var outputs: seq<Texture?>

    ghost predicate Valid()
      reads this
    {
      && filterBlurVertical != filterBlurHorizontal
      && lastWidth < U32Modulus && lastHeight < U32Modulus
      && |outputs| > 0 && outputs[|outputs| - 1] == output
    }

    function LastExtent(): (r: Extent)
      reads this
    {
      Extent(lastWidth, lastHeight)
    }

    /** No output yet, last size 0 by 0, and each filter set to blur along its axis by `scale`. */
    constructor (scale: real, blur: real)
      ensures Valid() && fresh(filterBlurVertical) && fresh(filterBlurHorizontal)
      ensures this.scale == scale && this.blur == blur
      ensures output == null && LastExtent() == Extent(0, 0) && outputs == [null]
      ensures filterBlurVertical.direction == Vector2(0.0, scale) && filterBlurVertical.attachments == map[]
      ensures filterBlurHorizontal.direction == Vector2(scale, 0.0) && filterBlurHorizontal.attachments == map[]
    {
      filterBlurVertical := new FilterBlur(Vector2(0.0, scale));
      filterBlurHorizontal := new FilterBlur(Vector2(scale, 0.0));
      this.scale := scale;
      this.blur := blur;
      output := null;
      lastWidth := 0;
      lastHeight := 0;
      outputs := [null];
    }

    /**
     * Rebuilds the output and rebinds both filters' "writeColour" attachment
     * exactly when the display size changed since the last render, then
     * resets both filter directions.  The output it leaves is recorded in
     * `outputs`.
     */
    method Render(displayWidth: int, displayHeight: int)
      requires Valid()
      modifies this`output, this`lastWidth, this`lastHeight, this`outputs, filterBlurVertical, filterBlurHorizontal
      ensures Valid()
      ensures outputs == old(outputs) + [output]
      ensures LastExtent() == DisplayExtent(displayWidth, displayHeight)
      ensures NeedsRebuild(old(LastExtent()), LastExtent()) ==>
        && output != null && fresh(output)
        && output.width == ScaledExtent(scale, lastWidth) && output.height == ScaledExtent(scale, lastHeight)
        && filterBlurVertical.attachments == old(filterBlurVertical.attachments)["writeColour" := output]
        && filterBlurHorizontal.attachments == old(filterBlurHorizontal.attachments)["writeColour" := output]
      ensures !NeedsRebuild(old(LastExtent()), LastExtent()) ==>
        && output == old(output)
        && filterBlurVertical.attachments == old(filterBlurVertical.attachments)
        && filterBlurHorizontal.attachments == old(filterBlurHorizontal.attachments)
      ensures filterBlurVertical.direction == Vector2(0.0, scale)
      ensures filterBlurHorizontal.direction == Vector2(scale, 0.0)
    {
      var width := ToU32(displayWidth);
      var height := ToU32(displayHeight);
      if width != lastWidth || height != lastHeight {
        var newWidth := ScaledExtent(scale, width);
        var newHeight := ScaledExtent(scale, height);
        var texture := new Texture(newWidth, newHeight);
        output := texture;
        filterBlurVertical.SetAttachment("writeColour", texture);
        filterBlurHorizontal.SetAttachment("writeColour", texture);
        lastWidth := width;
        lastHeight := height;
      }
      outputs := outputs + [output];
      filterBlurVertical.SetDirection(Vector2(0.0, scale));
      filterBlurHorizontal.SetDirection(Vector2(scale, 0.0));
    }
  }

  /**
   * Renders at each display size in turn. The history of output objects grows
   * by one entry per render, and the number of times it changes over the run
   * is the number Rebuilds predicts.
   */
  method RenderAll(p: PipelineBlur, sizes: seq<(int, int)>)
    requires p.Valid()
    modifies p`output, p`lastWidth, p`lastHeight, p`outputs, p.filterBlurVertical, p.filterBlurHorizontal
    ensures p.Valid()
    ensures |p.outputs| == |old(p.outputs)| + |sizes| && p.outputs[..|old(p.outputs)|] == old(p.outputs)
    ensures Replacements(p.outputs[|old(p.outputs)| - 1..]) == Rebuilds(old(p.LastExtent()), DisplayExtents(sizes))
    ensures p.LastExtent() == LastOf(old(p.LastExtent()), DisplayExtents(sizes))
  {
    ghost var start := p.LastExtent();
    ghost var extents := DisplayExtents(sizes);
    ghost var n := |p.outputs|;
    var i := 0;
    while i < |sizes|
      invariant 0 <= i <= |sizes| && p.Valid()
      invariant |p.outputs| == n + i && p.outputs[..n] == old(p.outputs)
      invariant p.LastExtent() == LastOf(start, extents[..i])
      invariant Replacements(p.outputs[n - 1..]) == Rebuilds(start, extents[..i])
    {
      ghost var history := p.outputs;
      ghost var previous := p.LastExtent();
      p.Render(sizes[i].0, sizes[i].1);
      assert p.output != history[|history| - 1] <==> NeedsRebuild(previous, extents[i]);
      assert p.outputs[n - 1..] == history[n - 1..] + [p.output];
      assert p.outputs[..n] == history[..n];
      ReplacementsSnoc(history[n - 1..], p.output);
      RebuildsStep(start, extents, i);
      i := i + 1;
    }
    assert extents[..i] == extents;
  }

  /** Appending one entry adds a replacement exactly when it differs from the last one. */
  lemma ReplacementsSnoc(outputs: seq<Texture?>, next: Texture?)
    requires |outputs| > 0
    ensures Replacements(outputs + [next])
         == Replacements(outputs) + (if outputs[|outputs| - 1] != next then 1 else 0)
  {
    assert (outputs + [next])[..|outputs|] == outputs;
  }

  /**
   * Two renders at one display size: the first rebuilds exactly when the size
   * changed, and the second replaces nothing, so the pair rebuilds at most once.
   */
  method RenderTwice(p: PipelineBlur, displayWidth: int, displayHeight: int)
    requires p.Valid()
    modifies p`output, p`lastWidth, p`lastHeight, p`outputs, p.filterBlurVertical, p.filterBlurHorizontal
    ensures p.Valid()
    ensures p.LastExtent() == DisplayExtent(displayWidth, displayHeight)
    ensures p.outputs == old(p.outputs) + [p.output, p.output]
    ensures Replacements(p.outputs[|old(p.outputs)| - 1..]) <= 1
    ensures NeedsRebuild(old(p.LastExtent()), p.LastExtent()) ==> p.output != null && fresh(p.output)
    ensures !NeedsRebuild(old(p.LastExtent()), p.LastExtent()) ==> p.output == old(p.output)
    ensures p.filterBlurVertical.attachments
         == if NeedsRebuild(old(p.LastExtent()), p.LastExtent())
            then old(p.filterBlurVertical.attachments)["writeColour" := p.output]
            else old(p.filterBlurVertical.attachments)
    ensures p.filterBlurHorizontal.attachments
         == if NeedsRebuild(old(p.LastExtent()), p.LastExtent())
            then old(p.filterBlurHorizontal.attachments)["writeColour" := p.output]
            else old(p.filterBlurHorizontal.attachments)
  {
    ghost var history := p.outputs;
    p.Render(displayWidth, displayHeight);
    p.Render(displayWidth, displayHeight);
    ghost var run := p.outputs[|history| - 1..];
    assert run == [history[|history| - 1], p.output, p.output];
    ReplacementsSnoc(run[..2], p.output);
    assert run[..2] == run[..2][..1] + [p.output];
    ReplacementsSnoc(run[..2][..1], p.output);
  }
}
