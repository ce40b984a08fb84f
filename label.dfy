/**
 * The label of tktui/widgets/label.py: a box sized to hold its text plus a
 * one-cell border on every side, that can be resized to new text either
 * exactly or only ever growing.
 */
module Labels {
  import opened Wrappers
  import opened TextSize

  /** `needed if needed > current else current`. */
  function AtLeast(current: int, needed: int): (e: int)
    ensures e >= current && e >= needed
    ensures e == current || e == needed
  {
    if needed > current then needed else current
  }

  /**
   * A dimension at construction: the room the text needs, or the given
   * dimension when that is larger; an absent or 0 dimension is not given.
   */
  function InitialExtent(given: Option<int>, needed: int): int {
    if given.Some? && given.value != 0 then AtLeast(given.value, needed) else needed
  }

  /** The sizing state `update_size` works on. */
  datatype Extent = Extent(textSize: Size, height: int, width: int)

  /** The extent `text` needs: its measure and one border cell on each side. */
  function Fitted(text: string): Extent {
    var size := Measure(text);
    Extent(size, size.rows + 2, size.cols + 2)
  }

  /** Whether an extent holds its text and border. */
  predicate Fits(e: Extent) {
    e.height >= e.textSize.rows + 2 && e.width >= e.textSize.cols + 2
  }

  /**
   * `update_size` on the sizing state: nothing changes for the label's own
   * text or for text of the same measure; otherwise the measure is taken
   * over, and the dimensions become the text's room, at least the old
   * dimensions when only growing is allowed.
   */
  function Resize(e: Extent, labelText: string, grow: bool, text: string): (r: Extent)
    ensures r.textSize == if text == labelText then e.textSize else Measure(text)
    ensures r.height == e.height || r.height == r.textSize.rows + 2
    ensures r.width == e.width || r.width == r.textSize.cols + 2
  {
    if text == labelText then e
    else
      var size := Measure(text);
      if size == e.textSize then e
      else if grow then Extent(size, AtLeast(e.height, size.rows + 2), AtLeast(e.width, size.cols + 2))
      else Extent(size, size.rows + 2, size.cols + 2)
  }

  /** Resizing keeps the text and its border inside the label. */
  lemma ResizeFits(e: Extent, labelText: string, grow: bool, text: string)
    requires Fits(e)
    ensures Fits(Resize(e, labelText, grow, text))
  {
  }

  /** With grow-only resizing the label never shrinks. */
  lemma ResizeGrowOnly(e: Extent, labelText: string, text: string)
    ensures var r := Resize(e, labelText, true, text);
            r.height >= e.height && r.width >= e.width
  {
  }

  /** Without grow-only resizing, new text of a new measure fits the label exactly. */
  lemma ResizeExact(e: Extent, labelText: string, text: string)
    requires text != labelText && Measure(text) != e.textSize
    ensures Resize(e, labelText, false, text) == Fitted(text)
  {
  }

  /** The label's own text, or text of the same measure, leaves the extent as it is. */
  lemma ResizeUnchanged(e: Extent, labelText: string, grow: bool, text: string)
    requires text == labelText || Measure(text) == e.textSize
    ensures Resize(e, labelText, grow, text) == e
  {
  }

  /** Resizing twice to the same text is resizing once. */
  lemma ResizeIdempotent(e: Extent, labelText: string, grow: bool, text: string)
    ensures var r := Resize(e, labelText, grow, text);
            Resize(r, labelText, grow, text) == r
  {
  }

  class Label {
    /** The constructor's text; nothing later assigns it. */
    const text: string
    var textSize: Size
    var height: int
    var width: int
    var growSizeOnly: bool

    function Sizing(): Extent
      reads this
    {
      Extent(textSize, height, width)
    }

    predicate Valid()
      reads this
    {
      Fits(Sizing())
    }

    /** The sizing part of `Label.__init__`. */
    constructor (text: string, height: Option<int>, width: Option<int>, growSizeOnly: bool)
      ensures this.text == text && textSize == Measure(text)
      ensures this.height == InitialExtent(height, textSize.rows + 2)
      ensures this.width == InitialExtent(width, textSize.cols + 2)
      ensures height.None? || height.value == 0 ==> this.height == textSize.rows + 2
      ensures width.None? || width.value == 0 ==> this.width == textSize.cols + 2
      ensures this.growSizeOnly == growSizeOnly
      ensures Valid()
    {
      this.text := text;
      var size := Measure(text);
      textSize := size;
      if height.Some? && height.value != 0 {
        this.height := if size.rows + 2 > height.value then size.rows + 2 else height.value;
      } else {
        this.height := size.rows + 2;
      }
      if width.Some? && width.value != 0 {
        this.width := if size.cols + 2 > width.value then size.cols + 2 else width.value;
      } else {
        this.width := size.cols + 2;
      }
      this.growSizeOnly := growSizeOnly;
    }

    /**
     * `update_size`: a given `grow_size_only` is stored before anything else,
     * then the sizing state moves as `Resize` says.
     */
    method UpdateSize(text: string, growSizeOnly: Option<bool>)
      modifies this`growSizeOnly, this`textSize, this`height, this`width
      ensures this.growSizeOnly == if growSizeOnly.Some? then growSizeOnly.value else old(this.growSizeOnly)
      ensures Sizing() == Resize(old(Sizing()), this.text, this.growSizeOnly, text)
      ensures old(Valid()) ==> Valid()
    {
      if growSizeOnly.Some? {
        this.growSizeOnly := growSizeOnly.value;
      }
      if text == this.text {
        return;
      }
      var size := Measure(text);
      if size == textSize {
        return;
      }
      textSize := size;
      var newHeight, newWidth;
      if this.growSizeOnly {
        newHeight := if size.rows + 2 > height then size.rows + 2 else height;
        newWidth := if size.cols + 2 > width then size.cols + 2 else width;
      } else {
        newHeight := size.rows + 2;
        newWidth := size.cols + 2;
      }
      if newHeight == height && newWidth == width {
        return;
      }
      height, width := newHeight, newWidth;
    }

    /** `update_text`: empty text does nothing; other text resizes the label. */
    method UpdateText(text: string)
      modifies this`growSizeOnly, this`textSize, this`height, this`width
      ensures growSizeOnly == old(growSizeOnly)
      ensures text == "" ==> Sizing() == old(Sizing())
      ensures text != "" ==> Sizing() == Resize(old(Sizing()), this.text, growSizeOnly, text)
      ensures old(Valid()) ==> Valid()
    {
      if text == "" {
        return;
      }
      UpdateSize(text, None);
    }
  }
}
