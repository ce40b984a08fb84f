/**
 * The box of tktui/box.py: a rectangle cut out of a parent window, with a
 * border flag and a border title written into its top or bottom row.
 * Drawing itself (derwin, border, addstr) is a terminal effect; the model
 * records the title writes it would make.
 */
module Boxes {
  import opened Wrappers

  /** BorderPos of tktui/base.py with its numbering: even values are the top row. */
  datatype BorderPos = TopLeft | BottomLeft | TopCenter | BottomCenter | TopRight | BottomRight
  {
    function Value(): nat {
      match this
      case TopLeft => 0
      case BottomLeft => 1
      case TopCenter => 2
      case BottomCenter => 3
      case TopRight => 4
      case BottomRight => 5
    }

    predicate IsTop() { TopLeft? || TopCenter? || TopRight? }
    predicate IsLeft() { TopLeft? || BottomLeft? }
    predicate IsCenter() { TopCenter? || BottomCenter? }
    predicate IsRight() { TopRight? || BottomRight? }
  }

  /** Distance of a left-aligned title from the left edge (`X_OFFSET`). */
  const X_OFFSET: int := 3

  /**
   * A window a box can be cut from: the terminal screen, or the window of
   * another box (which has that box's size).
   */
  datatype Window = Screen(rows: int, cols: int) | Derived(box: Box)
  {
    /** `getmaxyx()[0]`. */
    function Rows(): int {
      match this
      case Screen(r, _) => r
      case Derived(b) => b.height
    }

    /** `getmaxyx()[1]`. */
    function Cols(): int {
      match this
      case Screen(_, c) => c
      case Derived(b) => b.width
    }
  }

  /** Python's `given or fallback` on an optional int: None and 0 both fall back. */
  function OrDefault(given: Option<int>, fallback: int): int {
    if given.Some? && given.value != 0 then given.value else fallback
  }

  /** The title row: 0 for the top positions, the last row for the bottom ones. */
  function TitleRow(pos: BorderPos, height: int): (row: int)
    ensures pos.IsTop() ==> row == 0
    ensures !pos.IsTop() ==> row == height - 1
  {
    if pos.Value() % 2 == 0 then 0 else height - 1
  }

  /**
   * The title column: X_OFFSET from the left, X_OFFSET short of the right
   * edge, or centred, the last two clamped at 0.
   */
  function TitleColumn(pos: BorderPos, width: int, titleLength: nat): (col: int)
    ensures pos.IsLeft() ==> col == X_OFFSET
    ensures !pos.IsLeft() ==> 0 <= col
    ensures !pos.IsLeft() && 0 <= width ==> col <= width
    ensures pos.IsRight() && 0 <= width - X_OFFSET - titleLength ==> col + titleLength + X_OFFSET == width
    ensures pos.IsRight() && width - X_OFFSET - titleLength < 0 ==> col == 0
    ensures pos.IsCenter() && 0 <= width / 2 - titleLength / 2 ==> col == width / 2 - titleLength / 2
    ensures pos.IsCenter() && width / 2 - titleLength / 2 < 0 ==> col == 0
  {
    match pos
    case TopLeft | BottomLeft => X_OFFSET
    case TopRight | BottomRight =>
      var c := width - X_OFFSET - titleLength;
      if c > 0 then c else 0
    case TopCenter | BottomCenter =>
      // Python's `//` floors; for the positive divisor 2 that is Dafny's `/`.
      var c := width / 2 - titleLength / 2;
      if c > 0 then c else 0
  }

  /** Python's `s[:n]`; a negative `n` counts from the end. */
  function PyPrefix(s: string, n: int): (r: string)
    ensures r <= s
    ensures 0 <= n ==> |r| == (if n < |s| then n else |s|)
    ensures n < 0 ==> |r| == (if 0 < |s| + n then |s| + n else 0)
  {
    if 0 <= n then s[..if n < |s| then n else |s|]
    else s[..if 0 < |s| + n then |s| + n else 0]
  }

  /** One `addstr(row, col, text)` of a border title. */
  datatype TitleWrite = TitleWrite(row: int, col: int, text: string)

  /**
   * What `update_border_title` writes for a non-empty title: the title is cut
   * to the room left between its column and the right edge.
   */
  function PlaceTitle(width: int, height: int, pos: BorderPos, title: string): (w: TitleWrite)
    ensures w.row == TitleRow(pos, height) && w.col == TitleColumn(pos, width, |title|)
    ensures w.text <= title
    ensures |title| < width - w.col ==> w.text == title
    ensures |title| >= width - w.col ==> w.text == PyPrefix(title, width - w.col)
    ensures 0 <= width - w.col <= |title| ==> |w.text| == width - w.col
  {
    var row := TitleRow(pos, height);
    var col := TitleColumn(pos, width, |title|);
    var text := if |title| >= width - col then PyPrefix(title, width - col) else title;
    TitleWrite(row, col, text)
  }

  /** Whenever the title's column lies inside the box, the written title ends inside it too. */
  lemma TitleFits(width: int, height: int, pos: BorderPos, title: string)
    requires TitleColumn(pos, width, |title|) <= width
    ensures var w := PlaceTitle(width, height, pos, title); w.col + |w.text| <= width
  {
  }

  /**
   * A left title in a box narrower than X_OFFSET is cut by a negative slice:
   * in a box 2 wide, "abcd" is written as "abc".
   */
  lemma NarrowLeftTitle()
    ensures PlaceTitle(2, 5, TopLeft, "abcd") == TitleWrite(0, 3, "abc")
  {
  }

  class Box {
    const x: int
    const y: int
    const height: int
    const width: int
    var border: bool
    var borderTitle: string
    var borderPos: BorderPos
    /** The border titles written into the box's window, oldest first. */
    var titleWrites: seq<TitleWrite>

    /**
     * `Box.__init__`: width and height fall back to the parent window's size
     * when absent or 0; the border and the title are then set.
     */
    constructor (parent: Window, x: int, y: int, width: Option<int>, height: Option<int>,
                 border: bool, borderTitle: string, borderPos: BorderPos)
      ensures this.x == x && this.y == y
      ensures height.None? || height.value == 0 ==> this.height == parent.Rows()
      ensures height.Some? && height.value != 0 ==> this.height == height.value
      ensures width.None? || width.value == 0 ==> this.width == parent.Cols()
      ensures width.Some? && width.value != 0 ==> this.width == width.value
      ensures this.border == border
      ensures this.borderTitle == borderTitle && this.borderPos == borderPos
      ensures titleWrites == if borderTitle == "" then []
                             else [PlaceTitle(this.width, this.height, borderPos, borderTitle)]
    {
      this.x := x;
      this.y := y;
      this.height := OrDefault(height, parent.Rows());
      this.width := OrDefault(width, parent.Cols());
      titleWrites := [];
      new;
      SetBorder(border);
      UpdateBorderTitle(borderTitle, Some(borderPos));
    }

    /** The `border` setter; the getter reads back what was set. */
    method SetBorder(border: bool)
      modifies this`border
      ensures this.border == border
    {
      this.border := border;
    }

    /**
     * `update_border_title`: the title is always recorded, the position only
     * when one is given (every BorderPos member is truthy), and an empty title
     * writes nothing.
     */
    method UpdateBorderTitle(title: string, borderPos: Option<BorderPos>)
      modifies this`borderTitle, this`borderPos, this`titleWrites
      ensures borderTitle == title
      ensures this.borderPos == if borderPos.Some? then borderPos.value else old(this.borderPos)
      ensures titleWrites == old(titleWrites) + if title == "" then []
                             else [PlaceTitle(width, height, this.borderPos, title)]
    {
      borderTitle := title;
      if borderPos.Some? {
        this.borderPos := borderPos.value;
      }
      if title == "" {
        return;
      }
      titleWrites := titleWrites + [PlaceTitle(width, height, this.borderPos, title)];
    }
  }
}
