/**
 * The widget tree of tktui/frame.py and tktui/widget.py: how a frame or a
 * widget resolves its parent, derives its depth (`z_index`) and sets up its
 * box, and how a widget's window is focused and defocused.
 */
module Tree {
  import opened Wrappers
  import opened Boxes

  /** The two backgrounds a widget's window is given. */
  datatype Background = DefaultBackground | FocusBackground

  /**
   * The `parent` argument of a frame or a widget: a Frame, or the app. The app
   * is seen through its `_root` attribute, absent while the app builds its own
   * root, and the `tktui_stdscr` screen it passes when it does.
   */
  datatype Parent = InFrame(frame: Frame) | InApp(root: Option<Frame>, stdscr: Window)

  class Frame {
    var children: seq<Widget>
    const parent: Frame?
    const parentWin: Window
    const zIndex: int
    const box: Box

    /**
     * `Frame.__init__`: a frame inside a frame is one level deeper; a frame
     * given the app is at depth 1 and hangs under the app's root, or becomes
     * the root itself when there is none yet. Its box fills the parent window.
     */
    constructor (parent: Parent, border: bool, borderTitle: string, borderPos: BorderPos)
      ensures children == []
      ensures parent.InFrame? ==> this.parent == parent.frame && zIndex == parent.frame.zIndex + 1
                                  && parentWin == Derived(parent.frame.box)
      ensures parent.InApp? ==> zIndex == 1
      ensures parent.InApp? && parent.root.Some? ==> this.parent == parent.root.value
                                                     && parentWin == Derived(parent.root.value.box)
      ensures parent.InApp? && parent.root.None? ==> this.parent == null && parentWin == parent.stdscr
      ensures fresh(box) && box.x == 0 && box.y == 0
      ensures box.height == parentWin.Rows() && box.width == parentWin.Cols()
      ensures box.border == border && box.borderTitle == borderTitle && box.borderPos == borderPos
    {
      var win: Window;
      children := [];
      match parent {
        case InFrame(f) =>
          this.parent := f;
          win := Derived(f.box);
          zIndex := f.zIndex + 1;
        case InApp(root, stdscr) =>
          zIndex := 1;
          if root.Some? {
            this.parent := root.value;
            win := Derived(root.value.box);
          } else {
            this.parent := null;
            win := stdscr;
          }
      }
      parentWin := win;
      box := new Box(win, 0, 0, None, None, border, borderTitle, borderPos);
    }
  }

  class Widget {
    const parent: Frame
    const parentWin: Window
    const zIndex: int
    const box: Box
    var focusable: bool
    var propagatesMouseEvent: bool
    var propagatesKeyEvent: bool
    /** The background last given to the widget's window. */
    var background: Background

    /**
     * `Widget.__init__`: the parent is the given frame, or the app's root; the
     * widget is one level deeper than its parent, starts focusable, propagating
     * both kinds of event, and with the default background.
     */
    constructor (parent: Parent, x: int, y: int, height: Option<int>, width: Option<int>,
                 border: bool, borderTitle: string, borderPos: BorderPos)
      requires parent.InApp? ==> parent.root.Some?
      ensures this.parent == if parent.InFrame? then parent.frame else parent.root.value
      ensures zIndex == this.parent.zIndex + 1
      ensures parentWin == Derived(this.parent.box)
      ensures focusable && propagatesMouseEvent && propagatesKeyEvent
      ensures background == DefaultBackground
      ensures fresh(box) && box.x == x && box.y == y
      ensures height.None? || height.value == 0 ==> box.height == this.parent.box.height
      ensures height.Some? && height.value != 0 ==> box.height == height.value
      ensures width.None? || width.value == 0 ==> box.width == this.parent.box.width
      ensures width.Some? && width.value != 0 ==> box.width == width.value
      ensures box.border == border && box.borderTitle == borderTitle && box.borderPos == borderPos
    {
      var p := if parent.InFrame? then parent.frame else parent.root.value;
      this.parent := p;
      parentWin := Derived(p.box);
      zIndex := p.zIndex + 1;
      box := new Box(Derived(p.box), x, y, width, height, border, borderTitle, borderPos);
      focusable := true;
      propagatesMouseEvent := true;
      propagatesKeyEvent := true;
      background := DefaultBackground;
    }

    /** `focus()`: only a focusable widget takes the focus background. */
    method Focus()
      modifies this`background
      ensures background == if focusable then FocusBackground else old(background)
    {
      if focusable {
        background := FocusBackground;
      }
    }

    /** `defocus()`: always back to the default background. */
    method Defocus()
      modifies this`background
      ensures background == DefaultBackground
    {
      background := DefaultBackground;
    }
  }
}
