/**
 * The pack sizing pass of tktui/geometry.py: children are split into a
 * lateral group (left/right) and a longitudinal group (top/bottom), each
 * group's expanders share what its non-expanders leave of the parent, and a
 * walk over the children in order gives each a width and a height and moves
 * four running edge cursors inward.
 *
 * Sizes are `real`: the expansion size is Python's true division.
 */
module Geometry {
  import opened Wrappers

  /** A string that is none of the `Side` values. */
  type UnknownSide = s: string | s !in {"left", "right", "top", "bottom"} witness "center"

  /**
   * A side, given as a `Side` member or as a plain string; a string equal to
   * a member's value is that member, any other string is `OtherSide`.
   */
  datatype Side = Left | Right | Top | Bottom | OtherSide(name: UnknownSide)
  {
    function Value(): string {
      match this
      case Left => "left"
      case Right => "right"
      case Top => "top"
      case Bottom => "bottom"
      case OtherSide(name) => name
    }
  }

  /** A string that is none of the `Fill` values. */
  type UnknownFill = s: string | s !in {"x", "y", "both", "none"} witness ""

  /** A fill, given as a `Fill` member or as a plain string, in the same way. */
  datatype Fill = X | Y | Both | NoFill | OtherFill(name: UnknownFill)
  {
    function Value(): string {
      match this
      case X => "x"
      case Y => "y"
      case Both => "both"
      case NoFill => "none"
      case OtherFill(name) => name
    }
  }

  datatype Anchor = N | S | W | E | NW | NE | SW | SE | Center
  {
    function Value(): string {
      match this
      case N => "n"
      case S => "s"
      case W => "w"
      case E => "e"
      case NW => "nw"
      case NE => "ne"
      case SW => "sw"
      case SE => "se"
      case Center => "center"
    }
  }

  /** `PackInfo`; the anchor is only ever passed on, so it stays a string. */
  datatype PackInfo = PackInfo(side: Side, expand: bool, fill: Fill,
                               ipadx: int, ipady: int, padx: int, pady: int,
                               anchor: string)

  /** The dataclass defaults. */
  const DEFAULT_PACK_INFO: PackInfo :=
    PackInfo(Top, false, NoFill, 0, 0, 0, 0, Anchor.NW.Value())

  /** A packed child as the pass sees it: its box size and its pack request. */
  datatype Child = Child(width: int, height: int, pack: PackInfo)

  predicate IsLateral(side: Side) { side.Right? || side.Left? }
  predicate IsLongitudinal(side: Side) { side.Top? || side.Bottom? }
  predicate Recognized(side: Side) { IsLateral(side) || IsLongitudinal(side) }

  predicate InGroup(c: Child, lateral: bool) {
    if lateral then IsLateral(c.pack.side) else IsLongitudinal(c.pack.side)
  }

  predicate AllRecognized(cs: seq<Child>) {
    forall k :: 0 <= k < |cs| ==> Recognized(cs[k].pack.side)
  }

  /** The position of the first child whose side is none of the four; the pass raises there. */
  function FirstUnrecognized(cs: seq<Child>): (r: Option<nat>)
    ensures r.None? <==> AllRecognized(cs)
    ensures r.Some? ==> r.value < |cs| && !Recognized(cs[r.value].pack.side)
                        && AllRecognized(cs[..r.value])
  {
    if cs == [] then None
    else if !Recognized(cs[0].pack.side) then Some(0)
    else
      var r := FirstUnrecognized(cs[1..]);
      assert forall k :: 1 <= k < |cs| ==> cs[k] == cs[1..][k - 1];
      if r.None? then None
      else
        assert cs[..r.value + 1][1..] == cs[1..][..r.value];
        Some(r.value + 1)
  }

  /** A child on no recognized side after recognized ones is the first unrecognized. */
  lemma {:induction false} FirstUnrecognizedAt(cs: seq<Child>, i: nat)
    requires i < |cs| && AllRecognized(cs[..i]) && !Recognized(cs[i].pack.side)
    ensures FirstUnrecognized(cs) == Some(i)
    decreases i
  {
    if i > 0 {
      assert cs[..i][0] == cs[0];
      assert cs[1..][..i - 1] == cs[..i][1..];
      FirstUnrecognizedAt(cs[1..], i - 1);
    }
  }

  /** The children of one group, in order (`right_left` or `top_bottom`). */
  function Group(cs: seq<Child>, lateral: bool): (g: seq<Child>)
    ensures |g| <= |cs|
  {
    if cs == [] then []
    else
      var last := cs[|cs| - 1];
      Group(cs[..|cs| - 1], lateral) + if InGroup(last, lateral) then [last] else []
  }

  /** A group holds exactly the children on its sides. */
  lemma {:induction false} GroupMembers(cs: seq<Child>, lateral: bool)
    ensures forall c :: c in Group(cs, lateral) ==> c in cs && InGroup(c, lateral)
    ensures forall k :: 0 <= k < |cs| && InGroup(cs[k], lateral) ==> cs[k] in Group(cs, lateral)
    decreases |cs|
  {
    if cs != [] {
      var init := cs[..|cs| - 1];
      GroupMembers(init, lateral);
      assert forall k :: 0 <= k < |cs| - 1 ==> cs[k] == init[k];
    }
  }

  /** The number of expanding children (`expand_cnt_*`). */
  function CountExpand(g: seq<Child>): nat {
    if g == [] then 0
    else CountExpand(g[..|g| - 1]) + if g[|g| - 1].pack.expand then 1 else 0
  }

  /** The extent of a child along a group's axis: width for lateral, height for longitudinal. */
  function Along(c: Child, lateral: bool): int {
    if lateral then c.width else c.height
  }

  /** The summed extent of the non-expanding children (`non_expand_*`). */
  function FixedSum(g: seq<Child>, lateral: bool): int {
    if g == [] then 0
    else
      var last := g[|g| - 1];
      FixedSum(g[..|g| - 1], lateral) + if last.pack.expand then 0 else Along(last, lateral)
  }

  /**
   * The share of each expander: none without expanders; otherwise an equal
   * split of what the non-expanders leave of the parent, never negative.
   */
  function ExpansionSize(extent: int, fixed: int, count: nat): (e: real)
    ensures 0.0 <= e
    ensures count == 0 ==> e == 0.0
    ensures 0 < count && fixed <= extent ==> e * count as real == (extent - fixed) as real
    ensures extent < fixed ==> e == 0.0
  {
    if count == 0 then 0.0
    else
      var share := (extent - fixed) as real / count as real;
      if share > 0.0 then share else 0.0
  }

  /** The four running cursors: `right` is the left edge cursor, `left` the right edge cursor. */
  datatype Cursors = Cursors(right: real, left: real, top: real, bottom: real)

  function Start(width: int, height: int): Cursors {
    Cursors(0.0, width as real, 0.0, height as real)
  }

  predicate FillsVertically(fill: Fill) { fill.Both? || fill.Y? }
  predicate FillsHorizontally(fill: Fill) { fill.Both? || fill.X? }

  /** The size the pass gives a child. */
  datatype Placement = Placement(width: real, height: real)

  /** A non-expanding child's fill counts as none. */
  function EffectiveFill(p: PackInfo): Fill {
    if !p.expand then NoFill else p.fill
  }

  /** A non-expanding child fills neither way; an expander fills as it asks. */
  lemma EffectiveFillOf(p: PackInfo)
    ensures !p.expand ==> !FillsHorizontally(EffectiveFill(p)) && !FillsVertically(EffectiveFill(p))
    ensures p.expand ==> EffectiveFill(p) == p.fill
  {
  }

  /**
   * A child's size: along its group's axis the expansion share when it fills
   * that way, across it the room between the opposite cursors when it fills
   * that way, and its own size otherwise.
   */
  function Place(c: Child, cur: Cursors, expandWidth: real, expandHeight: real): Placement {
    var fill := EffectiveFill(c.pack);
    if IsLateral(c.pack.side) then
      Placement(if FillsHorizontally(fill) then expandWidth else c.width as real,
                if FillsVertically(fill) then cur.bottom - cur.top else c.height as real)
    else
      Placement(if FillsHorizontally(fill) then cur.left - cur.right else c.width as real,
                if FillsVertically(fill) then expandHeight else c.height as real)
  }

  /**
   * A non-expander keeps its own box size; an expander filling along its
   * group's axis gets the share, across it the room between the opposite
   * cursors, and keeps its own extent in a direction it does not fill.
   */
  lemma PlaceSize(c: Child, cur: Cursors, expandWidth: real, expandHeight: real)
    ensures var p := Place(c, cur, expandWidth, expandHeight);
            && (!c.pack.expand ==> p == Placement(c.width as real, c.height as real))
            && (c.pack.expand && FillsHorizontally(c.pack.fill) ==>
                  p.width == if IsLateral(c.pack.side) then expandWidth else cur.left - cur.right)
            && (c.pack.expand && FillsVertically(c.pack.fill) ==>
                  p.height == if IsLateral(c.pack.side) then cur.bottom - cur.top else expandHeight)
            && (!FillsHorizontally(c.pack.fill) ==> p.width == c.width as real)
            && (!FillsVertically(c.pack.fill) ==> p.height == c.height as real)
  {
  }

  /**
   * The cursor move after a child: a side consumes the child's extent from
   * its own edge. A top child advances `top` by its height, as `bottom`
   * retreats by a bottom child's height.
   */
  function Advance(c: Child, cur: Cursors, p: Placement): Cursors {
    match c.pack.side
    case Right => cur.(left := cur.left - p.width)
    case Left => cur.(right := cur.right + p.width)
    case Top => cur.(top := cur.top + p.height)
    case Bottom => cur.(bottom := cur.bottom - p.height)
    case OtherSide(_) => cur  // not reached: the first loop rejects any other side
  }

  /**
   * Only the cursor of the child's own side moves, and the room between its
   * group's two cursors shrinks by the child's extent along that axis while
   * the other group's room stays.
   */
  lemma AdvanceMoves(c: Child, cur: Cursors, p: Placement)
    ensures var r := Advance(c, cur, p);
            && (c.pack.side != Left ==> r.right == cur.right)
            && (c.pack.side != Right ==> r.left == cur.left)
            && (c.pack.side != Top ==> r.top == cur.top)
            && (c.pack.side != Bottom ==> r.bottom == cur.bottom)
            && r.left - r.right == cur.left - cur.right - (if IsLateral(c.pack.side) then p.width else 0.0)
            && r.bottom - r.top == cur.bottom - cur.top - (if IsLongitudinal(c.pack.side) then p.height else 0.0)
  {
  }

  datatype Walked = Walked(cursors: Cursors, placements: seq<Placement>)

  /** The second loop of the pass over the first |cs| children. */
  function Walk(cs: seq<Child>, start: Cursors, expandWidth: real, expandHeight: real): (w: Walked)
    ensures |w.placements| == |cs|
  {
    if cs == [] then Walked(start, [])
    else
      var prev := Walk(cs[..|cs| - 1], start, expandWidth, expandHeight);
      var c := cs[|cs| - 1];
      var p := Place(c, prev.cursors, expandWidth, expandHeight);
      Walked(Advance(c, prev.cursors, p), prev.placements + [p])
  }

  /** The first loop's state: both groups, their expander counts and non-expander totals. */
  datatype Tally = Tally(lateral: seq<Child>, longitudinal: seq<Child>,
                         expandLateral: nat, expandLongitudinal: nat,
                         fixedWidth: int, fixedHeight: int)

  function TallyOf(cs: seq<Child>): Tally {
    var lateral := Group(cs, true);
    var longitudinal := Group(cs, false);
    Tally(lateral, longitudinal, CountExpand(lateral), CountExpand(longitudinal),
          FixedSum(lateral, true), FixedSum(longitudinal, false))
  }

  /** One more lateral child joins the lateral group and its tallies, the rest stays. */
  lemma TallyLateral(cs: seq<Child>, c: Child)
    requires IsLateral(c.pack.side)
    ensures var t := TallyOf(cs);
            TallyOf(cs + [c]) == t.(lateral := t.lateral + [c],
                                    expandLateral := t.expandLateral + (if c.pack.expand then 1 else 0),
                                    fixedWidth := t.fixedWidth + (if c.pack.expand then 0 else c.width))
  {
    var s := cs + [c];
    assert s[..|s| - 1] == cs;
    assert Group(s, false) == Group(cs, false);
    var g := Group(cs, true) + [c];
    assert Group(s, true) == g;
    assert g[..|g| - 1] == Group(cs, true);
    assert CountExpand(g) == CountExpand(Group(cs, true)) + (if c.pack.expand then 1 else 0);
    assert FixedSum(g, true) == FixedSum(Group(cs, true), true) + (if c.pack.expand then 0 else c.width);
  }

  /** One more longitudinal child joins the longitudinal group and its tallies, the rest stays. */
  lemma TallyLongitudinal(cs: seq<Child>, c: Child)
    requires IsLongitudinal(c.pack.side)
    ensures var t := TallyOf(cs);
            TallyOf(cs + [c]) == t.(longitudinal := t.longitudinal + [c],
                                    expandLongitudinal := t.expandLongitudinal + (if c.pack.expand then 1 else 0),
                                    fixedHeight := t.fixedHeight + (if c.pack.expand then 0 else c.height))
  {
    var s := cs + [c];
    assert s[..|s| - 1] == cs;
    assert Group(s, true) == Group(cs, true);
    var g := Group(cs, false) + [c];
    assert Group(s, false) == g;
    assert g[..|g| - 1] == Group(cs, false);
    assert CountExpand(g) == CountExpand(Group(cs, false)) + (if c.pack.expand then 1 else 0);
    assert FixedSum(g, false) == FixedSum(Group(cs, false), false) + (if c.pack.expand then 0 else c.height);
  }

  /** The prefix one child longer, and its sides all recognized when the next child's is. */
  lemma PrefixStep(cs: seq<Child>, i: nat)
    requires i < |cs|
    ensures cs[..i + 1] == cs[..i] + [cs[i]]
    ensures AllRecognized(cs[..i]) && Recognized(cs[i].pack.side) ==> AllRecognized(cs[..i + 1])
  {
    assert cs[..i + 1] == cs[..i] + [cs[i]];
  }

  /** Everything the pass computes. */
  datatype PackPass = PackPass(lateral: seq<Child>, longitudinal: seq<Child>,
                               expandWidth: real, expandHeight: real,
                               cursors: Cursors, placements: seq<Placement>)

  datatype PackError = UnrecognizedSide(index: nat)

  /** The pass over a parent of the given size, as a function of its children. */
  function Layout(width: int, height: int, cs: seq<Child>): PackPass {
    var t := TallyOf(cs);
    var ew := ExpansionSize(width, t.fixedWidth, t.expandLateral);
    var eh := ExpansionSize(height, t.fixedHeight, t.expandLongitudinal);
    var w := Walk(cs, Start(width, height), ew, eh);
    PackPass(t.lateral, t.longitudinal, ew, eh, w.cursors, w.placements)
  }

  /**
   * `pack_manager` over a parent box of `width` x `height`: fails at the first
   * child with an unrecognized side, and otherwise computes `Layout`.
   */
  method PackManager(width: int, height: int, children: seq<Child>) returns (r: Result<PackPass, PackError>)
    ensures r.Failure? <==> !AllRecognized(children)
    ensures r.Failure? ==> r.error == UnrecognizedSide(FirstUnrecognized(children).value)
    ensures r.Success? ==> r.value == Layout(width, height, children)
  {
    var tally := TallyChildren(children);
    if tally.Failure? {
      return Failure(tally.error);
    }
    var t := tally.value;

    var expandWidth := 0.0;
    if t.expandLateral != 0 {
      var share := (width - t.fixedWidth) as real / t.expandLateral as real;
      expandWidth := if share > 0.0 then share else 0.0;
    }
    var expandHeight := 0.0;
    if t.expandLongitudinal != 0 {
      var share := (height - t.fixedHeight) as real / t.expandLongitudinal as real;
      expandHeight := if share > 0.0 then share else 0.0;
    }

    var cursors, placements := PlaceChildren(width, height, children, expandWidth, expandHeight);
    return Success(PackPass(t.lateral, t.longitudinal, expandWidth, expandHeight, cursors, placements));
  }

  /**
   * The first loop of `pack_manager`: sort the children into the two groups
   * and tally them, raising at the first child on no recognized side.
   */
  method TallyChildren(children: seq<Child>) returns (r: Result<Tally, PackError>)
    ensures r.Failure? <==> !AllRecognized(children)
    ensures r.Failure? ==> r.error == UnrecognizedSide(FirstUnrecognized(children).value)
    ensures r.Success? ==> r.value == TallyOf(children)
  {
    var lateral: seq<Child> := [];
    var longitudinal: seq<Child> := [];
    var expandLateral, expandLongitudinal := 0, 0;
    var fixedWidth, fixedHeight := 0, 0;

    var i := 0;
    while i < |children|
      invariant 0 <= i <= |children|
      invariant AllRecognized(children[..i])
      invariant Tally(lateral, longitudinal, expandLateral, expandLongitudinal, fixedWidth, fixedHeight)
                == TallyOf(children[..i])
    {
      var c := children[i];
      PrefixStep(children, i);
      if IsLateral(c.pack.side) {
        TallyLateral(children[..i], c);
        lateral := lateral + [c];
        if c.pack.expand { expandLateral := expandLateral + 1; }
        else { fixedWidth := fixedWidth + c.width; }
      } else if IsLongitudinal(c.pack.side) {
        TallyLongitudinal(children[..i], c);
        longitudinal := longitudinal + [c];
        if c.pack.expand { expandLongitudinal := expandLongitudinal + 1; }
        else { fixedHeight := fixedHeight + c.height; }
      } else {
        FirstUnrecognizedAt(children, i);
        return Failure(UnrecognizedSide(i));
      }
      i := i + 1;
    }
    assert children[..i] == children;
    return Success(Tally(lateral, longitudinal, expandLateral, expandLongitudinal, fixedWidth, fixedHeight));
  }

  /** The second loop of `pack_manager`: each child's size, and the cursors it leaves. */
  method PlaceChildren(width: int, height: int, children: seq<Child>, expandWidth: real, expandHeight: real)
    returns (cursors: Cursors, placements: seq<Placement>)
    requires AllRecognized(children)
    ensures Walked(cursors, placements) == Walk(children, Start(width, height), expandWidth, expandHeight)
  {
    var right, left, top, bottom := 0.0, width as real, 0.0, height as real;
    placements := [];
    var i := 0;
    while i < |children|
      invariant 0 <= i <= |children|
      invariant Walked(Cursors(right, left, top, bottom), placements)
                == Walk(children[..i], Start(width, height), expandWidth, expandHeight)
    {
      var c := children[i];
      ghost var cur := Cursors(right, left, top, bottom);
      WalkLast(children[..i + 1], Start(width, height), expandWidth, expandHeight);
      assert children[..i + 1][..i] == children[..i];
      var info := c.pack;
      var fill := if !info.expand then NoFill else info.fill;
      var fillVert := fill == Both || fill == Y;
      var fillHorz := fill == Both || fill == X;
      var w, h;
      if IsLateral(info.side) {
        var availableHeight := bottom - top;
        h := if fillVert then availableHeight else c.height as real;
        w := if fillHorz then expandWidth else c.width as real;
        if info.side == Right {
          left := left - w;
        } else {
          right := right + w;
        }
      } else {
        var availableWidth := left - right;
        h := if fillVert then expandHeight else c.height as real;
        w := if fillHorz then availableWidth else c.width as real;
        if info.side == Top {
          top := top + h;
        } else {
          bottom := bottom - h;
        }
      }
      assert Placement(w, h) == Place(c, cur, expandWidth, expandHeight);
      assert Cursors(right, left, top, bottom) == Advance(c, cur, Placement(w, h));
      placements := placements + [Placement(w, h)];
      i := i + 1;
    }
    assert children[..i] == children;
    cursors := Cursors(right, left, top, bottom);
  }

  /** The walk one child longer places that child against the cursors the shorter walk left. */
  lemma WalkLast(cs: seq<Child>, start: Cursors, ew: real, eh: real)
    requires cs != []
    ensures var prev := Walk(cs[..|cs| - 1], start, ew, eh);
            var p := Place(cs[|cs| - 1], prev.cursors, ew, eh);
            Walk(cs, start, ew, eh) == Walked(Advance(cs[|cs| - 1], prev.cursors, p), prev.placements + [p])
  {
  }

  /** With every side recognized, each child lands in exactly one of the two groups. */
  lemma {:induction false} GroupsPartition(cs: seq<Child>)
    requires AllRecognized(cs)
    ensures |Group(cs, true)| + |Group(cs, false)| == |cs|
    decreases |cs|
  {
    if cs != [] {
      var init := cs[..|cs| - 1];
      assert AllRecognized(init) by {
        assert forall k :: 0 <= k < |init| ==> init[k] == cs[k];
      }
      GroupsPartition(init);
    }
  }

  /** The extent a child takes from its side's cursor: width for left/right, height for top/bottom. */
  function Consumed(c: Child, p: Placement): real {
    if IsLateral(c.pack.side) then p.width else p.height
  }

  /** The summed extent the children on `side` take. */
  function SideTotal(cs: seq<Child>, ps: seq<Placement>, side: Side): real
    requires |cs| == |ps|
  {
    if cs == [] then 0.0
    else
      var n := |cs| - 1;
      SideTotal(cs[..n], ps[..n], side) + if cs[n].pack.side == side then Consumed(cs[n], ps[n]) else 0.0
  }

  /** The summed extent the children of one group take. */
  function GroupTotal(cs: seq<Child>, ps: seq<Placement>, lateral: bool): real
    requires |cs| == |ps|
  {
    if cs == [] then 0.0
    else
      var n := |cs| - 1;
      GroupTotal(cs[..n], ps[..n], lateral) + if InGroup(cs[n], lateral) then Consumed(cs[n], ps[n]) else 0.0
  }

  /** Each cursor has moved by exactly what its own side's children took. */
  lemma {:induction false} CursorTotals(cs: seq<Child>, start: Cursors, ew: real, eh: real)
    ensures var w := Walk(cs, start, ew, eh);
            && w.cursors.right == start.right + SideTotal(cs, w.placements, Left)
            && w.cursors.left == start.left - SideTotal(cs, w.placements, Right)
            && w.cursors.top == start.top + SideTotal(cs, w.placements, Top)
            && w.cursors.bottom == start.bottom - SideTotal(cs, w.placements, Bottom)
    decreases |cs|
  {
    if cs != [] {
      var n := |cs| - 1;
      CursorTotals(cs[..n], start, ew, eh);
      var w := Walk(cs, start, ew, eh);
      assert w.placements[..n] == Walk(cs[..n], start, ew, eh).placements;
    }
  }

  /** A group takes what its two sides take. */
  lemma {:induction false} GroupTotalSides(cs: seq<Child>, ps: seq<Placement>)
    requires |cs| == |ps|
    ensures GroupTotal(cs, ps, true) == SideTotal(cs, ps, Left) + SideTotal(cs, ps, Right)
    ensures GroupTotal(cs, ps, false) == SideTotal(cs, ps, Top) + SideTotal(cs, ps, Bottom)
    decreases |cs|
  {
    if cs != [] {
      var n := |cs| - 1;
      GroupTotalSides(cs[..n], ps[..n]);
    }
  }

  /** The i-th size is the child's placement against the cursors left by the children before it. */
  lemma {:induction false} WalkPlacement(cs: seq<Child>, start: Cursors, ew: real, eh: real, i: nat)
    requires i < |cs|
    ensures Walk(cs, start, ew, eh).placements[i] == Place(cs[i], Walk(cs[..i], start, ew, eh).cursors, ew, eh)
    decreases |cs|
  {
    var n := |cs| - 1;
    if i < n {
      WalkPlacement(cs[..n], start, ew, eh, i);
      assert cs[..n][..i] == cs[..i];
    } else {
      assert cs[..n] == cs[..i];
    }
  }

  /** Every expander of a group fills along the group's axis. */
  predicate ExpandersFill(cs: seq<Child>, lateral: bool) {
    forall k :: 0 <= k < |cs| && InGroup(cs[k], lateral) && cs[k].pack.expand ==>
      if lateral then FillsHorizontally(cs[k].pack.fill) else FillsVertically(cs[k].pack.fill)
  }

  /** What one child takes: its own extent when it does not expand, the share when it expands and fills. */
  lemma PlaceConsumes(c: Child, cur: Cursors, ew: real, eh: real)
    ensures var taken := Consumed(c, Place(c, cur, ew, eh));
            && (!c.pack.expand ==> taken == Along(c, IsLateral(c.pack.side)) as real)
            && (c.pack.expand && IsLateral(c.pack.side) && FillsHorizontally(c.pack.fill) ==> taken == ew)
            && (c.pack.expand && !IsLateral(c.pack.side) && FillsVertically(c.pack.fill) ==> taken == eh)
  {
  }

  /** `count` shares of `e`, added one at a time. */
  function Shares(count: nat, e: real): real {
    if count == 0 then 0.0 else Shares(count - 1, e) + e
  }

  lemma {:induction false} SharesProduct(count: nat, e: real)
    ensures Shares(count, e) == count as real * e
  {
    if count > 0 {
      SharesProduct(count - 1, e);
    }
  }

  /**
   * When every expander fills along its axis, a group takes its
   * non-expanders' total plus one share per expander.
   */
  lemma {:induction false} GroupConsumption(cs: seq<Child>, start: Cursors, ew: real, eh: real, lateral: bool)
    requires ExpandersFill(cs, lateral)
    ensures var g := Group(cs, lateral);
            GroupTotal(cs, Walk(cs, start, ew, eh).placements, lateral)
            == FixedSum(g, lateral) as real + Shares(CountExpand(g), if lateral then ew else eh)
    decreases |cs|
  {
    if cs != [] {
      var n := |cs| - 1;
      var init := cs[..n];
      assert ExpandersFill(init, lateral) by {
        assert forall k :: 0 <= k < n ==> init[k] == cs[k];
      }
      GroupConsumption(init, start, ew, eh, lateral);
      var prev := Walk(init, start, ew, eh);
      var ps := Walk(cs, start, ew, eh).placements;
      assert ps[..n] == prev.placements;
      var c := cs[n];
      var taken := Consumed(c, Place(c, prev.cursors, ew, eh));
      assert GroupTotal(cs, ps, lateral)
             == GroupTotal(init, prev.placements, lateral) + if InGroup(c, lateral) then taken else 0.0;
      if InGroup(c, lateral) {
        PlaceConsumes(c, prev.cursors, ew, eh);
        assert cs[n] == c;
        GroupGrows(Group(init, lateral), c, lateral, if lateral then ew else eh,
                   GroupTotal(init, prev.placements, lateral), taken);
        assert Group(cs, lateral) == Group(init, lateral) + [c];
      } else {
        assert Group(cs, lateral) == Group(init, lateral) + [] == Group(init, lateral);
      }
    }
  }

  /** A group one child longer takes that child's extent, or one more share when it expands. */
  lemma GroupGrows(g: seq<Child>, c: Child, lateral: bool, e: real, before: real, taken: real)
    requires before == FixedSum(g, lateral) as real + Shares(CountExpand(g), e)
    requires !c.pack.expand ==> taken == Along(c, lateral) as real
    requires c.pack.expand ==> taken == e
    ensures before + taken == FixedSum(g + [c], lateral) as real + Shares(CountExpand(g + [c]), e)
  {
    assert (g + [c])[..|g|] == g;
  }

  /** The room between a group's two cursors shrinks by exactly what the group took. */
  lemma GroupRoom(cs: seq<Child>, start: Cursors, ew: real, eh: real)
    ensures var w := Walk(cs, start, ew, eh);
            && w.cursors.left - w.cursors.right == start.left - start.right - GroupTotal(cs, w.placements, true)
            && w.cursors.bottom - w.cursors.top == start.bottom - start.top - GroupTotal(cs, w.placements, false)
  {
    var w := Walk(cs, start, ew, eh);
    CursorTotals(cs, start, ew, eh);
    GroupTotalSides(cs, w.placements);
  }

  /** Fixed extents that fit, plus `count` shares, leave no negative room, and none once there is a share. */
  lemma ShareRoom(extent: int, fixed: int, count: nat)
    requires fixed <= extent
    ensures var e := ExpansionSize(extent, fixed, count);
            && 0.0 <= extent as real - (fixed as real + Shares(count, e))
            && (0 < count ==> extent as real - (fixed as real + Shares(count, e)) == 0.0)
  {
    var e := ExpansionSize(extent, fixed, count);
    SharesProduct(count, e);
    assert count as real * e == e * count as real;
  }

  /**
   * Conservation: when the lateral non-expanders fit the parent's width and
   * every lateral expander fills horizontally, the two lateral cursors never
   * cross, and they meet exactly as soon as there is an expander.
   */
  lemma LateralConservation(width: int, height: int, cs: seq<Child>)
    requires ExpandersFill(cs, true)
    requires TallyOf(cs).fixedWidth <= width
    ensures var p := Layout(width, height, cs);
            && p.cursors.right <= p.cursors.left
            && (TallyOf(cs).expandLateral > 0 ==> p.cursors.right == p.cursors.left)
  {
    var t := TallyOf(cs);
    var p := Layout(width, height, cs);
    var start := Start(width, height);
    GroupRoom(cs, start, p.expandWidth, p.expandHeight);
    GroupConsumption(cs, start, p.expandWidth, p.expandHeight, true);
    ShareRoom(width, t.fixedWidth, t.expandLateral);
  }

  /** The same for the vertical cursors, over the top and bottom children. */
  lemma LongitudinalConservation(width: int, height: int, cs: seq<Child>)
    requires ExpandersFill(cs, false)
    requires TallyOf(cs).fixedHeight <= height
    ensures var p := Layout(width, height, cs);
            && p.cursors.top <= p.cursors.bottom
            && (TallyOf(cs).expandLongitudinal > 0 ==> p.cursors.top == p.cursors.bottom)
  {
    var t := TallyOf(cs);
    var p := Layout(width, height, cs);
    var start := Start(width, height);
    GroupRoom(cs, start, p.expandWidth, p.expandHeight);
    GroupConsumption(cs, start, p.expandWidth, p.expandHeight, false);
    ShareRoom(height, t.fixedHeight, t.expandLongitudinal);
  }

  /**
   * Fairness: every lateral expander filling horizontally gets the same
   * share, and a non-expanding child keeps its own size.
   */
  lemma PlacementSizes(width: int, height: int, cs: seq<Child>, i: nat)
    requires i < |cs|
    ensures var p := Layout(width, height, cs);
            && (IsLateral(cs[i].pack.side) && cs[i].pack.expand && FillsHorizontally(cs[i].pack.fill)
                ==> p.placements[i].width == p.expandWidth)
            && (IsLongitudinal(cs[i].pack.side) && cs[i].pack.expand && FillsVertically(cs[i].pack.fill)
                ==> p.placements[i].height == p.expandHeight)
            && (!cs[i].pack.expand ==> p.placements[i] == Placement(cs[i].width as real, cs[i].height as real))
  {
    var p := Layout(width, height, cs);
    WalkPlacement(cs, Start(width, height), p.expandWidth, p.expandHeight, i);
  }

  /**
   * A parent 100 wide holding a left child 20 wide, a right child 20 wide and
   * an expanding left child filling both ways: the third child gets exactly
   * the 60 left over, and the lateral cursors meet at 80.
   */
  lemma ThreeLateralChildren()
    ensures var cs := [Child(20, 1, DEFAULT_PACK_INFO.(side := Left)),
                       Child(20, 1, DEFAULT_PACK_INFO.(side := Right)),
                       Child(0, 1, DEFAULT_PACK_INFO.(side := Left, expand := true, fill := Both))];
            var p := Layout(100, 10, cs);
            p.placements[2].width == 60.0 && p.cursors.right == 80.0 && p.cursors.left == 80.0
  {
    var c0 := Child(20, 1, DEFAULT_PACK_INFO.(side := Left));
    var c1 := Child(20, 1, DEFAULT_PACK_INFO.(side := Right));
    var c2 := Child(0, 1, DEFAULT_PACK_INFO.(side := Left, expand := true, fill := Both));
    var cs := [c0, c1, c2];
    ThreeLateralTally(c0, c1, c2);
    assert ExpansionSize(100, 40, 1) == 60.0;
    ThreeLateralWalk(c0, c1, c2);
  }

  /** The tallies of three lateral children, the last of them expanding. */
  lemma ThreeLateralTally(c0: Child, c1: Child, c2: Child)
    requires IsLateral(c0.pack.side) && IsLateral(c1.pack.side) && IsLateral(c2.pack.side)
    requires !c0.pack.expand && !c1.pack.expand && c2.pack.expand
    ensures TallyOf([c0, c1, c2]) == Tally([c0, c1, c2], [], 1, 0, c0.width + c1.width, 0)
  {
    TallyLateral([], c0);
    assert [] + [c0] == [c0];
    TallyLateral([c0], c1);
    assert [c0] + [c1] == [c0, c1];
    TallyLateral([c0, c1], c2);
    assert [c0, c1] + [c2] == [c0, c1, c2];
  }

  /** The walk of the example, with a share of 60. */
  lemma ThreeLateralWalk(c0: Child, c1: Child, c2: Child)
    requires c0 == Child(20, 1, DEFAULT_PACK_INFO.(side := Left))
    requires c1 == Child(20, 1, DEFAULT_PACK_INFO.(side := Right))
    requires c2 == Child(0, 1, DEFAULT_PACK_INFO.(side := Left, expand := true, fill := Both))
    ensures var w := Walk([c0, c1, c2], Start(100, 10), 60.0, 0.0);
            w.placements[2].width == 60.0 && w.cursors.right == 80.0 && w.cursors.left == 80.0
  {
    var cs := [c0, c1, c2];
    assert cs[..2] == [c0, c1] && [c0, c1][..1] == [c0] && [c0][..0] == [];
    var start := Start(100, 10);
    assert Walk([c0], start, 60.0, 0.0).cursors == Cursors(20.0, 100.0, 0.0, 10.0);
    assert Walk([c0, c1], start, 60.0, 0.0).cursors == Cursors(20.0, 80.0, 0.0, 10.0);
    var w := Walk(cs, start, 60.0, 0.0);
    assert w.placements[2] == Placement(60.0, 10.0);
  }

  /**
   * The longitudinal cursor update as the source writes it: `top += y`, where
   * `y` is whatever the last lateral child assigned — the current `top` when
   * that child's fill is a non-empty string, the anchor position otherwise —
   * and is unbound (the pass raises) when no lateral child came first.
   * `anchorY` stands for `_pack_get_xy`, which has no body.
   */
  function WalkAsWritten(cs: seq<Child>, start: Cursors, ew: real, eh: real,
                         anchorY: (real, int, string) -> real): (r: Option<(Cursors, Option<real>)>)
  {
    if cs == [] then Some((start, None))
    else
      match WalkAsWritten(cs[..|cs| - 1], start, ew, eh, anchorY)
      case None => None
      case Some((cur, y)) =>
        var c := cs[|cs| - 1];
        var p := Place(c, cur, ew, eh);
        if IsLateral(c.pack.side) then
          var y' := if c.pack.fill.Value() != "" then cur.top else anchorY(cur.bottom - cur.top, c.height, c.pack.anchor);
          Some((Advance(c, cur, p), Some(y')))
        else if c.pack.side == Top then
          if y.None? then None else Some((cur.(top := cur.top + y.value), y))
        else
          Some((Advance(c, cur, p), y))
  }

  /** No child on the lateral sides among `cs`. */
  predicate NoLateral(cs: seq<Child>) {
    forall j :: 0 <= j < |cs| ==> !IsLateral(cs[j].pack.side)
  }

  /** Some top child comes before any lateral child: its `top += y` reads an unbound `y`. */
  predicate UnboundTop(cs: seq<Child>) {
    exists k :: 0 <= k < |cs| && cs[k].pack.side == Top && NoLateral(cs[..k])
  }

  /**
   * As written, the walk raises exactly when a top child comes before every
   * lateral child, and otherwise `y` is bound exactly when a lateral child
   * has been walked.
   */
  lemma {:induction false} WalkAsWrittenRaises(cs: seq<Child>, start: Cursors, ew: real, eh: real,
                                               anchorY: (real, int, string) -> real)
    ensures var r := WalkAsWritten(cs, start, ew, eh, anchorY);
            && (r.None? <==> UnboundTop(cs))
            && (r.Some? ==> (r.value.1.None? <==> NoLateral(cs)))
    decreases |cs|
  {
    if cs != [] {
      var init := cs[..|cs| - 1];
      var c := cs[|cs| - 1];
      WalkAsWrittenRaises(init, start, ew, eh, anchorY);
      assert forall k :: 0 <= k < |init| ==> cs[..k] == init[..k] && cs[k] == init[k];
      assert cs[..|cs| - 1] == init;
      if UnboundTop(init) {
        var k :| 0 <= k < |init| && init[k].pack.side == Top && NoLateral(init[..k]);
        assert cs[k].pack.side == Top && NoLateral(cs[..k]);
      } else if UnboundTop(cs) {
        var k :| 0 <= k < |cs| && cs[k].pack.side == Top && NoLateral(cs[..k]);
        assert k == |cs| - 1;
        assert NoLateral(init);
      }
      assert NoLateral(cs) <==> NoLateral(init) && !IsLateral(c.pack.side) by {
        if NoLateral(init) && !IsLateral(c.pack.side) {
          forall j | 0 <= j < |cs| ensures !IsLateral(cs[j].pack.side) {
            if j < |init| { assert cs[j] == init[j]; }
          }
        }
      }
      if WalkAsWritten(init, start, ew, eh, anchorY).Some? && c.pack.side == Top && NoLateral(init) {
        assert cs[..|cs| - 1] == init;
        assert UnboundTop(cs);
      }
    }
  }

  /** A lone top child 5 high: as written the pass raises; corrected, `top` moves to 5. */
  lemma TopWithoutLateral(anchorY: (real, int, string) -> real)
    ensures var cs := [Child(10, 5, DEFAULT_PACK_INFO)];
            && WalkAsWritten(cs, Start(10, 10), 0.0, 0.0, anchorY).None?
            && Walk(cs, Start(10, 10), 0.0, 0.0).cursors.top == 5.0
  {
    var c := Child(10, 5, DEFAULT_PACK_INFO);
    assert [c][..0] == [];
    assert WalkAsWritten([], Start(10, 10), 0.0, 0.0, anchorY) == Some((Start(10, 10), None));
    assert Place(c, Start(10, 10), 0.0, 0.0) == Placement(10.0, 5.0);
  }

  /**
   * A left child then a top child 5 high: as written `top` advances by the
   * `y` of the left child (the old `top`, 0) instead of the height.
   */
  lemma TopAfterLateral(anchorY: (real, int, string) -> real)
    ensures var cs := [Child(10, 1, DEFAULT_PACK_INFO.(side := Left)), Child(10, 5, DEFAULT_PACK_INFO)];
            && WalkAsWritten(cs, Start(10, 10), 0.0, 0.0, anchorY) == Some((Cursors(10.0, 10.0, 0.0, 10.0), Some(0.0)))
            && Walk(cs, Start(10, 10), 0.0, 0.0).cursors.top == 5.0
  {
    var c0 := Child(10, 1, DEFAULT_PACK_INFO.(side := Left));
    var c1 := Child(10, 5, DEFAULT_PACK_INFO);
    var cs := [c0, c1];
    var start := Start(10, 10);
    assert cs[..1] == [c0] && [c0][..0] == [];
    assert WalkAsWritten([], start, 0.0, 0.0, anchorY) == Some((start, None));
    assert c0.pack.fill.Value() != "";
    assert WalkAsWritten([c0], start, 0.0, 0.0, anchorY) == Some((Cursors(10.0, 10.0, 0.0, 10.0), Some(0.0)));
    assert Walk([c0], start, 0.0, 0.0).cursors == Cursors(10.0, 10.0, 0.0, 10.0);
    assert Place(c1, Cursors(10.0, 10.0, 0.0, 10.0), 0.0, 0.0) == Placement(10.0, 5.0);
  }
}
