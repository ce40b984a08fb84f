# tktui in Dafny

A verified model of the logic inside tktui, a small curses widget toolkit
in the style of tkinter. The curses calls are left out. What remains is the
following:

- **The app** (`tktui/tktui.py`, module `App`, class `App.TkTui`). It keeps
  two subscription dictionaries, one for mouse events and one for key
  events. The `in_focus` setter lets one widget at a time show the focus
  background. `mouse_event` and `key_event` route an event:
  - they collect the subscribed widgets that enclose the point;
  - they order them deepest first, with a stable sort;
  - `mouse_event` gives the focus to the first focusable widget;
  - they run the callbacks in order until the event is stopped.
- **The routing data** (module `Routing`), the specification the app is
  proved against:
  - the dictionaries, with Python insertion order (`Routing.Table`);
  - the hits an event collects;
  - the depth sort;
  - the delivery walk (`Routing.Delivered`), which records which callbacks
    run and where the event ends.
- **Events** (`tktui/events.py`, module `Events`): position, stop flag,
  widget slot, button state or key code.
- **The widget tree** (`tktui/frame.py`, `tktui/widget.py`, module `Tree`):
  how a frame or a widget resolves its parent and derives its depth
  (`z_index`), and how `focus`/`defocus` change the window background.
- **Boxes** (`tktui/box.py`, module `Boxes`): size defaults, the border flag,
  and the border-title row, column and truncation.
- **Text measurement** (`tktui/widgets/utils.py`, module `TextSize`): strip,
  split on newlines, the longest line.
- **Labels** (`tktui/widgets/label.py`, module `Labels`): sizing at
  construction and on `update_size`/`update_text`, exact or grow-only.
- **The pack sizing pass** (`tktui/geometry.py`, module `Geometry`):
  - classification into lateral (left/right) and longitudinal (top/bottom)
    groups;
  - expander counts and fixed totals;
  - the clamped expansion share;
  - per-child sizes;
  - the four running edge cursors.

Outside effects are parameters:
- `win.enclose(y, x)` is a predicate `encloses(widget, y, x)`.
- A callback is known by an identity. Whether it calls `event.stop()` is a
  predicate `stops(callback, widget)`.
- The callbacks that run are recorded in the app's `invoked` field, in order.
- The focus transitions are recorded in `focusLog`.
- A widget's window background is a `background` field of the widget.

## Model

| member | source | states |
|---|---|---|
| Routing.Table.Put | tktui/tktui.py:84 | `d[w] = (callback, args, kwargs)`: the key set gains `w`, `w` maps to the new triple, other entries are unchanged, and the iteration order grows only for a new key, at the end |
| Routing.PutTwice | tktui/tktui.py:84 | registering a widget twice is registering it once with the second triple, at the place it first took |
| App.TkTui.RegisterForMouseEvent | tktui/tktui.py:76-84 | the mouse dictionary becomes the old one with the widget's triple stored or replaced, and stays well formed |
| App.TkTui.RegisterForKeyEvent | tktui/tktui.py:86-93 | the same for the key dictionary |
| App.TkTui.constructor | tktui/tktui.py:59 | the app starts with no subscriptions and no widget in focus |
| App.TkTui.SetFocus | tktui/tktui.py:66-74 | a non-focusable widget changes nothing; otherwise the old holder, if any, is defocused before the new widget is stored and focused; afterwards only the holder may newly show the focus background |
| Routing.Hits | tktui/tktui.py:105-108 | at most one hit per subscription; which hits, and in which order, is stated by `HitsSound` and `HitsComplete` |
| Routing.HitsSound | tktui/tktui.py:105-108 | every collected hit is a subscription whose widget encloses the point, carrying its triple, and hits keep dictionary order |
| Routing.HitsComplete | tktui/tktui.py:105-108 | every subscription whose widget encloses the point is collected |
| Routing.HitsCurrent | tktui/tktui.py:105-108 | each collected hit carries its widget's stored triple, its sort key and its current flags |
| Routing.CurrentPermutation | tktui/tktui.py:116 | reordering the hits keeps each one tied to its subscription |
| App.CollectHits | tktui/tktui.py:144-147 | the collecting loop over `items()` returns exactly the enclosing subscriptions, in dictionary order |
| Routing.InsertByDepth | tktui/tktui.py:116 | insertion keeps every hit and adds the new one |
| Routing.InsertDeepestFirst | tktui/tktui.py:116 | inserting into a deepest-first list keeps it deepest first |
| Routing.SortByDepth | tktui/tktui.py:116 | `sort(key=z_index, reverse=True)` returns a permutation of the hits in non-increasing depth order |
| Routing.InsertStable | tktui/tktui.py:152 | inserting a hit collected before all others keeps equal depths in collection order |
| Routing.SortStable | tktui/tktui.py:116 | the sort is stable: equal depths keep registration order |
| App.OrderedHits | tktui/tktui.py:103-116 | collection then sort returns the ordered hits of the dictionary at the point, each with the widget's current focusable and propagation flags |
| Routing.TwoOverlappingOrder | tktui/tktui.py:116 | a shallow and a deep widget that overlap are ordered deep first |
| Routing.FirstFocusable | tktui/tktui.py:118-122 | the index found lies among the hits searched |
| Routing.FirstFocusableSound | tktui/tktui.py:118-122 | no index is found exactly when no hit is focusable; otherwise the found hit is focusable and none before it is |
| Routing.FirstFocusableStep | tktui/tktui.py:119-122 | helper for `App.TkTui.FocusStep`, the `focused` flag of the loop; one hit later the first focusable hit is unchanged once found, else the new hit if it is focusable |
| Routing.StepSound | tktui/tktui.py:124-133 | `Step`, one pass: a stopped event is left alone; otherwise the event reaches the hit; at most this hit's callback is added, and only when present; only a callback that ran can newly stop the event, and a None callback never does |
| Routing.Delivered | tktui/tktui.py:124-133 | the delivery walk's indexes stay inside the hits, and each recorded callback exists |
| Routing.DeliveredStep | tktui/tktui.py:119-133 | helper for `App.TkTui.Deliver`: the walk advances by one loop pass per hit |
| Routing.IndexesStep | tktui/tktui.py:124-131 | one more pass keeps the walk's indexes valid |
| Routing.InvocationsStep | tktui/tktui.py:131 | one more pass adds the hit's callback to the record exactly when the event was not stopped and the callback is not None |
| Routing.Invocations | tktui/tktui.py:131 | the `m`-th recorded call is the callback, args and kwargs of the `m`-th invoked hit |
| Routing.NothingDelivered | tktui/tktui.py:111-112 | with no hits nothing runs, the event goes to no widget and nobody takes the focus |
| Routing.DeliveredInOrder | tktui/tktui.py:124-133 | callbacks run in hit order: each invoked hit comes after the one before and among the hits walked |
| Routing.DeliveredTarget | tktui/tktui.py:124-126 | `event.widget` is the last hit reached: the hit whose callback stopped the event, or the last hit when it was never stopped |
| Routing.DeliveredStopsAtLast | tktui/tktui.py:131-133 | no callback but the last one run stops the event, and the event is stopped exactly when that one did |
| Routing.DeliveredStoppedEarlier | tktui/tktui.py:124 | a stopped event was stopped at a hit already walked |
| Routing.DeliveredRunsAll | tktui/tktui.py:124-131 | every hit with a callback runs unless the event was stopped at an earlier hit; a None callback is skipped and never stops it |
| Routing.DeeperRunsFirst | tktui/tktui.py:116-133 | over deepest-first hits, every callback that runs is at least as deep as every later one |
| Routing.StopCutsOff | tktui/tktui.py:131-133 | once a callback stops the event (itself or through a non-propagating widget), no later callback runs, every earlier one ran, and the event stays at that widget |
| Routing.TwoOverlappingDelivery | tktui/tktui.py:116-133 | two overlapping widgets whose callbacks do not stop the event both run, the deeper first |
| App.TkTui.DeliverTo | tktui/tktui.py:124-133 | one pass at hit `i`: a stopped event is left alone; otherwise it is handed to the widget, and a present callback runs and is recorded; the event ends stopped exactly as `Routing.Step` says |
| App.TkTui.Deliver | tktui/tktui.py:124-133 | the pass carries the dispatch from the first `i` hits to the first `i + 1` |
| App.TkTui.FocusStep | tktui/tktui.py:119-122 | the focus half of one pass: the hit takes the focus exactly when none was taken yet and it is focusable; a hit that does not take it keeps its background, and no other widget but the old and new holder changes background |
| App.TkTui.MouseStep | tktui/tktui.py:119-133 | one pass of the mouse loop: the focus as `FocusStep` says, then delivery as `Deliver` says |
| App.TkTui.MouseLoop | tktui/tktui.py:118-133 | the whole loop: the dispatch and the focus are those of the walk over all hits, and only the old and the new holder may change background |
| App.TkTui.DispatchMouse | tktui/tktui.py:118-133 | after the loop the event, the callbacks run and the focus are those of the walk over all hits; the focus went to the first focusable hit, even after the event was stopped, the old holder defocused first; every other subscriber keeps its background, and no other widget is in its frame |
| App.Button1Clicked | tktui/tktui.py:104 | `bstate & BUTTON1_CLICKED` is non-zero exactly when bit 2 (value 4) of the state is set |
| App.TkTui.ClickedHits | tktui/tktui.py:103-116 | a click without `BUTTON1_CLICKED` collects nothing; a button-1 click collects the ordered hits |
| App.TkTui.MouseEvent | tktui/tktui.py:95-133 | the cursor moves to the pointer; the new event keeps its position and button state; the callbacks run, the event's final state and the focus are those of the walk over the ordered hits of a button-1 click; no hits means no callback and no focus change; no widget but the old and new holder changes background, and a widget other than the holder shows the focus background only if it did before and was not the old holder, so focus stays exclusive from event to event |
| App.TkTui.DispatchKey | tktui/tktui.py:149-161 | the key loop leaves the event and the record as the walk over the hits says |
| App.TkTui.KeyEvent | tktui/tktui.py:136-161 | a key press hits at the root cursor; the new event keeps that position and the key; callbacks run as the walk over the ordered key hits says; the focus never changes |
| Events.Event.MouseEvent | tktui/events.py:24-27 | a new mouse event keeps its position and button state and starts unstopped, with no widget |
| Events.Event.KeyEvent | tktui/events.py:29-32 | a new key event keeps its position and key and starts unstopped, with no widget |
| Events.Event.Stop | tktui/events.py:21-22 | `stop()` leaves the event stopped, however often it is called |
| Events.Event.SetWidget | tktui/events.py:17-19 | reading `widget` gives back the widget last set |
| Tree.Frame.constructor | tktui/frame.py:15-51 | a new frame has no children; inside a frame it is one level deeper; with the app it is at depth 1 under the root, or becomes the root, with no parent, over the screen; its box fills the parent window |
| Tree.Widget.constructor | tktui/widget.py:22-60 | the parent is the given frame or the app's root; the widget is one level deeper; its box takes the given offset and size; it starts focusable, propagating both kinds of event, with the default background |
| Tree.Widget.Focus | tktui/widget.py:65-68 | `focus()` sets the focus background only when the widget is focusable |
| Tree.Widget.Defocus | tktui/widget.py:70-72 | `defocus()` always sets the default background |
| Boxes.Box.constructor | tktui/box.py:6-39 | width and height fall back to the parent window's size when absent or 0; the border and the title are set, and a non-empty title is written once |
| Boxes.Box.SetBorder | tktui/box.py:55-62 | the `border` getter reads back the last value set |
| Boxes.Box.UpdateBorderTitle | tktui/box.py:65-92 | the title is always recorded, the position only when one is given, and only a non-empty title is written, at the place `PlaceTitle` gives |
| Boxes.TitleRow | tktui/box.py:77-80 | the title goes on row 0 for the top positions and on the last row for the bottom ones |
| Boxes.TitleColumn | tktui/box.py:82-88 | column 3 on the left; on the right `width - 3 - len` when that is not negative, else 0; in the centre `width//2 - len//2` when that is not negative, else 0; right and centre columns lie between 0 and a non-negative width |
| Boxes.PyPrefix | tktui/box.py:91 | Python's `title[:n]` is a prefix of length `n` clipped to the title, or counted from the end for negative `n` |
| Boxes.PlaceTitle | tktui/box.py:77-92 | the title goes at `TitleRow`/`TitleColumn`; a title at least as long as the room left is written as `title[:room]` (Python slice, so a negative room drops characters from the end), which is exactly the room when that is not negative; a shorter one is written whole |
| Boxes.TitleFits | tktui/box.py:90-92 | when the column is inside the box, the written title ends inside it |
| Boxes.NarrowLeftTitle | tktui/box.py:84-91 | in a box 2 wide a left title is cut by a negative slice: "abcd" becomes "abc" at column 3 |
| TextSize.TrimStart | tktui/widgets/utils.py:10 | the left strip is a suffix, what it drops is all whitespace, it is empty exactly for all-whitespace text, and it starts with a non-space |
| TextSize.TrimEnd | tktui/widgets/utils.py:10 | the right strip is a prefix, what it drops is all whitespace, it is empty exactly for all-whitespace text, and it ends with a non-space |
| TextSize.Strip | tktui/widgets/utils.py:10 | `strip()` is empty exactly for all-whitespace text, and otherwise starts and ends with a non-space |
| TextSize.StripCutsSpace | tktui/widgets/utils.py:10 | `strip()` gives a slice `s[i..j]` of the text with only whitespace before `i` and after `j` |
| TextSize.SplitLines | tktui/widgets/utils.py:10 | `split("\n")` gives one more line than there are newlines, none holding a newline, and joining them gives back the text |
| TextSize.SplitLinesSingle | tktui/widgets/utils.py:10 | text without a newline splits into itself |
| TextSize.SplitLinesCons | tktui/widgets/utils.py:10 | splitting `a + "\n" + b` gives `a` followed by the split of `b` |
| TextSize.SplitJoin | tktui/widgets/utils.py:10 | splitting joined newline-free lines gives the lines back |
| TextSize.MaxLength | tktui/widgets/utils.py:11 | the maximum is at least every line's length and equal to one of them |
| TextSize.Measure | tktui/widgets/utils.py:4-14 | empty text measures (0, 0); otherwise rows is the number of lines of the stripped text and cols the length of its longest line |
| TextSize.TrimStartAfterSpace | tktui/widgets/utils.py:10 | leading whitespace does not change the left strip |
| TextSize.TrimStartBeforeAny | tktui/widgets/utils.py:10 | text after a non-blank part is kept by the left strip |
| TextSize.TrimEndBeforeSpace | tktui/widgets/utils.py:10 | trailing whitespace does not change the right strip |
| TextSize.StripIgnoresSurroundingSpace | tktui/widgets/utils.py:10 | surrounding whitespace does not change `strip()` |
| TextSize.MeasureIgnoresSurroundingSpace | tktui/widgets/utils.py:10-14 | surrounding whitespace, newlines included, does not change the measure |
| TextSize.MeasureAllSpace | tktui/widgets/utils.py:10-14 | non-empty all-whitespace text measures (1, 0) |
| TextSize.MeasureSingleLine | tktui/widgets/utils.py:10-14 | a single line with no surrounding whitespace measures (1, its length) |
| Labels.AtLeast | tktui/widgets/label.py:34 | the conditional picks the larger of the two values |
| Labels.Label.constructor | tktui/widgets/label.py:30-43 | the text is measured; height is rows + 2 when none or 0 is given, else the larger of the given height and rows + 2; the same for width with cols; the text and border fit |
| Labels.Label.UpdateSize | tktui/widgets/label.py:77-103 | a given `grow_size_only` is stored before any early return; the sizing then moves as `Resize` says and the text keeps fitting |
| Labels.Label.UpdateText | tktui/widgets/label.py:116-120 | empty text changes nothing; other text resizes as `update_size` without a new `grow_size_only` |
| Labels.Resize | tktui/widgets/label.py:84-98 | the measure is taken over for any text but the label's own; each dimension either stays or becomes the new text's room |
| Labels.ResizeFits | tktui/widgets/label.py:84-103 | after a resize the text and border still fit |
| Labels.ResizeGrowOnly | tktui/widgets/label.py:93-95 | grow-only resizing never shrinks the label |
| Labels.ResizeExact | tktui/widgets/label.py:96-98 | otherwise new text of a new measure gets exactly its measure + 2 |
| Labels.ResizeUnchanged | tktui/widgets/label.py:84-90 | the label's own text, or text of the same measure, leaves height, width and measure as they are |
| Labels.ResizeIdempotent | tktui/widgets/label.py:77-103 | resizing twice to the same text is resizing once |
| Geometry.FirstUnrecognized | tktui/geometry.py:63-77 | the first child on no known side, found exactly when there is one, with every child before it on a known side |
| Geometry.FirstUnrecognizedAt | tktui/geometry.py:63-77 | a child on no known side after children on known sides is the first such child |
| Geometry.Group | tktui/geometry.py:63-75 | a group is no longer than the children |
| Geometry.GroupMembers | tktui/geometry.py:64-72 | a group holds exactly the children on its two sides |
| Geometry.GroupsPartition | tktui/geometry.py:63-77 | when every side is known, each child is in exactly one of the two groups |
| Geometry.TallyLateral | tktui/geometry.py:64-70 | a left or right child joins `right_left`, adds 1 to its expander count or its width to the fixed width, and leaves the other group alone |
| Geometry.TallyLongitudinal | tktui/geometry.py:71-75 | the same for a top or bottom child, with heights |
| Geometry.PrefixStep | tktui/geometry.py:63 | helper for `Geometry.TallyChildren`: the loop's prefix grows by the next child, and stays all-known when that child's side is known |
| Geometry.TallyChildren | tktui/geometry.py:58-77 | the first loop fails at the first child on an unknown side, and otherwise returns both groups, their expander counts and fixed totals |
| Geometry.ExpansionSize | tktui/geometry.py:79-83 | the share is 0 without expanders, never negative, 0 when the fixed part overflows, and otherwise splits the rest exactly |
| Geometry.EffectiveFillOf | tktui/geometry.py:90-94 | `EffectiveFill`: a non-expanding child fills neither way; an expander fills as it asks |
| Geometry.PlaceSize | tktui/geometry.py:97-100 | `Place`: a non-expander keeps its own box size; an expander filling along its group's axis gets the share, and across it the room between the opposite cursors; a direction it does not fill keeps its own extent |
| Geometry.AdvanceMoves | tktui/geometry.py:111-114 | `Advance`: only the cursor of the child's own side moves, and the room between the two cursors of its group shrinks by the child's extent along that axis while the other group's room stays |
| Geometry.WalkLast | tktui/geometry.py:88-127 | helper for `Geometry.PlaceChildren`: one more pass of the second loop places the next child against the cursors the earlier passes left, and advances them |
| Geometry.Walk | tktui/geometry.py:88-127 | the walk sizes each child once |
| Geometry.PlaceChildren | tktui/geometry.py:86-127 | the second loop's cursors and sizes are those of `Walk` from the parent's edges |
| Geometry.PackManager | tktui/geometry.py:56-127 | the pass fails exactly when a side is unknown, at the first such child, and otherwise computes `Layout` |
| Geometry.WalkPlacement | tktui/geometry.py:97-120 | each child's size is computed against the cursors left by the children before it |
| Geometry.PlaceConsumes | tktui/geometry.py:90-100 | a non-expander takes its own extent from its side; an expander that fills along its axis takes the share |
| Geometry.PlacementSizes | tktui/geometry.py:90-120 | every filling expander gets the same share, and a non-expander keeps its own size |
| Geometry.CursorTotals | tktui/geometry.py:86-127 | each cursor has moved by exactly what the children on its own side took |
| Geometry.GroupTotalSides | tktui/geometry.py:111-127 | a group takes what its two sides take |
| Geometry.SharesProduct | tktui/geometry.py:80 | `count` shares add up to count times the share |
| Geometry.GroupGrows | tktui/geometry.py:63-75 | a group one child longer takes that child's extent, or one more share when it expands |
| Geometry.GroupConsumption | tktui/geometry.py:63-127 | when every expander fills along its axis, a group takes its fixed total plus one share per expander |
| Geometry.GroupRoom | tktui/geometry.py:97-127 | the room between a group's two cursors shrinks by exactly what that group's children took |
| Geometry.ShareRoom | tktui/geometry.py:79-83 | fixed extents that fit plus one share per expander leave no negative room, and none at all once there is an expander |
| Geometry.LateralConservation | tktui/geometry.py:79-114 | when every lateral expander fills horizontally and the fixed lateral widths fit, the two lateral cursors end uncrossed, and they meet exactly once there is an expander |
| Geometry.LongitudinalConservation | tktui/geometry.py:82-127 | when every longitudinal expander fills vertically and the fixed heights fit, the top and bottom cursors end uncrossed, and they meet exactly once there is an expander; this is for the corrected top update |
| Geometry.ThreeLateralChildren | tktui/geometry.py:56-114 | left 20, right 20 and an expanding left child in a parent 100 wide: the expander gets 60 and the cursors meet at 80 |
| Geometry.ThreeLateralTally | tktui/geometry.py:63-70 | the tallies of three lateral children, the last expanding |
| Geometry.ThreeLateralWalk | tktui/geometry.py:88-114 | the walk of that example with a share of 60 |
| Geometry.WalkAsWrittenRaises | tktui/geometry.py:88-127 | the second loop as written (`WalkAsWritten`) raises exactly when a top child comes before every lateral child, and otherwise `y` is bound exactly once a lateral child has been walked |
| Geometry.TopWithoutLateral | tktui/geometry.py:125 | as written, a lone top child reads an unbound `y`; corrected, `top` moves by its height |
| Geometry.TopAfterLateral | tktui/geometry.py:104-125 | as written, a top child after a left child moves `top` by that child's `y` (the old `top`) instead of its own height |

## Left out

- Curses drawing is not modelled: windows, `derwin`, `bkgd`, `border`, `addstr`, `refresh`, `resize`, colours, `keypad` and `nodelay`. A window is its size. A box records the title writes it would make. A widget's background is a field.
- The app's set-up and loop are not modelled: `__new__` (singleton), `__init__`'s terminal set-up, `mainloop` and `exit`. They are terminal I/O.
- `curses.getmouse()` and the root window's `getyx()` are not modelled. The pointer position and button state are parameters of `MouseEvent`. The root cursor is the `cursorY`/`cursorX` fields, which `MouseEvent` moves and `KeyEvent` reads.
- `win.enclose(y, x)` is the `encloses` parameter.
- Callbacks are known only by an identity and by whether they call `event.stop()` (the `stops` parameter). Any other effect of a callback is out of scope, including re-registering widgets, changing flags or packing. So hits keep the widget flags read when they were collected.
- App.TkTui.MouseEvent: the hits are collected before the cursor moves and the event is created, whereas the source collects after. Collection reads neither, so the outcome is the same.
- App.TkTui.KeyEvent: the same reordering; the event is created after collection.
- The router reads `widget.win`, while frames and widgets keep their window at `box.win`. The model reads it as the box's window.
- Tree.Widget.constructor: requires an app parent to have its root. Without one the source fails on `parent._root`, which can only happen while the app builds its root frame.
- Labels.Label.constructor: covers only the sizing. `Label.__init__` reads `parent.win` and `parent.depth`, which neither a Frame nor the app defines. At tktui/widgets/label.py:67 it calls `self.update_border_title`, a `Box` method that neither `Label` nor `Widget` has (and `Label` never calls `super().__init__` or builds a box), so as written the constructor raises `AttributeError` there. The model keeps only the state set before that call. Its window set-up and `write_text` are curses output.
- Labels.Label.UpdateSize: after a size change, tktui/widgets/label.py:111-114 calls `self.add_border()` and `self.update_border_title(...)` whenever `self.border` is true (the default). Both are `Box` methods that neither `Label` nor `Widget` has, so as written the call raises `AttributeError` there, after line 103 has stored the new height and width. The model returns normally with the state as it stands after line 103, and leaves out the raise. The erase, redraw and resize before it are curses output. The label's `text` is never reassigned, as in the source.
- `tktui/widgets/label.py:10` declares `parent:` without an annotation, and `_pack_get_xy` at tktui/geometry.py:132 has no body, so neither file parses as written. The model follows the evident intent: a `parent` parameter, and an anchor-position function with the arguments of its call sites.
- The `lru_cache` on `calculate_text_size` is not modelled; it only memoises.
- Geometry.PackManager: anchor positions are not modelled. `_pack_get_xy` has no body and the anchor branch is `...`. The `x` and `y` of each child, paddings (`ipadx`, `ipady`, `padx`, `pady`), and writing the result back to the children (which the source never does) are left out too.
- `fill_hozz` at tktui/geometry.py:120 is read as `fill_horz`.
- `grid_manager`, `Sticky`, `place` and `columnconfigure` are stubs without behaviour.
- The expansion share is Python's true division, modelled exactly as a `real` rather than as an IEEE float.
- `tktui/ctx.py`, `tktui/colors.py`, `tktui/base.py` (except the `BorderPos` numbering) and `tui.py` are not part of this model.

## Findings

| source | as written | input that shows it | evidently intended | confidence | as-written member | corrected member |
|---|---|---|---|---|---|---|
| tktui/geometry.py:125 | a top child moves `top` by `y`. `y` is only assigned in the lateral branch, where it is the current `top`, since a non-empty fill string is truthy. | A lone top child 5 high: `y` is unbound and the pass raises. A left child, then a top child 5 high: `top` stays at 0. Both read `_pack_get_xy` (an anchor-position function, `anchorY` in the model) with the arguments of its call sites at lines 104 and 122, since its definition at line 132 has no body and declares five parameters. | `top += height`, as `bottom -= height` does for a bottom child | high, not executed | Geometry.WalkAsWritten (Geometry.WalkAsWrittenRaises, Geometry.TopWithoutLateral, Geometry.TopAfterLateral) | Geometry.Walk (Geometry.LongitudinalConservation) |
