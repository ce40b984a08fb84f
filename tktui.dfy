/**
 * The app of tktui/tktui.py: the focus setter, the two subscription
 * dictionaries, and the dispatch of a mouse click or a key press to the
 * subscribed widgets that enclose it, deepest first.
 */
module App {
  import opened Wrappers
  import opened Tree
  import opened Events
  import opened Routing

  /** `curses.BUTTON1_CLICKED`, bit 2 of the button state. */
  const BUTTON1_CLICKED: nat := 4

  /** `bstate & curses.BUTTON1_CLICKED` is non-zero. */
  predicate Button1Clicked(bstate: nat): (clicked: bool)
    ensures clicked <==> bstate % 8 >= 4
  {
    var q, r := bstate / 8, bstate % 8;
    assert bstate / BUTTON1_CLICKED == 2 * q + r / 4 by {
      assert bstate == 4 * (2 * q) + r;
    }
    (bstate / BUTTON1_CLICKED) % 2 == 1
  }

  /** A focus transition, in the order the widgets see them. */
  datatype FocusChange = Defocused(widget: Widget) | Focused(widget: Widget)

  /** The transitions of handing the focus from `previous` (if any) to `w`: defocus first. */
  function Handover(previous: Widget?, w: Widget): seq<FocusChange> {
    (if previous == null then [] else [Defocused(previous)]) + [Focused(w)]
  }

  /** The hits of a dictionary at `(y, x)`, deepest first. */
  function Ordered(t: Table, ch: Channel, encloses: (Widget, int, int) -> bool, y: int, x: int): seq<Hit>
    requires t.Valid()
    reads t.order`focusable, t.order`propagatesMouseEvent, t.order`propagatesKeyEvent
  {
    SortByDepth(Hits(t, ch, encloses, y, x, |t.order|))
  }

  /** The loop over `items()` that collects the subscriptions enclosing `(y, x)`. */
  method CollectHits(t: Table, ch: Channel, encloses: (Widget, int, int) -> bool, y: int, x: int)
    returns (hits: seq<Hit>)
    requires t.Valid()
    ensures hits == Hits(t, ch, encloses, y, x, |t.order|)
  {
    hits := [];
    var i := 0;
    while i < |t.order|
      invariant 0 <= i <= |t.order|
      invariant hits == Hits(t, ch, encloses, y, x, i)
    {
      var w := t.order[i];
      if encloses(w, y, x) {
        var propagates := if ch.MouseChannel? then w.propagatesMouseEvent else w.propagatesKeyEvent;
        hits := hits + [Hit(w, t.entries[w], Depth(w, ch), w.focusable, propagates, i)];
      }
      i := i + 1;
    }
  }

  /** The hits `mouse_event` dispatches: those of a button-1 click, none otherwise. */
  function ClickHits(t: Table, bstate: nat, encloses: (Widget, int, int) -> bool, y: int, x: int): seq<Hit>
    requires t.Valid()
    reads t.order`focusable, t.order`propagatesMouseEvent, t.order`propagatesKeyEvent
  {
    if Button1Clicked(bstate) then Ordered(t, MouseChannel, encloses, y, x) else []
  }

  /**
   * The collecting loop followed by the sort: the hits of a dictionary at
   * `(y, x)`, deepest first, each a subscribed widget with its current flags.
   */
  method OrderedHits(t: Table, ch: Channel, encloses: (Widget, int, int) -> bool, y: int, x: int)
    returns (hits: seq<Hit>)
    requires t.Valid()
    ensures hits == old(Ordered(t, ch, encloses, y, x))
    ensures forall k :: 0 <= k < |hits| ==>
              && hits[k].widget in t.order && hits[k].focusable == hits[k].widget.focusable
              && hits[k].propagates == Propagates(hits[k].widget, ch)
  {
    var found := CollectHits(t, ch, encloses, y, x);
    HitsCurrent(t, ch, encloses, y, x);
    hits := SortByDepth(found);
    CurrentPermutation(found, hits, t, ch);
    forall k | 0 <= k < |hits|
      ensures hits[k].widget in t.order && hits[k].focusable == hits[k].widget.focusable
      ensures hits[k].propagates == Propagates(hits[k].widget, ch)
    {
      assert hits[k] in hits;
    }
  }

  class TkTui {
    var mouseSubs: Table
    var keySubs: Table
    var inFocus: Widget?
    /** The root window's cursor: moved to each mouse event, read by each key event. */
    var cursorY: int
    var cursorX: int
    /** The callbacks run so far, oldest first. */
    var invoked: seq<Invocation>
    /** The focus transitions made so far, oldest first. */
    var focusLog: seq<FocusChange>

    predicate Valid()
      reads this
    {
      mouseSubs.Valid() && keySubs.Valid()
    }

    /** The widget holding the focus, as a set. */
    function Holder(): set<Widget>
      reads this
    {
      if inFocus == null then {} else {inFocus}
    }

    /** The widgets subscribed to mouse events. */
    function MouseSubscribers(): set<Widget>
      reads this
    {
      set w | w in mouseSubs.order
    }

    /** The app's state after `__init__`, curses set-up left out. */
    constructor ()
      ensures mouseSubs == NO_SUBSCRIPTIONS && keySubs == NO_SUBSCRIPTIONS
      ensures inFocus == null && cursorY == 0 && cursorX == 0
      ensures invoked == [] && focusLog == []
      ensures Valid()
    {
      mouseSubs, keySubs := NO_SUBSCRIPTIONS, NO_SUBSCRIPTIONS;
      inFocus := null;
      cursorY, cursorX := 0, 0;
      invoked, focusLog := [], [];
    }

    /**
     * The `in_focus` setter: a widget that is not focusable is ignored;
     * otherwise the widget in focus, if any, is defocused before `w` is
     * focused, so at no point do two widgets show the focus background.
     */
    method SetFocus(w: Widget)
      modifies this`inFocus, this`focusLog, w`background, Holder()`background
      ensures !w.focusable ==> && inFocus == old(inFocus) && focusLog == old(focusLog)
                               && w.background == old(w.background)
                               && (inFocus != null ==> inFocus.background == old(inFocus.background))
      ensures w.focusable ==> && inFocus == w && w.background == FocusBackground
                              && focusLog == old(focusLog) + Handover(old(inFocus), w)
      ensures w.focusable && old(inFocus) != null && old(inFocus) != w ==>
                old(inFocus).background == DefaultBackground
      ensures forall v: Widget :: old(allocated(v)) && v.background == FocusBackground && v != inFocus ==>
                  old(v.background) == FocusBackground && v != old(inFocus)
    {
      if !w.focusable {
        return;
      }
      if inFocus != null {
        inFocus.Defocus();
        focusLog := focusLog + [Defocused(inFocus)];
      }
      inFocus := w;
      w.Focus();
      focusLog := focusLog + [Focused(w)];
    }

    /** `register_for_mouse_event`: stores or replaces the widget's triple. */
    method RegisterForMouseEvent(w: Widget, callback: Option<CallbackId>, args: seq<Value>, kwargs: map<string, Value>)
      requires Valid()
      modifies this`mouseSubs
      ensures Valid()
      ensures mouseSubs == old(mouseSubs).Put(w, Registration(callback, args, kwargs))
    {
      mouseSubs := mouseSubs.Put(w, Registration(callback, args, kwargs));
    }

    /** `register_for_key_event`: stores or replaces the widget's triple. */
    method RegisterForKeyEvent(w: Widget, callback: Option<CallbackId>, args: seq<Value>, kwargs: map<string, Value>)
      requires Valid()
      modifies this`keySubs
      ensures Valid()
      ensures keySubs == old(keySubs).Put(w, Registration(callback, args, kwargs))
    {
      keySubs := keySubs.Put(w, Registration(callback, args, kwargs));
    }

    /**
     * One pass of the delivery loop, at the `i`th ordered hit: unless the
     * event is stopped, it is handed to the widget; a present callback runs
     * (it may stop the event), and a widget that does not propagate the event
     * stops it. The dispatch moves from `d` to `Step(hits, d, i, stops)`.
     */
    method DeliverTo(event: Event, hits: seq<Hit>, i: nat, propagates: bool,
                     stops: (CallbackId, Widget) -> bool, ghost d: Delivery)
      requires i < |hits| && propagates == hits[i].propagates && (d.target.Some? ==> d.target.value < |hits|)
      requires event.stopPropagation == d.stopped && event.widget == TargetOf(hits, d)
      modifies this`invoked, event`stopPropagation, event`widget
      ensures var s := Step(hits, d, i, stops);
              event.stopPropagation == s.stopped && event.widget == TargetOf(hits, s)
      ensures invoked == old(invoked) + if !d.stopped && hits[i].registration.callback.Some?
                                        then [InvocationOf(hits[i])] else []
    {
      if event.stopPropagation {
        return;
      }
      var h := hits[i];
      event.SetWidget(h.widget);
      var reg := h.registration;
      if reg.callback.None? {
        return;
      }
      invoked := invoked + [Invocation(h.widget, reg.callback.value, reg.args, reg.kwargs)];
      if stops(reg.callback.value, h.widget) {
        event.Stop();
      }
      if !propagates {
        event.Stop();
      }
    }

    /**
     * The event and the record of callbacks in the delivery state `d`, the
     * callbacks run before the delivery being `base`.
     */
    ghost predicate DeliveredAs(event: Event, hits: seq<Hit>, d: Delivery, base: seq<Invocation>)
      requires Indexes(hits, d)
      reads this`invoked, event`stopPropagation, event`widget
    {
      && event.stopPropagation == d.stopped && event.widget == TargetOf(hits, d)
      && invoked == base + Invocations(hits, d.invoked)
    }

    /** `DeliveredAs` after the delivery loop has been over the first `n` hits. */
    ghost predicate Dispatched(event: Event, hits: seq<Hit>, n: nat, stops: (CallbackId, Widget) -> bool,
                               base: seq<Invocation>)
      requires n <= |hits|
      reads this`invoked, event`stopPropagation, event`widget
    {
      DeliveredAs(event, hits, Delivered(hits, n, stops), base)
    }

    /** `DeliverTo` at the `i`th hit, as the dispatch over the first `i` and `i + 1` hits. */
    method Deliver(event: Event, hits: seq<Hit>, i: nat, propagates: bool,
                   stops: (CallbackId, Widget) -> bool, ghost base: seq<Invocation>)
      requires i < |hits| && propagates == hits[i].propagates
      requires Dispatched(event, hits, i, stops, base)
      modifies this`invoked, event`stopPropagation, event`widget
      ensures Dispatched(event, hits, i + 1, stops, base)
    {
      ghost var d := Delivered(hits, i, stops);
      ghost var before := Invocations(hits, d.invoked);
      ghost var extra := if !d.stopped && hits[i].registration.callback.Some? then [InvocationOf(hits[i])] else [];
      DeliverTo(event, hits, i, propagates, stops, d);
      assert invoked == base + (before + extra);
      DeliveredStep(hits, i, stops);
      InvocationsStep(hits, d, i, stops);
    }

    /**
     * The focus after the loop of `mouse_event` has been over the first `n`
     * hits, starting from the holder `holder` and the log `log`: `focused` is
     * set exactly when one of them was focusable, and then the first such
     * widget holds the focus, shows it, and the old holder was defocused.
     */
    ghost predicate FocusedAs(hits: seq<Hit>, n: nat, focused: bool, holder: Widget?, log: seq<FocusChange>)
      requires n <= |hits|
      reads this`inFocus, this`focusLog, (if inFocus == null then {} else {inFocus})`background,
            (if holder == null then {} else {holder})`background
    {
      var first := FirstFocusable(hits, n);
      && (focused <==> first.Some?)
      && (!focused ==> inFocus == holder && focusLog == log)
      && (focused ==> && inFocus == hits[first.value].widget && inFocus.background == FocusBackground
                      && focusLog == log + Handover(holder, inFocus)
                      && (holder != null && holder != inFocus ==> holder.background == DefaultBackground))
    }

    /** Every widget of `widgets` other than `holder` and the holder keeps its background in `before`. */
    ghost predicate BackgroundsKept(widgets: set<Widget>, before: map<Widget, Background>, holder: Widget?)
      reads this`inFocus, widgets`background
    {
      forall v :: v in widgets && v in before && v != holder && v != inFocus ==> v.background == before[v]
    }

    /**
     * The focus half of one pass of the loop of `mouse_event`: the `i`th hit
     * takes the focus if none has yet and it is focusable.
     */
    method FocusStep(hits: seq<Hit>, i: nat, focused: bool, ghost holder: Widget?, ghost log: seq<FocusChange>,
                     ghost widgets: set<Widget>, ghost before: map<Widget, Background>)
      returns (nowFocused: bool)
      requires i < |hits| && hits[i].focusable == hits[i].widget.focusable
      requires FocusedAs(hits, i, focused, holder, log)
      requires BackgroundsKept(widgets, before, holder)
      modifies this`inFocus, this`focusLog, hits[i].widget`background, Holder()`background
      ensures FocusedAs(hits, i + 1, nowFocused, holder, log)
      ensures hits[i].widget != inFocus ==> hits[i].widget.background == old(hits[i].widget.background)
      ensures BackgroundsKept(widgets, before, holder)
    {
      var w := hits[i].widget;
      FirstFocusableStep(hits, i);
      nowFocused := focused;
      if !focused && w.focusable {
        SetFocus(w);
        nowFocused := true;
      }
    }

    /**
     * One pass of the loop of `mouse_event`, at the `i`th ordered hit: the
     * widget takes the focus if none has yet and it is focusable, then the
     * event is delivered to it as `DeliverTo` says.
     */
    method MouseStep(event: Event, hits: seq<Hit>, i: nat, focused: bool, stops: (CallbackId, Widget) -> bool,
                     ghost base: seq<Invocation>, ghost holder: Widget?, ghost log: seq<FocusChange>,
                     ghost widgets: set<Widget>, ghost before: map<Widget, Background>)
      returns (nowFocused: bool)
      requires i < |hits| && hits[i].focusable == hits[i].widget.focusable
      requires hits[i].propagates == hits[i].widget.propagatesMouseEvent
      requires Dispatched(event, hits, i, stops, base)
      requires FocusedAs(hits, i, focused, holder, log)
      requires BackgroundsKept(widgets, before, holder)
      modifies this`inFocus, this`focusLog, this`invoked, event`stopPropagation, event`widget
      modifies hits[i].widget`background, Holder()`background
      ensures Dispatched(event, hits, i + 1, stops, base)
      ensures FocusedAs(hits, i + 1, nowFocused, holder, log)
      ensures hits[i].widget != inFocus ==> hits[i].widget.background == old(hits[i].widget.background)
      ensures BackgroundsKept(widgets, before, holder)
    {
      nowFocused := FocusStep(hits, i, focused, holder, log, widgets, before);
      Deliver(event, hits, i, hits[i].widget.propagatesMouseEvent, stops, base);
    }

    /**
     * The end of `mouse_event` over the ordered hits: nothing happens without
     * hits; otherwise the first focusable widget takes the focus, and the
     * event is delivered hit by hit until it is stopped.
     */
    method DispatchMouse(event: Event, hits: seq<Hit>, stops: (CallbackId, Widget) -> bool, ghost subscribers: set<Widget>)
      requires !event.stopPropagation && event.widget == null
      requires forall k :: 0 <= k < |hits| ==>
                 && hits[k].widget in subscribers
                 && hits[k].focusable == hits[k].widget.focusable && hits[k].propagates == hits[k].widget.propagatesMouseEvent
      modifies this`inFocus, this`focusLog, this`invoked, event`stopPropagation, event`widget
      modifies subscribers`background, Holder()`background
      ensures var d := Delivered(hits, |hits|, stops);
              && event.stopPropagation == d.stopped
              && event.widget == TargetOf(hits, d)
              && invoked == old(invoked) + Invocations(hits, d.invoked)
      ensures var f := FirstFocusable(hits, |hits|);
              && (f.None? ==> inFocus == old(inFocus) && focusLog == old(focusLog))
              && (f.Some? ==> && inFocus == hits[f.value].widget && inFocus.background == FocusBackground
                              && focusLog == old(focusLog) + Handover(old(inFocus), inFocus)
                              && (old(inFocus) != null && old(inFocus) != inFocus ==> old(inFocus).background == DefaultBackground))
      ensures forall v :: v in subscribers && v != old(inFocus) && v != inFocus ==> v.background == old(v.background)
    {
      ghost var before := map v | v in subscribers :: v.background;
      if hits == [] {
        NothingDelivered(stops);
        assert invoked == old(invoked) + [];
        return;
      }
      MouseLoop(event, hits, stops, old(invoked), old(inFocus), old(focusLog), subscribers, before);
    }

    /** The loop of `mouse_event` over all the ordered hits, from the holder `holder` and the log `log`. */
    method MouseLoop(event: Event, hits: seq<Hit>, stops: (CallbackId, Widget) -> bool, ghost base: seq<Invocation>,
                     ghost holder: Widget?, ghost log: seq<FocusChange>,
                     ghost widgets: set<Widget>, ghost before: map<Widget, Background>)
      requires forall k :: 0 <= k < |hits| ==>
                 && hits[k].widget in widgets
                 && hits[k].focusable == hits[k].widget.focusable && hits[k].propagates == hits[k].widget.propagatesMouseEvent
      requires Dispatched(event, hits, 0, stops, base)
      requires FocusedAs(hits, 0, false, holder, log)
      requires BackgroundsKept(widgets, before, holder)
      modifies this`inFocus, this`focusLog, this`invoked, event`stopPropagation, event`widget
      modifies widgets`background, Holder()`background
      ensures Dispatched(event, hits, |hits|, stops, base)
      ensures FocusedAs(hits, |hits|, FirstFocusable(hits, |hits|).Some?, holder, log)
      ensures BackgroundsKept(widgets, before, holder)
    {
      var focused := false;
      var i := 0;
      while i < |hits|
        invariant 0 <= i <= |hits|
        invariant Dispatched(event, hits, i, stops, base)
        invariant FocusedAs(hits, i, focused, holder, log)
        invariant BackgroundsKept(widgets, before, holder)
      {
        focused := MouseStep(event, hits, i, focused, stops, base, holder, log, widgets, before);
        i := i + 1;
      }
    }

    /** The collection of `mouse_event`: the ordered hits of a button-1 click, none otherwise. */
    method ClickedHits(bstate: nat, encloses: (Widget, int, int) -> bool, y: int, x: int) returns (hits: seq<Hit>)
      requires Valid()
      ensures hits == old(ClickHits(mouseSubs, bstate, encloses, y, x))
      ensures forall k :: 0 <= k < |hits| ==>
                && hits[k].widget in MouseSubscribers()
                && hits[k].focusable == hits[k].widget.focusable
                && hits[k].propagates == hits[k].widget.propagatesMouseEvent
    {
      hits := [];
      if Button1Clicked(bstate) {
        hits := OrderedHits(mouseSubs, MouseChannel, encloses, y, x);
      }
    }

    /**
     * `mouse_event`: the cursor moves to the pointer; a button-1 click is
     * routed to the subscribed widgets that enclose it, deepest parent first.
     * The first focusable one takes the focus, and callbacks run in order
     * until the event is stopped.
     */
    method MouseEvent(x: int, y: int, bstate: nat, encloses: (Widget, int, int) -> bool,
                      stops: (CallbackId, Widget) -> bool)
      returns (event: Event)
      requires Valid()
      modifies this`cursorY, this`cursorX, this`inFocus, this`focusLog, this`invoked
      modifies MouseSubscribers()`background, Holder()`background
      ensures cursorY == y && cursorX == x
      ensures fresh(event) && event.x == x && event.y == y && event.kind == Mouse(bstate)
      ensures var hits := old(ClickHits(mouseSubs, bstate, encloses, y, x));
              var d := Delivered(hits, |hits|, stops);
              && event.stopPropagation == d.stopped
              && event.widget == TargetOf(hits, d)
              && invoked == old(invoked) + Invocations(hits, d.invoked)
      ensures var hits := old(ClickHits(mouseSubs, bstate, encloses, y, x));
              var f := FirstFocusable(hits, |hits|);
              && (f.None? ==> inFocus == old(inFocus) && focusLog == old(focusLog))
              && (f.Some? ==> && inFocus == hits[f.value].widget && inFocus.background == FocusBackground
                              && focusLog == old(focusLog) + Handover(old(inFocus), inFocus)
                              && (old(inFocus) != null && old(inFocus) != inFocus ==> old(inFocus).background == DefaultBackground))
      ensures forall v: Widget :: old(allocated(v)) && v != old(inFocus) && v != inFocus ==>
                v.background == old(v.background)
      ensures forall v: Widget :: old(allocated(v)) && v.background == FocusBackground && v != inFocus ==>
                old(v.background) == FocusBackground && v != old(inFocus)
    {
      var hits := ClickedHits(bstate, encloses, y, x);
      cursorY, cursorX := y, x;
      event := new Event.MouseEvent(x, y, bstate);
      DispatchMouse(event, hits, stops, MouseSubscribers());
    }

    /**
     * The end of `key_event` over the ordered hits: nothing happens without
     * hits; otherwise delivery hit by hit until the event is stopped.
     */
    method DispatchKey(event: Event, hits: seq<Hit>, stops: (CallbackId, Widget) -> bool)
      requires !event.stopPropagation && event.widget == null
      requires forall k :: 0 <= k < |hits| ==> hits[k].propagates == hits[k].widget.propagatesKeyEvent
      modifies this`invoked, event`stopPropagation, event`widget
      ensures var d := Delivered(hits, |hits|, stops);
              && event.stopPropagation == d.stopped
              && event.widget == TargetOf(hits, d)
              && invoked == old(invoked) + Invocations(hits, d.invoked)
    {
      if hits == [] {
        NothingDelivered(stops);
        assert invoked == old(invoked) + [];
        return;
      }
      var i := 0;
      while i < |hits|
        invariant 0 <= i <= |hits|
        invariant Dispatched(event, hits, i, stops, old(invoked))
      {
        Deliver(event, hits, i, hits[i].widget.propagatesKeyEvent, stops, old(invoked));
        i := i + 1;
      }
    }

    /**
     * `key_event`: a key press is routed to the subscribed widgets that
     * enclose the root window's cursor, deepest first; callbacks run in order
     * until the event is stopped, and the focus never changes.
     */
    method KeyEvent(key: int, encloses: (Widget, int, int) -> bool, stops: (CallbackId, Widget) -> bool)
      returns (event: Event)
      requires Valid()
      modifies this`invoked
      ensures fresh(event) && event.x == old(cursorX) && event.y == old(cursorY) && event.kind == Key(key)
      ensures var hits := old(Ordered(keySubs, KeyChannel, encloses, cursorY, cursorX));
              var d := Delivered(hits, |hits|, stops);
              && event.stopPropagation == d.stopped
              && event.widget == TargetOf(hits, d)
              && invoked == old(invoked) + Invocations(hits, d.invoked)
      ensures inFocus == old(inFocus) && focusLog == old(focusLog)
    {
      var y, x := cursorY, cursorX;
      ghost var ordered := Ordered(keySubs, KeyChannel, encloses, y, x);
      var hits := OrderedHits(keySubs, KeyChannel, encloses, y, x);
      assert hits == ordered;
      event := new Event.KeyEvent(x, y, key);
      DispatchKey(event, hits, stops);
    }
  }
}
