/**
 * The routing data of tktui/tktui.py: the two subscription dictionaries,
 * the hits an event collects from one of them, their ordering by depth,
 * and which callbacks a dispatch runs before the event is stopped.
 */
module Routing {
  import opened Wrappers
  import opened Tree

  /** A registered callback, known by its identity only. */
  type CallbackId = nat

  /** A positional or keyword argument stored with a callback. */
  type Value = int

  /** The `(callback, args, kwargs)` triple stored for a subscribed widget. */
  datatype Registration = Registration(callback: Option<CallbackId>, args: seq<Value>, kwargs: map<string, Value>)

  /**
   * A subscription dictionary: its keys in insertion order (the order `items()`
   * visits them) and the triple stored under each.
   */
  datatype Table = Table(order: seq<Widget>, entries: map<Widget, Registration>)
  {
    predicate Valid() {
      && (forall i, j :: 0 <= i < j < |order| ==> order[i] != order[j])
      && entries.Keys == set w | w in order
    }

    /**
     * `d[w] = reg`: the triple is replaced, and a widget new to the
     * dictionary goes to the end of the iteration order.
     */
    function Put(w: Widget, reg: Registration): (t: Table)
      requires Valid()
      ensures t.Valid()
      ensures t.entries.Keys == entries.Keys + {w}
      ensures t.entries[w] == reg
      ensures forall v :: v in entries && v != w ==> t.entries[v] == entries[v]
      ensures |t.order| == |order| + (if w in entries then 0 else 1)
      ensures t.order[..|order|] == order
    {
      Table(if w in entries then order else order + [w], entries[w := reg])
    }
  }

  /** A dictionary with no subscriptions. */
  const NO_SUBSCRIPTIONS := Table([], map[])

  /** Registering a widget again replaces its triple and keeps its place in the order. */
  lemma PutTwice(t: Table, w: Widget, first: Registration, second: Registration)
    requires t.Valid()
    ensures t.Put(w, first).Put(w, second) == t.Put(w, second)
  {
  }

  /** Which dictionary an event is routed through. */
  datatype Channel = MouseChannel | KeyChannel

  /**
   * The sort key: the depth of the widget's parent frame for mouse events,
   * the widget's own depth for key events.
   */
  function Depth(w: Widget, ch: Channel): int {
    if ch.MouseChannel? then w.parent.zIndex else w.zIndex
  }

  /** `propagates_mouse_event` or `propagates_key_event`. */
  function Propagates(w: Widget, ch: Channel): bool
    reads w`propagatesMouseEvent, w`propagatesKeyEvent
  {
    if ch.MouseChannel? then w.propagatesMouseEvent else w.propagatesKeyEvent
  }

  /**
   * One collected `(widget, callback_and_args)` pair, with the widget's sort
   * key and flags and its position in the dictionary's order.
   */
  datatype Hit = Hit(widget: Widget, registration: Registration, depth: int,
                     focusable: bool, propagates: bool, pos: nat)

  /** The hit for the `i`th subscription. */
  function HitAt(t: Table, ch: Channel, i: nat): Hit
    requires t.Valid() && i < |t.order|
    reads t.order`focusable, t.order`propagatesMouseEvent, t.order`propagatesKeyEvent
  {
    var w := t.order[i];
    Hit(w, t.entries[w], Depth(w, ch), w.focusable, Propagates(w, ch), i)
  }

  /**
   * The hits among the first `n` subscriptions: exactly those whose widget
   * encloses `(y, x)`, in dictionary order.
   */
  function Hits(t: Table, ch: Channel, encloses: (Widget, int, int) -> bool, y: int, x: int, n: nat): (hits: seq<Hit>)
    requires t.Valid() && n <= |t.order|
    reads t.order`focusable, t.order`propagatesMouseEvent, t.order`propagatesKeyEvent
    ensures |hits| <= n
  {
    if n == 0 then []
    else
      var prev := Hits(t, ch, encloses, y, x, n - 1);
      if encloses(t.order[n - 1], y, x) then prev + [HitAt(t, ch, n - 1)] else prev
  }

  /**
   * Every hit among the first `n` is the hit of a subscription before `n`
   * whose widget encloses `(y, x)`, and the hits keep the dictionary order.
   */
  lemma {:induction false} HitsSound(t: Table, ch: Channel, encloses: (Widget, int, int) -> bool, y: int, x: int, n: nat)
    requires t.Valid() && n <= |t.order|
    ensures var hits := Hits(t, ch, encloses, y, x, n);
            && (forall k :: 0 <= k < |hits| ==>
                  hits[k].pos < n && hits[k] == HitAt(t, ch, hits[k].pos) && encloses(t.order[hits[k].pos], y, x))
            && InCollectionOrder(hits)
  {
    if n > 0 {
      HitsSound(t, ch, encloses, y, x, n - 1);
    }
  }

  /** Every subscription among the first `n` whose widget encloses `(y, x)` is hit. */
  lemma {:induction false} HitsComplete(t: Table, ch: Channel, encloses: (Widget, int, int) -> bool,
                                        y: int, x: int, n: nat, i: nat)
    requires t.Valid() && i < n <= |t.order| && encloses(t.order[i], y, x)
    ensures exists k :: 0 <= k < |Hits(t, ch, encloses, y, x, n)| && Hits(t, ch, encloses, y, x, n)[k].pos == i
  {
    var prev := Hits(t, ch, encloses, y, x, n - 1);
    if i == n - 1 {
      assert Hits(t, ch, encloses, y, x, n) == prev + [HitAt(t, ch, i)];
      assert Hits(t, ch, encloses, y, x, n)[|prev|].pos == i;
    } else {
      HitsComplete(t, ch, encloses, y, x, n - 1, i);
      var k :| 0 <= k < |prev| && prev[k].pos == i;
      assert Hits(t, ch, encloses, y, x, n) == prev || Hits(t, ch, encloses, y, x, n) == prev + [HitAt(t, ch, n - 1)];
      assert Hits(t, ch, encloses, y, x, n)[k] == prev[k];
    }
  }

  /**
   * Each hit carries its widget's subscription in `t` and the widget's
   * current sort key and flags.
   */
  predicate Current(hits: seq<Hit>, t: Table, ch: Channel)
    requires t.Valid()
    reads t.order`focusable, t.order`propagatesMouseEvent, t.order`propagatesKeyEvent
  {
    forall h :: h in hits ==>
      && h.widget in t.order
      && h.widget in t.entries && h.registration == t.entries[h.widget]
      && h.depth == Depth(h.widget, ch)
      && h.focusable == h.widget.focusable && h.propagates == Propagates(h.widget, ch)
  }

  /** Collected hits are current. */
  lemma HitsCurrent(t: Table, ch: Channel, encloses: (Widget, int, int) -> bool, y: int, x: int)
    requires t.Valid()
    ensures Current(Hits(t, ch, encloses, y, x, |t.order|), t, ch)
  {
    var hits := Hits(t, ch, encloses, y, x, |t.order|);
    HitsSound(t, ch, encloses, y, x, |t.order|);
    forall h | h in hits
      ensures h.widget in t.order
      ensures h.widget in t.entries && h.registration == t.entries[h.widget]
      ensures h.depth == Depth(h.widget, ch)
      ensures h.focusable == h.widget.focusable && h.propagates == Propagates(h.widget, ch)
    {
      var k :| 0 <= k < |hits| && hits[k] == h;
      assert h.widget == t.order[h.pos];
    }
  }

  /** Reordering hits keeps them current. */
  lemma CurrentPermutation(a: seq<Hit>, b: seq<Hit>, t: Table, ch: Channel)
    requires t.Valid() && multiset(a) == multiset(b) && Current(a, t, ch)
    ensures Current(b, t, ch)
  {
    forall h | h in b
      ensures h in a
    {
      assert h in multiset(b);
    }
  }

  /** Deepest first: the order `sort(..., reverse=True)` promises. */
  predicate DeepestFirst(s: seq<Hit>) {
    forall i, j :: 0 <= i < j < |s| ==> s[i].depth >= s[j].depth
  }

  /** `a` comes before `b` in a stable deepest-first sort. */
  predicate Precedes(a: Hit, b: Hit) {
    a.depth > b.depth || (a.depth == b.depth && a.pos < b.pos)
  }

  predicate StablyOrdered(s: seq<Hit>) {
    forall i, j :: 0 <= i < j < |s| ==> Precedes(s[i], s[j])
  }

  /** Hits in the order they were collected. */
  predicate InCollectionOrder(s: seq<Hit>) {
    forall i, j :: 0 <= i < j < |s| ==> s[i].pos < s[j].pos
  }

  /** Inserts `h` before the first hit no deeper than it. */
  function InsertByDepth(h: Hit, s: seq<Hit>): (r: seq<Hit>)
    ensures multiset(r) == multiset(s) + multiset{h}
    ensures |r| == |s| + 1 && (r[0] == h || (0 < |s| && r[0] == s[0]))
  {
    if s == [] || s[0].depth <= h.depth then [h] + s
    else
      assert s == [s[0]] + s[1..];
      [s[0]] + InsertByDepth(h, s[1..])
  }

  /** Inserting into a deepest-first sequence keeps it deepest first. */
  lemma {:induction false} InsertDeepestFirst(h: Hit, s: seq<Hit>)
    requires DeepestFirst(s)
    ensures DeepestFirst(InsertByDepth(h, s))
  {
    if s != [] && s[0].depth > h.depth {
      var r' := InsertByDepth(h, s[1..]);
      InsertDeepestFirst(h, s[1..]);
      var r := [s[0]] + r';
      forall i, j | 0 <= i < j < |r|
        ensures r[i].depth >= r[j].depth
      {
        if i == 0 {
          if j == 1 {
            assert r[1] == r'[0];
          } else {
            assert r[j] == r'[j - 1] && r'[0].depth >= r'[j - 1].depth;
          }
        } else {
          assert r[i] == r'[i - 1] && r[j] == r'[j - 1];
        }
      }
    }
  }

  /** `list.sort(key=depth, reverse=True)`, by insertion. */
  function SortByDepth(s: seq<Hit>): (r: seq<Hit>)
    ensures multiset(r) == multiset(s) && |r| == |s|
    ensures DeepestFirst(r)
  {
    if s == [] then []
    else
      assert s == [s[0]] + s[1..];
      var sorted := SortByDepth(s[1..]);
      InsertDeepestFirst(s[0], sorted);
      InsertByDepth(s[0], sorted)
  }

  /** Inserting a hit collected before all others keeps the order stable. */
  lemma {:induction false} InsertStable(h: Hit, s: seq<Hit>)
    requires StablyOrdered(s)
    requires forall k :: 0 <= k < |s| ==> h.pos < s[k].pos
    ensures StablyOrdered(InsertByDepth(h, s))
  {
    if s == [] || s[0].depth <= h.depth {
    } else {
      InsertStable(h, s[1..]);
      var r' := InsertByDepth(h, s[1..]);
      assert Precedes(s[0], r'[0]);
    }
  }

  /**
   * The sort is stable: hits of equal depth keep the order they were
   * collected in, so the result is fully determined.
   */
  lemma {:induction false} SortStable(s: seq<Hit>)
    requires InCollectionOrder(s)
    ensures StablyOrdered(SortByDepth(s))
  {
    if s != [] {
      SortStable(s[1..]);
      var r' := SortByDepth(s[1..]);
      forall k | 0 <= k < |r'|
        ensures s[0].pos < r'[k].pos
      {
        assert r'[k] in multiset(r');
        assert r'[k] in s[1..];
        var j :| 0 <= j < |s[1..]| && s[1..][j] == r'[k];
      }
      InsertStable(s[0], r');
    }
  }

  /** The index of the first focusable hit among the first `n`, if any. */
  function FirstFocusable(hits: seq<Hit>, n: nat): (f: Option<nat>)
    requires n <= |hits|
    ensures f.Some? ==> f.value < n
  {
    if n == 0 then None
    else
      var f := FirstFocusable(hits, n - 1);
      if f.Some? then f else if hits[n - 1].focusable then Some(n - 1) else None
  }

  /**
   * `FirstFocusable` finds nothing exactly when no hit is focusable, and
   * otherwise a focusable hit with none before it.
   */
  lemma {:induction false} FirstFocusableSound(hits: seq<Hit>, n: nat)
    requires n <= |hits|
    ensures FirstFocusable(hits, n).None? <==> forall k :: 0 <= k < n ==> !hits[k].focusable
    ensures var f := FirstFocusable(hits, n);
            f.Some? ==> hits[f.value].focusable && forall k :: 0 <= k < f.value ==> !hits[k].focusable
  {
    if n > 0 {
      FirstFocusableSound(hits, n - 1);
    }
  }

  /** `FirstFocusable` one hit further on. */
  lemma FirstFocusableStep(hits: seq<Hit>, n: nat)
    requires n < |hits|
    ensures FirstFocusable(hits, n + 1) ==
              if FirstFocusable(hits, n).Some? then FirstFocusable(hits, n)
              else if hits[n].focusable then Some(n) else None
  {
  }

  /**
   * Whether running a hit's callback leaves the event stopped: the callback
   * calls `stop()`, or the widget does not propagate the event.
   */
  predicate Stops(h: Hit, stops: (CallbackId, Widget) -> bool)
    requires h.registration.callback.Some?
  {
    stops(h.registration.callback.value, h.widget) || !h.propagates
  }

  /**
   * Where a dispatch stands after the first `n` ordered hits: whether the
   * event is stopped, the widget it was last handed to, and the hits whose
   * callbacks ran.
   */
  datatype Delivery = Delivery(stopped: bool, target: Option<nat>, invoked: seq<nat>)

  /**
   * One pass of the delivery loop, at the `i`th hit: a stopped event goes no
   * further; otherwise the event is handed to the hit, and its callback, if
   * any, runs and may stop the event.
   */
  function Step(hits: seq<Hit>, d: Delivery, i: nat, stops: (CallbackId, Widget) -> bool): Delivery
    requires i < |hits|
  {
    if d.stopped then d
    else if hits[i].registration.callback.None? then Delivery(false, Some(i), d.invoked)
    else Delivery(Stops(hits[i], stops), Some(i), d.invoked + [i])
  }

  /**
   * One pass leaves a stopped event alone; otherwise the event reaches the
   * hit, at most this hit's callback runs and only when present, only a
   * callback that ran can newly stop the event, and a None callback never does.
   */
  lemma StepSound(hits: seq<Hit>, d: Delivery, i: nat, stops: (CallbackId, Widget) -> bool)
    requires i < |hits|
    ensures var s := Step(hits, d, i, stops);
            && (d.stopped ==> s == d)
            && (!d.stopped ==> s.target == Some(i))
            && (s.invoked == d.invoked || (s.invoked == d.invoked + [i] && hits[i].registration.callback.Some?))
            && (s.stopped && !d.stopped ==> s.invoked == d.invoked + [i])
            && (hits[i].registration.callback.None? ==> s.stopped == d.stopped)
  {
  }

  /**
   * The delivery loop over the first `n` hits, one `Step` per hit; its
   * indexes stay inside `hits`.
   */
  function Delivered(hits: seq<Hit>, n: nat, stops: (CallbackId, Widget) -> bool): (d: Delivery)
    requires n <= |hits|
    ensures Indexes(hits, d)
  {
    if n == 0 then Delivery(false, None, [])
    else
      var prev := Delivered(hits, n - 1, stops);
      IndexesStep(hits, prev, n - 1, stops);
      Step(hits, prev, n - 1, stops)
  }

  /** Indexes below `bound`, each greater than the one before. */
  predicate Ascending(idx: seq<nat>, bound: nat) {
    && (forall m :: 0 <= m < |idx| ==> idx[m] < bound)
    && (forall m, m' :: 0 <= m < m' < |idx| ==> idx[m] < idx[m'])
  }

  /**
   * Every callback that runs comes from one of the hits the delivery has
   * been over, each from a later hit than the one before.
   */
  lemma {:induction false} DeliveredInOrder(hits: seq<Hit>, n: nat, stops: (CallbackId, Widget) -> bool)
    requires n <= |hits|
    ensures Ascending(Delivered(hits, n, stops).invoked, n)
  {
    if n > 0 {
      var prev := Delivered(hits, n - 1, stops);
      DeliveredInOrder(hits, n - 1, stops);
      var d := Delivered(hits, n, stops);
      assert d == Step(hits, prev, n - 1, stops);
      if !prev.stopped && hits[n - 1].registration.callback.Some? {
        assert d.invoked == prev.invoked + [n - 1];
        assert forall m :: 0 <= m < |prev.invoked| ==> d.invoked[m] == prev.invoked[m];
      } else {
        assert d.invoked == prev.invoked;
      }
    }
  }

  /**
   * The event is handed to each hit the delivery reaches, with or without a
   * callback: it ends at the last callback run when it was stopped, at the
   * last hit otherwise.
   */
  lemma {:induction false} DeliveredTarget(hits: seq<Hit>, n: nat, stops: (CallbackId, Widget) -> bool)
    requires n <= |hits|
    ensures var d := Delivered(hits, n, stops);
            && (d.stopped ==> 0 < |d.invoked|)
            && d.target == if n == 0 then None
                           else if d.stopped then Some(d.invoked[|d.invoked| - 1])
                           else Some(n - 1)
  {
    if n > 0 {
      DeliveredTarget(hits, n - 1, stops);
      assert Delivered(hits, n, stops) == Step(hits, Delivered(hits, n - 1, stops), n - 1, stops);
    }
  }

  /**
   * Delivery stops exactly at the first callback that stops the event: no
   * earlier callback stops it, and the event is stopped precisely when the
   * last callback run did.
   */
  lemma {:induction false} DeliveredStopsAtLast(hits: seq<Hit>, n: nat, stops: (CallbackId, Widget) -> bool)
    requires n <= |hits|
    ensures var d := Delivered(hits, n, stops);
            && (forall m :: 0 <= m < |d.invoked| - 1 ==> !Stops(hits[d.invoked[m]], stops))
            && (d.stopped <==> 0 < |d.invoked| && Stops(hits[d.invoked[|d.invoked| - 1]], stops))
  {
    if n > 0 {
      DeliveredStopsAtLast(hits, n - 1, stops);
    }
  }

  /** A stopped delivery over the first `n` hits was stopped by a callback among them. */
  lemma {:induction false} DeliveredStoppedEarlier(hits: seq<Hit>, n: nat, stops: (CallbackId, Widget) -> bool)
    requires n <= |hits|
    ensures var d := Delivered(hits, n, stops);
            d.stopped ==> 0 < |d.invoked| && d.invoked[|d.invoked| - 1] < n
  {
    if n > 0 {
      DeliveredStoppedEarlier(hits, n - 1, stops);
    }
  }

  /**
   * No callback is skipped: every hit with a callback runs unless the event
   * was stopped by a callback of an earlier hit.
   */
  lemma {:induction false} DeliveredRunsAll(hits: seq<Hit>, n: nat, stops: (CallbackId, Widget) -> bool, j: nat)
    requires j < n <= |hits| && hits[j].registration.callback.Some?
    ensures var d := Delivered(hits, n, stops);
            j in d.invoked || (d.stopped && 0 < |d.invoked| && d.invoked[|d.invoked| - 1] < j)
  {
    var prev := Delivered(hits, n - 1, stops);
    var d := Delivered(hits, n, stops);
    assert d == Step(hits, prev, n - 1, stops);
    if prev.stopped {
      DeliveredStoppedEarlier(hits, n - 1, stops);
      if j < n - 1 {
        DeliveredRunsAll(hits, n - 1, stops, j);
      }
    } else if j < n - 1 {
      DeliveredRunsAll(hits, n - 1, stops, j);
      assert d.invoked == prev.invoked || d.invoked == prev.invoked + [n - 1];
      assert j in prev.invoked;
    } else {
      assert d.invoked == prev.invoked + [j];
    }
  }

  /** A callback run: `callback(event, *args, **kwargs)` for `widget`. */
  datatype Invocation = Invocation(widget: Widget, callback: CallbackId, args: seq<Value>, kwargs: map<string, Value>)

  function InvocationOf(h: Hit): Invocation
    requires h.registration.callback.Some?
  {
    Invocation(h.widget, h.registration.callback.value, h.registration.args, h.registration.kwargs)
  }

  /** The callback runs for the hits at `idx`, in that order. */
  function Invocations(hits: seq<Hit>, idx: seq<nat>): (r: seq<Invocation>)
    requires forall m :: 0 <= m < |idx| ==> idx[m] < |hits| && hits[idx[m]].registration.callback.Some?
    ensures |r| == |idx|
    ensures forall m :: 0 <= m < |idx| ==> r[m] == InvocationOf(hits[idx[m]])
  {
    if idx == [] then []
    else Invocations(hits, idx[..|idx| - 1]) + [InvocationOf(hits[idx[|idx| - 1]])]
  }

  /** Without hits nothing is delivered and no widget takes the focus. */
  lemma NothingDelivered(stops: (CallbackId, Widget) -> bool)
    ensures Delivered([], 0, stops) == Delivery(false, None, [])
    ensures Invocations([], []) == [] && FirstFocusable([], 0).None?
  {
  }

  /** The delivery loop advances one `Step` per hit. */
  lemma DeliveredStep(hits: seq<Hit>, n: nat, stops: (CallbackId, Widget) -> bool)
    requires n < |hits|
    ensures Delivered(hits, n + 1, stops) == Step(hits, Delivered(hits, n, stops), n, stops)
  {
  }

  /** The indexes a delivery state holds are hits; the callbacks it ran exist. */
  predicate Indexes(hits: seq<Hit>, d: Delivery) {
    && (forall m :: 0 <= m < |d.invoked| ==>
          d.invoked[m] < |hits| && hits[d.invoked[m]].registration.callback.Some?)
    && (d.target.Some? ==> d.target.value < |hits|)
  }

  /** One more hit keeps the delivery state's indexes inside `hits`. */
  lemma IndexesStep(hits: seq<Hit>, d: Delivery, n: nat, stops: (CallbackId, Widget) -> bool)
    requires n < |hits| && Indexes(hits, d)
    ensures Indexes(hits, Step(hits, d, n, stops))
  {
    if !d.stopped && hits[n].registration.callback.Some? {
      var s := d.invoked + [n];
      forall m | 0 <= m < |s|
        ensures s[m] < |hits| && hits[s[m]].registration.callback.Some?
      {
        if m < |d.invoked| {
          assert s[m] == d.invoked[m];
        }
      }
    }
  }

  /** One more hit adds the run of its callback, if the event reaches it and it has one. */
  lemma InvocationsStep(hits: seq<Hit>, d: Delivery, n: nat, stops: (CallbackId, Widget) -> bool)
    requires n < |hits| && Indexes(hits, d) && Indexes(hits, Step(hits, d, n, stops))
    ensures Invocations(hits, Step(hits, d, n, stops).invoked)
            == Invocations(hits, d.invoked)
               + if !d.stopped && hits[n].registration.callback.Some? then [InvocationOf(hits[n])] else []
  {
    if !d.stopped && hits[n].registration.callback.Some? {
      assert (d.invoked + [n])[..|d.invoked|] == d.invoked;
    }
  }

  /** The widget the event was last handed to, or null if none. */
  function TargetOf(hits: seq<Hit>, d: Delivery): Widget?
    requires d.target.Some? ==> d.target.value < |hits|
  {
    if d.target.Some? then hits[d.target.value].widget else null
  }

  /**
   * Z-order: over deepest-first hits, every callback that runs is at least
   * as deep as every callback that runs after it.
   */
  lemma DeeperRunsFirst(hits: seq<Hit>, stops: (CallbackId, Widget) -> bool, m: nat, m': nat)
    requires DeepestFirst(hits)
    requires var d := Delivered(hits, |hits|, stops); m < m' < |d.invoked|
    ensures var d := Delivered(hits, |hits|, stops);
            hits[d.invoked[m]].depth >= hits[d.invoked[m']].depth
  {
    DeliveredInOrder(hits, |hits|, stops);
  }

  /**
   * Propagation stop: once a callback stops the event, no later hit is
   * reached, and every earlier hit with a callback has run.
   */
  lemma StopCutsOff(hits: seq<Hit>, stops: (CallbackId, Widget) -> bool, k: nat)
    requires k < |hits| && hits[k].registration.callback.Some? && Stops(hits[k], stops)
    requires forall j :: 0 <= j < k && hits[j].registration.callback.Some? ==> !Stops(hits[j], stops)
    ensures var d := Delivered(hits, |hits|, stops);
            && d.stopped && d.target == Some(k)
            && (forall m :: 0 <= m < |d.invoked| ==> d.invoked[m] <= k)
            && (forall j :: 0 <= j <= k && hits[j].registration.callback.Some? ==> j in d.invoked)
  {
    var d := Delivered(hits, |hits|, stops);
    DeliveredInOrder(hits, |hits|, stops);
    DeliveredStopsAtLast(hits, |hits|, stops);
    DeliveredRunsAll(hits, |hits|, stops, k);
    if k !in d.invoked {
      assert false;
    }
    var m :| 0 <= m < |d.invoked| && d.invoked[m] == k;
    assert m == |d.invoked| - 1;
    DeliveredTarget(hits, |hits|, stops);
    forall m' | 0 <= m' < |d.invoked|
      ensures d.invoked[m'] <= k
    {
      if m' < m {
        assert d.invoked[m'] < d.invoked[m];
      }
    }
    forall j | 0 <= j <= k && hits[j].registration.callback.Some?
      ensures j in d.invoked
    {
      DeliveredRunsAll(hits, |hits|, stops, j);
    }
  }

  /**
   * A click at one point over two subscribed widgets, at depths 1 and 3: the
   * deeper one is ordered first.
   */
  lemma TwoOverlappingOrder(shallow: Widget, deep: Widget)
    ensures var hs := Hit(shallow, Registration(Some(1), [], map[]), 1, true, true, 0);
            var hd := Hit(deep, Registration(Some(2), [], map[]), 3, true, true, 1);
            SortByDepth([hs, hd]) == [hd, hs]
  {
    var hs := Hit(shallow, Registration(Some(1), [], map[]), 1, true, true, 0);
    var hd := Hit(deep, Registration(Some(2), [], map[]), 3, true, true, 1);
    assert [hs, hd][1..] == [hd];
    assert [hd][1..] == [];
    assert SortByDepth([hd]) == [hd];
  }

  /** When neither stops the event, both callbacks run, the deeper one first. */
  lemma TwoOverlappingDelivery(shallow: Widget, deep: Widget, stops: (CallbackId, Widget) -> bool)
    requires !stops(1, shallow) && !stops(2, deep)
    ensures var hs := Hit(shallow, Registration(Some(1), [], map[]), 1, true, true, 0);
            var hd := Hit(deep, Registration(Some(2), [], map[]), 3, true, true, 1);
            var d := Delivered([hd, hs], 2, stops);
            && !d.stopped && d.target == Some(1)
            && Invocations([hd, hs], d.invoked)
               == [Invocation(deep, 2, [], map[]), Invocation(shallow, 1, [], map[])]
  {
    var hs := Hit(shallow, Registration(Some(1), [], map[]), 1, true, true, 0);
    var hd := Hit(deep, Registration(Some(2), [], map[]), 3, true, true, 1);
    assert Delivered([hd, hs], 1, stops) == Delivery(false, Some(0), [0]);
    assert Delivered([hd, hs], 2, stops) == Delivery(false, Some(1), [0, 1]);
  }
}
