/**
 * The drag widget: a touch-driven state machine that moves an element,
 * clamps its top-left corner into the viewport minus a safety gap, tracks
 * which quadrant of the viewport the corner is in, and on release animates
 * the element horizontally against the left or right limit.
 *
 * The element's size and the viewport's size are constructor parameters;
 * painting (`setPos`) and listener registration are not modelled.
 */
module Drag {
  import opened Js
  import Utils

  // ---------------------------------------------------------------------
  // Events
  // ---------------------------------------------------------------------

  /** A pointer coordinate, as read from `clientX` / `clientY`. */
  datatype Point = Point(clientX: real, clientY: real)

  /** The event kinds `handleEvent` tells apart; `Other` is every type it ignores. */
  datatype EventType = TouchStart | TouchMove | TouchEnd | Other

  /** A DOM event as far as the widget reads it: its type name, its touches, its own coordinates. */
  datatype TouchEvent = TouchEvent(eventType: string, touches: seq<Point>, client: Point)

  /** The switch of `handleEvent` over the names in `Mydrag.events`. */
  function EventTypeOf(name: string): (t: EventType)
    ensures t == TouchStart <==> name == "touchstart"
    ensures t == TouchMove <==> name == "touchmove"
    ensures t == TouchEnd <==> name == "touchend"
  {
    if name == "touchstart" then TouchStart
    else if name == "touchmove" then TouchMove
    else if name == "touchend" then TouchEnd
    else Other
  }

  /** `(event.touches && event.touches[0]) || event`: the first touch, else the event itself. */
  function Sample(e: TouchEvent): (p: Point)
    ensures |e.touches| > 0 ==> p == e.touches[0]
    ensures |e.touches| == 0 ==> p == e.client
  {
    if |e.touches| > 0 then e.touches[0] else e.client
  }

  // ---------------------------------------------------------------------
  // Configuration table
  // ---------------------------------------------------------------------

  /** The defaults of `Mydrag.config`. */
  function Defaults(): (d: map<string, Value>)
    ensures d.Keys == {"adsorb", "initX", "initY", "gap"}
    ensures NumericConfig(d) && d["gap"] == Num(10.0)
  {
    map["adsorb" := Bool(true), "initX" := Num(0.0), "initY" := Num(0.0), "gap" := Num(10.0)]
  }

  /** The keys the drag arithmetic reads hold numbers. */
  ghost predicate NumericConfig(entries: map<string, Value>)
  {
    && "initX" in entries && entries["initX"].Num?
    && "initY" in entries && entries["initY"].Num?
    && "gap" in entries && entries["gap"].Num?
  }

  /** Overrides that do not put a non-number under a key the drag arithmetic reads. */
  ghost predicate NumericOverrides(options: map<string, Value>)
  {
    && ("initX" in options ==> options["initX"].Num?)
    && ("initY" in options ==> options["initY"].Num?)
    && ("gap" in options ==> options["gap"].Num?)
  }

  /**
   * The single table `Mydrag.config`, shared by every widget.  Merging
   * options writes into it in place.
   */
  class ConfigTable {
    var entries: map<string, Value>

    constructor ()
      ensures entries == Defaults()
    {
      entries := Defaults();
    }

    /**
     * Copies every own key of `options` into the table, keys the defaults do
     * not know and `undefined` values included, and returns the table itself.
     */
    method MergeConfig(options: Option<map<string, Value>>) returns (newOptions: ConfigTable)
      modifies this
      ensures newOptions == this
      ensures options.None? ==> entries == old(entries)
      ensures options.Some? ==> entries == old(entries) + options.value
      ensures options.Some? ==> forall key :: key in options.value ==> entries[key] == options.value[key]
      ensures forall key :: key in old(entries) && (options.None? || key !in options.value) ==>
                key in entries && entries[key] == old(entries)[key]
    {
      newOptions := this;
      if options.Some? {
        var opts := options.value;
        var pending := opts.Keys;
        while pending != {}
          invariant pending <= opts.Keys
          invariant entries.Keys == old(entries).Keys + (opts.Keys - pending)
          invariant forall key :: key in entries ==>
                      entries[key] == if key in opts && key !in pending then opts[key] else old(entries)[key]
          decreases pending
        {
          var key :| key in pending;
          newOptions.entries := newOptions.entries[key := opts[key]];
          pending := pending - {key};
        }
        assert entries == old(entries) + opts;
      }
    }
  }

  // ---------------------------------------------------------------------
  // Limits and edge clamping
  // ---------------------------------------------------------------------

  /** The legal range of the element's top-left corner. */
  datatype Limit = Limit(l: real, r: real, t: real, b: real)

  /** The limits `init` computes: `gap` from the near edges, `gap` plus the element from the far ones. */
  function InitialLimit(winW: real, winH: real, width: real, height: real, gap: real): (lim: Limit)
    ensures lim.l == gap && lim.t == gap
    ensures lim.r + width + gap == winW && lim.b + height + gap == winH
  {
    Limit(gap, winW - width - gap, gap, winH - height - gap)
  }

  /** Nothing orders the limits: they are ordered exactly when the element and both gaps fit. */
  lemma InitialLimitOrdered(winW: real, winH: real, width: real, height: real, gap: real)
    ensures var lim := InitialLimit(winW, winH, width, height, gap);
            (lim.l <= lim.r <==> width + 2.0 * gap <= winW)
            && (lim.t <= lim.b <==> height + 2.0 * gap <= winH)
  {
  }

  /**
   * One axis of `detectEdge`: both tests look at the unclamped position `p`;
   * the near-edge test assigns `lo`, then the far-edge test assigns `hi`.
   */
  function ClampAxis(p: real, size: real, win: real, gap: real, lo: real, hi: real): (q: real)
    ensures q != p ==> (q == lo && p <= gap) || (q == hi && p + size >= win - gap)
    ensures p + size >= win - gap ==> q == hi
  {
    var afterNear := if p <= gap then lo else p;
    if p + size >= win - gap then hi else afterNear
  }

  /** When both tests fire on an axis the far edge wins. */
  lemma ClampFarEdgeWins(p: real, size: real, win: real, gap: real, lo: real, hi: real)
    requires p <= gap && p + size >= win - gap
    ensures ClampAxis(p, size, win, gap, lo, hi) == hi
  {
  }

  /** A position clear of both gaps is left as it is; one that touches only the near gap goes to `lo`. */
  lemma ClampInteriorAndNear(p: real, size: real, win: real, gap: real, lo: real, hi: real)
    ensures gap < p && p + size < win - gap ==> ClampAxis(p, size, win, gap, lo, hi) == p
    ensures p <= gap && p + size < win - gap ==> ClampAxis(p, size, win, gap, lo, hi) == lo
  {
  }

  /** With the limits of `init` and room for the element, the clamp lands inside the limits. */
  lemma ClampBounded(p: real, size: real, win: real, gap: real)
    requires gap <= win - size - gap
    ensures gap <= ClampAxis(p, size, win, gap, gap, win - size - gap) <= win - size - gap
  {
  }

  /** With the limits of `init` and room for the element, clamping twice is clamping once. */
  lemma ClampIdempotent(p: real, size: real, win: real, gap: real)
    requires gap <= win - size - gap
    ensures var q := ClampAxis(p, size, win, gap, gap, win - size - gap);
            ClampAxis(q, size, win, gap, gap, win - size - gap) == q
  {
  }

  /**
   * When the element does not fit (`l > r`), a second clamp moves every
   * position below `r` again: the clamp is idempotent exactly for `p >= r`.
   */
  lemma ClampNotIdempotentWhenCrossed(p: real, size: real, win: real, gap: real)
    requires gap > win - size - gap
    ensures var lo, hi := gap, win - size - gap;
            var q := ClampAxis(p, size, win, gap, lo, hi);
            (ClampAxis(q, size, win, gap, lo, hi) == q <==> p >= hi)
            && (p < hi ==> q == lo && ClampAxis(q, size, win, gap, lo, hi) == hi)
  {
  }

  // ---------------------------------------------------------------------
  // Areas and the snap target
  // ---------------------------------------------------------------------

  /**
   * `detectArea` on the element's corner `(x, y)` against the centre
   * `(cx, cy)`, with strict comparisons; on a tie the previous id stays.
   * Off the centre lines the id is the quadrant's number: +1 for the right
   * half, +2 for the bottom half.
   */
  function AreaOf(x: real, y: real, cx: real, cy: real, prev: int): (id: int)
    ensures 0 <= prev <= 3 ==> 0 <= id <= 3
    ensures x == cx || y == cy ==> id == prev
    ensures x != cx && y != cy ==> id == (if x < cx then 0 else 1) + (if y < cy then 0 else 2)
  {
    if x < cx && y < cy then 0
    else if x > cx && y < cy then 1
    else if x < cx && y > cy then 2
    else if x > cx && y > cy then 3
    else prev
  }

  /** The snap target `moveEnd` picks: the left limit for areas 0 and 2, the right one for 1 and 3. */
  function SnapTarget(areaId: int, limit: Limit, x: real): (target: real)
    ensures 0 <= areaId <= 3 ==> target == if areaId % 2 == 0 then limit.l else limit.r
    ensures !(0 <= areaId <= 3) ==> target == x
  {
    if areaId == 0 || areaId == 2 then limit.l
    else if areaId == 1 || areaId == 3 then limit.r
    else x
  }

  /** After a move off the vertical centre line, a release snaps to the side the corner is on. */
  lemma SnapFollowsSide(x: real, y: real, cx: real, cy: real, prev: int, limit: Limit)
    requires 0 <= prev <= 3
    requires x != cx
    ensures var target := SnapTarget(AreaOf(x, y, cx, cy, prev), limit, x);
            y != cy ==> (target == limit.l <==> x < cx || limit.l == limit.r)
  {
  }

  // ---------------------------------------------------------------------
  // The snap animation
  // ---------------------------------------------------------------------

  /** The fixed divisor `moveEnd` passes to the animation. */
  const SnapRate: real := 4.0

  /** One callback of the animation: the position and whether the animation ended. */
  datatype Tick = Tick(pos: real, done: bool)

  /** `rate || 2`. */
  function EffectiveRate(rate: real): (r: real)
    ensures rate != 0.0 ==> r == rate
    ensures rate == 0.0 ==> r == 2.0
  {
    if rate == 0.0 then 2.0 else rate
  }

  /** `x` to the power `k`. */
  function Power(x: real, k: nat): real
  {
    if k == 0 then 1.0 else Power(x, k - 1) * x
  }

  /**
   * The position after `k` steps of the animation from `a` towards `b`.  A
   * start on the target stays there, and a divisor of 1 reaches the target in
   * one step.
   */
  function Iterate(a: real, b: real, rate: real, k: nat): (p: real)
    requires rate != 0.0
    ensures a == b ==> p == b
    ensures rate == 1.0 && k > 0 ==> p == b
  {
    if k == 0 then a else Utils.Step(Iterate(a, b, rate, k - 1), b, rate)
  }

  /** One step leaves `1 - 1/rate` of the distance to go. */
  lemma StepShrinks(a: real, b: real, rate: real)
    requires rate != 0.0
    ensures b - Utils.Step(a, b, rate) == (b - a) * (1.0 - 1.0 / rate)
  {
    var next := Utils.Step(a, b, rate);
    assert (next - a) * rate == b - a;
    assert (b - a) / rate == next - a;
  }

  /**
   * The iterates in closed form: after `k` steps the distance left is the
   * first one times `(1 - 1/rate)` to the power `k`.
   */
  lemma {:induction false} IterateClosedForm(a: real, b: real, rate: real, k: nat)
    requires rate != 0.0
    ensures b - Iterate(a, b, rate, k) == (b - a) * Power(1.0 - 1.0 / rate, k)
  {
    if k > 0 {
      var q := 1.0 - 1.0 / rate;
      var prev := Iterate(a, b, rate, k - 1);
      IterateClosedForm(a, b, rate, k - 1);
      StepShrinks(prev, b, rate);
      assert (b - a) * Power(q, k - 1) * q == (b - a) * (Power(q, k - 1) * q);
    }
  }

  /** With a divisor of at least 1 every iterate stays between start and target. */
  lemma {:induction false} IterateBetween(a: real, b: real, rate: real, k: nat)
    requires rate >= 1.0
    ensures Utils.Between(Iterate(a, b, rate, k), a, b)
  {
    if k > 0 {
      IterateBetween(a, b, rate, k - 1);
      Utils.StepApproaches(Iterate(a, b, rate, k - 1), b, rate);
    }
  }

  /** The termination measure of the animation: the remaining distance scaled by the divisor, rounded down. */
  function Remaining(a: real, b: real, rate: real): int
  {
    (Abs(b - a) * rate).Floor
  }

  /**
   * For a divisor of at least 1, a step taken at least 1 away from the
   * target lowers the measure: scaled by the divisor, the distance drops by
   * the distance before the step.
   */
  lemma RemainingDrops(a: real, b: real, rate: real)
    requires rate >= 1.0
    requires Abs(b - a) >= 1.0
    ensures 0 <= Remaining(Utils.Step(a, b, rate), b, rate) < Remaining(a, b, rate)
  {
    var d := b - a;
    var q := d / rate;
    assert q * rate == d;
    assert b - Utils.Step(a, b, rate) == d - q;
    assert (d - q) * rate == d * rate - d;
    Utils.StepApproaches(a, b, rate);
    var after := Abs(b - Utils.Step(a, b, rate)) * rate;
    var before := Abs(b - a) * rate;
    assert after == before - Abs(b - a);
    Utils.NonNegativeProduct(Abs(b - Utils.Step(a, b, rate)), rate);
  }

  // ---------------------------------------------------------------------
  // The widget
  // ---------------------------------------------------------------------

  class Mydrag {
    /** The shared configuration table. */
    const config: ConfigTable
    /** Viewport size, read once at construction. */
    const winW: real
    const winH: real
    /** The element's size, from its bounding rectangle. */
    const width: real
    const height: real
    /** The safety gap, copied from the configuration at construction. */
    const gap: real

    /** The pointer anchor captured by the first press. */
    var oldX: real
    var oldY: real
    /** The element's current corner. */
    var x: real
    var y: real
    var limit: Limit
    /** 0 top-left, 1 top-right, 2 bottom-left, 3 bottom-right. */
    var areaId: int

    ghost predicate Valid()
      reads this, config
    {
      && NumericConfig(config.entries)
      && limit == InitialLimit(winW, winH, width, height, gap)
      && 0 <= areaId <= 3
    }

    /** `config.initX` and `config.initY`, read at every move. */
    function InitX(): real
      reads this, config
      requires NumericConfig(config.entries)
    {
      config.entries["initX"].n
    }

    function InitY(): real
      reads this, config
      requires NumericConfig(config.entries)
    {
      config.entries["initY"].n
    }

    /**
     * Merges `options` into the shared table, snapshots the gap, zeroes the
     * anchor, position and area, and computes the limits.
     */
    constructor (table: ConfigTable, options: Option<map<string, Value>>,
                 winW: real, winH: real, width: real, height: real)
      requires NumericConfig(table.entries)
      requires options.Some? ==> NumericOverrides(options.value)
      modifies table
      ensures options.None? ==> table.entries == old(table.entries)
      ensures options.Some? ==> table.entries == old(table.entries) + options.value
      ensures config == table
      ensures this.winW == winW && this.winH == winH && this.width == width && this.height == height
      ensures gap == table.entries["gap"].n
      ensures oldX == 0.0 && oldY == 0.0 && x == 0.0 && y == 0.0 && areaId == 0
      ensures limit == Limit(gap, winW - width - gap, gap, winH - height - gap)
      ensures Valid()
    {
      var merged := table.MergeConfig(options);
      config := merged;
      this.winW, this.winH := winW, winH;
      this.width, this.height := width, height;
      oldX, oldY := 0.0, 0.0;
      x, y := 0.0, 0.0;
      limit := Limit(0.0, 0.0, 0.0, 0.0);
      gap := merged.entries["gap"].n;
      areaId := 0;
      new;
      Init();
    }

    /** The limit computation of `init`. */
    method Init()
      modifies this`limit
      ensures limit == InitialLimit(winW, winH, width, height, gap)
      ensures limit.l == gap && limit.t == gap
    {
      limit := limit.(l := gap);
      limit := limit.(r := winW - width - gap);
      limit := limit.(t := gap);
      limit := limit.(b := winH - height - gap);
    }

    /** Dispatches on the event type; unknown types do nothing. */
    method HandleEvent(e: TouchEvent)
      requires Valid()
      modifies this`oldX, this`oldY, this`x, this`y, this`areaId
      ensures Valid()
      ensures EventTypeOf(e.eventType) == TouchStart ==>
        && oldX == (if old(oldX) != 0.0 then old(oldX) else Sample(e).clientX)
        && oldY == (if old(oldY) != 0.0 then old(oldY) else Sample(e).clientY)
        && x == old(x) && y == old(y) && areaId == old(areaId)
      ensures EventTypeOf(e.eventType) == TouchMove ==>
        && oldX == old(oldX) && oldY == old(oldY)
        && x == ClampAxis(InitX() + (Sample(e).clientX - oldX), width, winW, gap, limit.l, limit.r)
        && y == ClampAxis(InitY() + (Sample(e).clientY - oldY), height, winH, gap, limit.t, limit.b)
        && areaId == AreaOf(x, y, winW / 2.0, winH / 2.0, old(areaId))
      ensures EventTypeOf(e.eventType) == TouchEnd ==>
        && oldX == old(oldX) && oldY == old(oldY)
        && x == SnapTarget(areaId, limit, old(x)) && y == old(y) && areaId == old(areaId)
      ensures EventTypeOf(e.eventType) == Other ==>
        oldX == old(oldX) && oldY == old(oldY) && x == old(x) && y == old(y) && areaId == old(areaId)
    {
      match EventTypeOf(e.eventType)
      case TouchStart => MoveStart(e);
      case TouchMove => Moving(e);
      case TouchEnd => MoveEnd();
      case Other =>
    }

    /** Captures the anchor, but only while it is still 0: later presses keep the first one. */
    method MoveStart(event: TouchEvent)
      modifies this`oldX, this`oldY
      ensures oldX == (if old(oldX) != 0.0 then old(oldX) else Sample(event).clientX)
      ensures oldY == (if old(oldY) != 0.0 then old(oldY) else Sample(event).clientY)
    {
      var ev := Sample(event);
      oldX := if oldX != 0.0 then oldX else ev.clientX;
      oldY := if oldY != 0.0 then oldY else ev.clientY;
    }

    /**
     * Places the corner at the configured initial position plus the pointer's
     * offset from the anchor, clamps it and reclassifies its area.
     */
    method Moving(event: TouchEvent)
      requires Valid()
      modifies this`x, this`y, this`areaId
      ensures Valid()
      ensures x == ClampAxis(InitX() + (Sample(event).clientX - oldX), width, winW, gap, limit.l, limit.r)
      ensures y == ClampAxis(InitY() + (Sample(event).clientY - oldY), height, winH, gap, limit.t, limit.b)
      ensures areaId == AreaOf(x, y, winW / 2.0, winH / 2.0, old(areaId))
      ensures limit.l <= limit.r ==> limit.l <= x <= limit.r
      ensures limit.t <= limit.b ==> limit.t <= y <= limit.b
    {
      var ev := Sample(event);
      var deltaX := ev.clientX - oldX;
      var deltaY := ev.clientY - oldY;
      x := config.entries["initX"].n + deltaX;
      y := config.entries["initY"].n + deltaY;
      ghost var rawX, rawY := x, y;
      var _ := DetectEdge();
      DetectArea();
      if limit.l <= limit.r {
        ClampBounded(rawX, width, winW, gap);
      }
      if limit.t <= limit.b {
        ClampBounded(rawY, height, winH, gap);
      }
    }

    /** Snaps the corner horizontally to the limit of its side, animating with divisor 4. */
    method MoveEnd()
      requires Valid()
      modifies this`x
      ensures Valid()
      ensures x == SnapTarget(areaId, limit, old(x))
    {
      var targetX := x;
      if areaId == 0 || areaId == 2 {
        targetX := limit.l;
      } else if areaId == 1 || areaId == 3 {
        targetX := limit.r;
      }
      var calls := Easeout(x, targetX, SnapRate);
      for i := 0 to |calls|
        invariant i == 0 ==> x == old(x)
        invariant 0 < i ==> x == calls[i - 1].pos
      {
        x := calls[i].pos;
      }
    }

    /** Sets `areaId` from the corner's position relative to the viewport centre. */
    method DetectArea()
      modifies this`areaId
      ensures areaId == AreaOf(x, y, winW / 2.0, winH / 2.0, old(areaId))
    {
      var centerX := winW / 2.0;
      var centerY := winH / 2.0;
      if x < centerX && y < centerY {
        areaId := 0;
      } else if x > centerX && y < centerY {
        areaId := 1;
      } else if x < centerX && y > centerY {
        areaId := 2;
      } else if x > centerX && y > centerY {
        areaId := 3;
      }
    }

    /**
     * Clamps the corner into the limits, each axis on its own; reports
     * whether any of the four tests fired.
     */
    method DetectEdge() returns (isOverflow: bool)
      modifies this`x, this`y
      ensures x == ClampAxis(old(x), width, winW, gap, limit.l, limit.r)
      ensures y == ClampAxis(old(y), height, winH, gap, limit.t, limit.b)
      ensures isOverflow <==> old(x) <= gap || old(x) + width >= winW - gap
                              || old(y) <= gap || old(y) + height >= winH - gap
    {
      isOverflow := false;
      var elemL := x;
      var elemR := elemL + width;
      var elemT := y;
      var elemB := elemT + height;
      if elemL <= gap {
        isOverflow := true;
        x := limit.l;
      }
      if elemR >= winW - gap {
        isOverflow := true;
        x := limit.r;
      }
      if elemT <= gap {
        isOverflow := true;
        y := limit.t;
      }
      if elemB >= winH - gap {
        isOverflow := true;
        y := limit.b;
      }
    }

    /**
     * The animation driver: steps from `oldPos` towards `newPos` with divisor
     * `rate || 2`, one callback per tick, until the step lands within 1 of
     * the target; the last callback reports the target itself.
     */
    method Easeout(oldPos: real, newPos: real, rate: real) returns (calls: seq<Tick>)
      requires rate == 0.0 || rate >= 1.0
      ensures calls == [] <==> oldPos == newPos
      ensures calls != [] ==> calls[|calls| - 1] == Tick(newPos, true)
      ensures calls != [] ==> Abs(newPos - Iterate(oldPos, newPos, EffectiveRate(rate), |calls|)) < 1.0
      ensures forall i :: 0 <= i < |calls| - 1 ==>
                calls[i] == Tick(Iterate(oldPos, newPos, EffectiveRate(rate), i + 1), false)
                && Abs(newPos - calls[i].pos) >= 1.0
      ensures forall i :: 0 <= i < |calls| ==> Utils.Between(calls[i].pos, oldPos, newPos)
      ensures forall i :: 0 < i < |calls| ==> Abs(newPos - calls[i].pos) < Abs(newPos - calls[i - 1].pos)
    {
      calls := [];
      if oldPos == newPos {
        return;
      }
      var a := oldPos;
      var b := newPos;
      var r := EffectiveRate(rate);
      a := Utils.Step(a, b, r);
      while Abs(b - a) >= 1.0
        invariant a == Iterate(oldPos, newPos, r, |calls| + 1)
        invariant forall i :: 0 <= i < |calls| ==>
                    calls[i] == Tick(Iterate(oldPos, newPos, r, i + 1), false)
                    && Abs(newPos - calls[i].pos) >= 1.0
        decreases Remaining(a, b, r)
      {
        RemainingDrops(a, b, r);
        calls := calls + [Tick(a, false)];
        a := Utils.Step(a, b, r);
      }
      calls := calls + [Tick(b, true)];
      forall i | 0 <= i < |calls|
        ensures Utils.Between(calls[i].pos, oldPos, newPos)
        ensures 0 < i ==> Abs(newPos - calls[i].pos) < Abs(newPos - calls[i - 1].pos)
      {
        if i < |calls| - 1 {
          IterateBetween(oldPos, newPos, r, i + 1);
          Utils.StepApproaches(Iterate(oldPos, newPos, r, i), newPos, r);
        }
      }
    }
  }

  /**
   * `Mydrag.config` is one table for all widgets: the options of a second
   * widget are seen by the first one.
   */
  method SharedConfigAcrossInstances() returns (firstInitX: Value, firstGap: real)
    ensures firstInitX == Num(100.0)
    ensures firstGap == 10.0
  {
    var table := new ConfigTable();
    var first := new Mydrag(table, None, 400.0, 800.0, 50.0, 50.0);
    var second := new Mydrag(table, Some(map["initX" := Num(100.0), "gap" := Num(20.0)]), 400.0, 800.0, 50.0, 50.0);
    firstInitX := first.config.entries["initX"];
    firstGap := first.gap;
  }
}
