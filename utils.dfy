/**
 * The pure helpers of the widget: the `isNumber` type test, the one-step
 * ease-out function with its lenient argument coercion, and the merge of a
 * defaults dictionary with an optional dictionary of overrides.
 *
 * A JavaScript object used as a dictionary is a `map<string, Value>`; reading
 * a missing key gives `Undef`, as in JavaScript.
 */
module Utils {
  import opened Js

  // ---------------------------------------------------------------------
  // isNumber
  // ---------------------------------------------------------------------

  /** `typeof val === 'number'`. */
  function IsNumber(val: Value): (r: bool)
    ensures r <==> val.Num?
  {
    match val
    case Num(_) => true
    case _ => false
  }

  /** The two checks of the isNumber test suite. */
  lemma IsNumberExamples()
    ensures IsNumber(Num(123.0))
    ensures !IsNumber(Str("123"))
  {
  }

  // ---------------------------------------------------------------------
  // easeout
  // ---------------------------------------------------------------------

  /** Default divisor used when `rate` is missing, not a number or zero. */
  const DefaultRate: real := 5.0

  /** Default end-of-motion threshold. */
  const DefaultThreshold: real := 0.2

  /**
   * `(isNumber(v) && v) || fallback`: a non-zero number stands for itself,
   * anything else (another type, `0`, `undefined`) becomes `fallback`.
   */
  function OrDefault(v: Value, fallback: real): (r: real)
    ensures v.Num? && v.n != 0.0 ==> r == v.n
    ensures v.Str? || v.Bool? || v.Undef? || v == Num(0.0) ==> r == fallback
  {
    if IsNumber(v) && Truthy(v) then v.n else fallback
  }

  /** The core of the algorithm: move `1/rate` of the remaining way from `a` to `b`. */
  function Step(a: real, b: real, rate: real): (next: real)
    requires rate != 0.0
    ensures (next - a) * rate == b - a
  {
    a + (b - a) / rate
  }

  /** `x` lies on the closed segment between `a` and `b`. */
  predicate Between(x: real, a: real, b: real)
  {
    (a <= x <= b) || (b <= x <= a)
  }

  /**
   * The step on coerced numbers: `next`, or the target itself when `next`
   * lands within `threshold` of it.
   */
  function EaseStep(a: real, b: real, rate: real, threshold: real): (p: real)
    requires rate != 0.0
    ensures p == b || Abs(b - p) >= threshold
    ensures p != b ==> (p - a) * rate == b - a
  {
    var next := Step(a, b, rate);
    if Abs(b - next) < threshold then b else next
  }

  /**
   * One ease-out step.  `None` is JavaScript's `undefined`, returned when the
   * two positions are strictly equal, before any coercion.  Otherwise the
   * arguments are coerced and the step either lands within the threshold of
   * the target, and then the target itself is returned, or it returns the step.
   */
  function Easeout(oldPos: Value, newPos: Value, rate: Value, threshold: Value): (r: Option<real>)
    ensures r.None? <==> oldPos == newPos
    ensures r.Some? ==>
      var b := OrDefault(newPos, 0.0);
      r.value == b || Abs(b - r.value) >= OrDefault(threshold, DefaultThreshold)
    ensures r.Some? && r.value != OrDefault(newPos, 0.0) ==>
      var a, b := OrDefault(oldPos, 0.0), OrDefault(newPos, 0.0);
      (r.value - a) * OrDefault(rate, DefaultRate) == b - a
  {
    if oldPos == newPos then None
    else
      var a := OrDefault(oldPos, 0.0);
      var b := OrDefault(newPos, 0.0);
      var r := OrDefault(rate, DefaultRate);
      var moveEndThreshold := OrDefault(threshold, DefaultThreshold);
      Some(EaseStep(a, b, r, moveEndThreshold))
  }

  /** Sign of a product, stated once so the nonlinear step is explicit. */
  lemma NonNegativeProduct(x: real, y: real)
    requires x >= 0.0 && y >= 0.0
    ensures x * y >= 0.0
  {
  }

  /**
   * For a divisor of at least 1 a step never overshoots: it lands between
   * `a` and `b`, and strictly closer to `b` unless it starts there.
   */
  lemma StepApproaches(a: real, b: real, rate: real)
    requires rate >= 1.0
    ensures Between(Step(a, b, rate), a, b)
    ensures Abs(b - Step(a, b, rate)) <= Abs(b - a)
    ensures a != b ==> Abs(b - Step(a, b, rate)) < Abs(b - a)
  {
    var d := b - a;
    var q := d / rate;
    assert q * rate == d;
    if d >= 0.0 {
      assert q >= 0.0;
      assert d - q == q * (rate - 1.0);
      NonNegativeProduct(q, rate - 1.0);
    } else {
      assert q < 0.0;
      assert q - d == -q * (rate - 1.0);
      NonNegativeProduct(-q, rate - 1.0);
    }
    if a != b && rate > 1.0 {
      assert b - Step(a, b, rate) == d - q;
    }
  }

  /**
   * With an effective rate of at least 1 the result of `Easeout` lies between
   * the coerced start and target, and is strictly closer to the target than
   * the start was (when they differ).
   */
  lemma EaseoutApproaches(oldPos: Value, newPos: Value, rate: Value, threshold: Value)
    requires oldPos != newPos
    requires OrDefault(rate, DefaultRate) >= 1.0
    ensures var a, b := OrDefault(oldPos, 0.0), OrDefault(newPos, 0.0);
            var r := Easeout(oldPos, newPos, rate, threshold);
            r.Some? && Between(r.value, a, b) && Abs(b - r.value) <= Abs(b - a)
            && (a != b ==> Abs(b - r.value) < Abs(b - a))
  {
    StepApproaches(OrDefault(oldPos, 0.0), OrDefault(newPos, 0.0), OrDefault(rate, DefaultRate));
  }

  /** `|x * y| == |x| * |y|`. */
  lemma AbsProduct(x: real, y: real)
    ensures Abs(x * y) == Abs(x) * Abs(y)
  {
    if x < 0.0 && y >= 0.0 { assert -(x * y) == (-x) * y; }
    if x >= 0.0 && y < 0.0 { assert -(x * y) == x * (-y); }
    if x < 0.0 && y < 0.0 { assert x * y == (-x) * (-y); }
  }

  /** Multiplying both sides by a positive number keeps a strict comparison. */
  lemma ScaleStrict(x: real, t: real, c: real)
    requires c > 0.0
    ensures x < t <==> x * c < t * c
  {
    assert t * c - x * c == (t - x) * c;
    if x < t { NonNegativeProduct(t - x, c); assert (t - x) * c != 0.0; }
    if x >= t { NonNegativeProduct(x - t, c); assert x * c - t * c == (x - t) * c; }
  }

  /**
   * What a step leaves to go, in closed form: `|b - next| * |r|` is
   * `|b - a| * |r - 1|`, so the step lands on `b` exactly when `a == b` or
   * `r == 1`, and within `t` of it exactly when `|b - a| * |r - 1| < t * |r|`.
   */
  lemma StepRemainder(a: real, b: real, r: real, t: real)
    requires r != 0.0
    ensures (Step(a, b, r) == b) <==> (a == b || r == 1.0)
    ensures (Abs(b - Step(a, b, r)) < t) <==> (Abs(b - a) * Abs(r - 1.0) < t * Abs(r))
  {
    var next := Step(a, b, r);
    var left := b - next;
    assert left * r == (b - a) * (r - 1.0) by {
      assert (next - a) * r == b - a;
      assert left * r == (b - a) * r - (next - a) * r;
    }
    AbsProduct(left, r);
    AbsProduct(b - a, r - 1.0);
    ScaleStrict(Abs(left), t, Abs(r));
    ZeroProduct(left, r);
    ZeroProduct(b - a, r - 1.0);
  }

  /** A product is zero exactly when a factor is. */
  lemma ZeroProduct(x: real, y: real)
    ensures x * y == 0.0 <==> x == 0.0 || y == 0.0
  {
    if x != 0.0 && y != 0.0 {
      AbsProduct(x, y);
      assert Abs(x) * Abs(y) > 0.0;
    }
  }

  /**
   * The snap condition in closed form: a step from `a` with divisor `r`
   * lands on `b` or within `t` of it exactly when `a` already is `b`, the
   * divisor is 1, or `|b - a| * |r - 1| < t * |r|`.
   */
  predicate SnapsOnTarget(a: real, b: real, r: real, t: real)
  {
    a == b || r == 1.0 || Abs(b - a) * Abs(r - 1.0) < t * Abs(r)
  }

  /** The step on coerced numbers returns the target exactly under the closed-form condition. */
  lemma EaseStepSnapRule(a: real, b: real, r: real, t: real)
    requires r != 0.0
    ensures EaseStep(a, b, r, t) == b <==> SnapsOnTarget(a, b, r, t)
  {
    StepRemainder(a, b, r, t);
  }

  /** The snap rule for a result wrapped as `easeout` returns it. */
  lemma SomeSnapRule(a: real, b: real, r: real, t: real, result: Option<real>)
    requires r != 0.0
    requires result == Some(EaseStep(a, b, r, t))
    ensures result == Some(b) <==> SnapsOnTarget(a, b, r, t)
  {
    EaseStepSnapRule(a, b, r, t);
  }

  /** Away from the `undefined` case, `easeout` is the step on the coerced arguments. */
  lemma EaseoutCoerced(oldPos: Value, newPos: Value, rate: Value, threshold: Value)
    requires oldPos != newPos
    ensures var a, b := OrDefault(oldPos, 0.0), OrDefault(newPos, 0.0);
            var r, t := OrDefault(rate, DefaultRate), OrDefault(threshold, DefaultThreshold);
            r != 0.0 && Easeout(oldPos, newPos, rate, threshold) == Some(EaseStep(a, b, r, t))
  {
  }

  /**
   * The same rule on the arguments as given: with the coerced start, target,
   * divisor and threshold, `easeout` returns the target exactly when they
   * meet the closed-form condition.
   */
  lemma EaseoutSnapRule(oldPos: Value, newPos: Value, rate: Value, threshold: Value)
    requires oldPos != newPos
    ensures (Easeout(oldPos, newPos, rate, threshold) == Some(OrDefault(newPos, 0.0)))
              <==> SnapsOnTarget(OrDefault(oldPos, 0.0), OrDefault(newPos, 0.0),
                                 OrDefault(rate, DefaultRate), OrDefault(threshold, DefaultThreshold))
  {
    EaseoutCoerced(oldPos, newPos, rate, threshold);
    SomeSnapRule(OrDefault(oldPos, 0.0), OrDefault(newPos, 0.0), OrDefault(rate, DefaultRate),
                 OrDefault(threshold, DefaultThreshold), Easeout(oldPos, newPos, rate, threshold));
  }

  /** The checks of the easeout test suite. */
  lemma EaseoutExamples()
    ensures Easeout(Num(0.0), Num(0.0), Num(0.0), Undef) == None
    ensures Easeout(Num(0.0), Num(10.0), Str("123"), Undef) == Some(2.0)
    ensures Easeout(Str("123"), Num(10.0), Num(5.0), Undef) == Some(2.0)
    ensures Easeout(Num(10.0), Str("123"), Num(5.0), Undef) == Some(8.0)
    ensures Easeout(Num(0.0), Num(1.0), Num(5.0), Num(1.0)) == Some(1.0)
    ensures Easeout(Num(0.0), Num(5.0), Num(5.0), Num(1.0)) == Some(1.0)
    ensures Easeout(Num(5.0), Num(0.0), Num(5.0), Num(1.0)) == Some(4.0)
  {
  }

  // ---------------------------------------------------------------------
  // mergeConfig
  // ---------------------------------------------------------------------

  /** `obj[key]` on a dictionary: a missing key reads as `undefined`. */
  function Get(obj: map<string, Value>, key: string): (v: Value)
    ensures key !in obj ==> v == Undef
    ensures key in obj ==> v == obj[key]
    ensures v != Undef ==> key in obj && obj[key] == v
  {
    if key in obj then obj[key] else Undef
  }

  /** The value the merge gives `key`: the override when it is defined, the default otherwise. */
  function Pick(oldOpts: map<string, Value>, newOpts: Option<map<string, Value>>, key: string): (v: Value)
    requires key in oldOpts
    ensures v == oldOpts[key] || (newOpts.Some? && key in newOpts.value && newOpts.value[key] == v && v != Undef)
    ensures newOpts.None? || Get(newOpts.value, key) == Undef ==> v == oldOpts[key]
    ensures newOpts.Some? && Get(newOpts.value, key) != Undef ==> v == newOpts.value[key]
  {
    if newOpts.Some? && Get(newOpts.value, key) != Undef then Get(newOpts.value, key) else oldOpts[key]
  }

  /** The merged dictionary, as a value: its keys are those of the defaults and no others. */
  function Merged(oldOpts: map<string, Value>, newOpts: Option<map<string, Value>>): (r: map<string, Value>)
    ensures r.Keys == oldOpts.Keys
  {
    map key | key in oldOpts :: Pick(oldOpts, newOpts, key)
  }

  /**
   * Builds a fresh dictionary key by key over the defaults.  Both arguments
   * are values here, so neither can be changed by the call.
   */
  method MergeConfig(oldOpts: map<string, Value>, newOpts: Option<map<string, Value>>)
    returns (params: map<string, Value>)
    ensures params.Keys == oldOpts.Keys
    ensures forall key :: key in oldOpts ==>
      params[key] == if newOpts.Some? && Get(newOpts.value, key) != Undef then newOpts.value[key] else oldOpts[key]
    ensures params == Merged(oldOpts, newOpts)
  {
    params := map[];
    var pending := oldOpts.Keys;
    while pending != {}
      invariant pending <= oldOpts.Keys
      invariant params.Keys == oldOpts.Keys - pending
      invariant forall key :: key in params ==> params[key] == Pick(oldOpts, newOpts, key)
      decreases pending
    {
      var key :| key in pending;
      if newOpts.Some? && Get(newOpts.value, key) != Undef {
        params := params[key := Get(newOpts.value, key)];
      } else {
        params := params[key := oldOpts[key]];
      }
      pending := pending - {key};
    }
  }

  /** Without overrides the merge is a copy of the defaults. */
  lemma MergedWithoutOverrides(oldOpts: map<string, Value>)
    ensures Merged(oldOpts, None) == oldOpts
  {
  }

  /** Merging the same overrides a second time changes nothing. */
  lemma MergedIdempotent(oldOpts: map<string, Value>, newOpts: Option<map<string, Value>>)
    ensures Merged(Merged(oldOpts, newOpts), newOpts) == Merged(oldOpts, newOpts)
  {
  }

  /**
   * Overrides that define every default key replace all of them; keys only
   * the overrides have are dropped.
   */
  lemma MergedFullOverride(oldOpts: map<string, Value>, newOpts: map<string, Value>)
    requires forall key :: key in oldOpts ==> Get(newOpts, key) != Undef
    ensures Merged(oldOpts, Some(newOpts)) == map key | key in oldOpts :: Get(newOpts, key)
  {
  }

  /**
   * The checks of the mergeConfig test suite.  Its first test checks that
   * neither argument is mutated; arguments that are values cannot be, so the
   * first clause states instead that a key only the overrides have is dropped.
   */
  lemma MergedExamples()
    ensures var a, b := map["foo" := Num(123.0)], map["bar" := Num(222.0)];
            "bar" !in Merged(a, Some(b))
    ensures Merged(map["foo" := Num(111.0), "bar" := Num(222.0), "baz" := Num(333.0)],
                   Some(map["foo" := Num(123.0), "baz" := Num(456.0)]))
            == map["foo" := Num(123.0), "bar" := Num(222.0), "baz" := Num(456.0)]
  {
  }
}
