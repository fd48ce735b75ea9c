# mydrag, modelled in Dafny

A model of the `mydrag` touch-drag widget: a screen element follows a
finger, its top-left corner is clamped into the viewport minus a safety gap,
the quadrant of the viewport the corner lies in is tracked, and on release the
element eases horizontally until it rests against the left or right limit.

Three modules, one per concern:

- `Js` (`js.dfy`): the slice of JavaScript values the code inspects
  (`Num | Str | Bool | Undef`), truthiness, `Math.abs`, and an `Option` for
  "a value or `undefined`". Numbers are exact reals.
- `Utils` (`utils.dfy`, from `src/utils.js`): `isNumber`; the one-step
  `easeout` with its lenient coercion (`(isNumber(v) && v) || default`) and its
  threshold snap; `mergeConfig`, as a method with the source's key-by-key loop
  proved equal to the value `Merged`, plus lemmas about `Merged`. Dictionaries
  are `map<string, Value>`; reading a missing key yields `Undef`.
- `Drag` (`mydrag.dfy`, from `src/mydrag.js`): the widget as class `Mydrag`
  whose fields are those of the source object (anchor `oldX/oldY`, corner
  `x/y`, `limit`, `gap`, `areaId`, `winW/winH`, the element's `width/height`,
  `config`). Its methods change those fields as the source does, and each
  `ensures` gives the new state in terms of the pure functions `ClampAxis`,
  `AreaOf`, `SnapTarget`, `InitialLimit` and `Iterate`. The lemmas about those
  functions carry the clamping, area and animation properties. The static
  table `Mydrag.config` is a `ConfigTable` object passed to the constructor.
  Every widget built on the same table shares it, and `MergeConfig` writes
  into it in place, as `Mydrag.prototype.mergeConfig` does.

Behaviour followed from the code:

- `detectArea` classifies the corner `(x, y)`, not the centre, with strict
  comparisons. On a tie `areaId` is left as it was.
- `moving` adds the pointer's offset from the anchor to `config.initX/initY`,
  not to the previous position. `moveStart` replaces the anchor only while it
  is 0, so the first non-zero press is kept for good.
- `detectEdge` runs both tests of an axis on the unclamped position. The far
  edge is assigned second and wins. Nothing makes `l <= r` hold: when the
  element and both gaps do not fit, the clamp is not idempotent
  (`ClampNotIdempotentWhenCrossed`).
- `moveEnd` always snaps, with divisor 4. `config.adsorb` is declared
  (`src/mydrag.js:43`) and never read, and neither is a `rate` option.
- The animation in `src/mydrag.js` uses `rate || 2` and ends within 1 of the
  target. The helper in `src/utils.js` uses `rate || 5` and an end threshold of
  0.2 by default. Both take the step `a + (b - a) / r`, defined once as
  `Utils.Step`.
- Mydrag's `mergeConfig` copies every own key of the options into the
  shared defaults: unknown keys, and keys whose value is `undefined`, are copied
  too. A second widget's options are therefore seen by the first widget
  (`SharedConfigAcrossInstances`). The `utils.js` merge builds a fresh
  dictionary instead. It keeps only the defaults' keys and skips `undefined`
  overrides. Since both of its arguments are values in the model, neither can change.

## Model

| member | source | states |
|---|---|---|
| `Utils.IsNumber` | src/utils.js:9-11 | true exactly for numbers |
| `Utils.IsNumberExamples` | test/specs/utils/isXxx.spec.js:6-7 | `isNumber(123)` holds, `isNumber('123')` does not |
| `Utils.OrDefault` | src/utils.js:47-51 | a non-zero number is kept; a string, boolean, `undefined` or 0 becomes the default |
| `Utils.Step` | src/utils.js:54 | the step covers `1/rate` of the way: `(next - a) * rate == b - a` |
| `Utils.EaseStep` | src/utils.js:54-60 | the result is the target or at least the threshold away from it; when it is not the target it is the step, `(p - a) * rate == b - a` |
| `Utils.Easeout` | src/utils.js:42-61 | `undefined` exactly when the positions are strictly equal (before coercion). Otherwise the result is the coerced target or at least the threshold away from it, and when it is not the target it is the partial step `a + (b - a)/r` on the coerced values |
| `Utils.StepApproaches` | src/utils.js:54 | for a divisor of at least 1 a step lands between start and target, and strictly closer to the target when they differ |
| `Utils.EaseoutApproaches` | src/utils.js:47-60 | with effective rate at least 1 the result lies between the coerced positions and is never farther from the target (strictly closer when they differ) |
| `Utils.StepRemainder` | src/utils.js:54-56 | a step lands on the target exactly when it starts there or the divisor is 1, and within `t` of it exactly when `Abs(b - a) * Abs(r - 1) < t * Abs(r)` |
| `Utils.EaseStepSnapRule` | src/utils.js:54-60 | the step on coerced numbers returns the target exactly when start equals target, the divisor is 1, or `Abs(b - a) * Abs(r - 1) < t * Abs(r)` |
| `Utils.EaseoutSnapRule` | src/utils.js:42-60 | for positions that differ, `easeout` returns the coerced target exactly under that closed-form condition on the coerced start, target, divisor and threshold |
| `Utils.EaseoutExamples` | test/specs/utils/easeout.spec.js:5-34 | the seven checks of the test suite, coercions included |
| `Utils.Get` | src/utils.js:24 | a present key reads the value stored under it; a missing key reads as `undefined` |
| `Utils.Pick` | src/utils.js:24-28 | a defined override wins; with no overrides, or an `undefined` one, the value is the default |
| `Utils.Merged` | src/utils.js:20-32 | the merged key set is exactly that of the defaults |
| `Utils.MergeConfig` | src/utils.js:20-32 | the loop builds a dictionary with the defaults' keys. Each key gets the override when present and not `undefined`, else the default. The result equals `Merged` |
| `Utils.MergedWithoutOverrides` | src/utils.js:24-28 | with no overrides the result equals the defaults |
| `Utils.MergedIdempotent` | src/utils.js:20-32 | merging the same overrides again changes nothing |
| `Utils.MergedFullOverride` | src/utils.js:23-28 | overrides defining every default key replace them all; extra keys are dropped |
| `Utils.MergedExamples` | test/specs/utils/mergeConfig.spec.js:5-21 | keys only in the overrides do not appear; the partial-override example |
| `Drag.Sample` | src/mydrag.js:116 | the first touch when there is one, else the event's own coordinates |
| `Drag.EventTypeOf` | src/mydrag.js:94-109 | each of `touchstart`, `touchmove`, `touchend` picks its own handler, exactly for that name; every other name picks none |
| `Drag.Defaults` | src/mydrag.js:42-47 | the table has exactly the keys `adsorb`, `initX`, `initY`, `gap`, holds numbers under the last three, and `gap` is 10 |
| `Drag.ConfigTable.constructor` | src/mydrag.js:42-47 | the shared table starts as the defaults |
| `Drag.ConfigTable.MergeConfig` | src/mydrag.js:278-291 | returns the table itself. Every own key of the options overwrites the table, unknown keys and `undefined` included. Other keys are unchanged |
| `Drag.InitialLimit` | src/mydrag.js:61-64 | `l = t = gap`; `r` and `b` leave the element's size and the gap before the viewport's far edges |
| `Drag.InitialLimitOrdered` | src/mydrag.js:61-64 | the limits are ordered exactly when the element plus two gaps fits the viewport; nothing else orders them |
| `Drag.ClampAxis` | src/mydrag.js:189-208 | a position is only moved to the near limit when it is within the near gap, or to the far limit when its far edge is within the far gap; the far test, when it fires, always decides |
| `Drag.ClampFarEdgeWins` | src/mydrag.js:194-201 | when both tests of an axis fire, the far limit is the result |
| `Drag.ClampInteriorAndNear` | src/mydrag.js:194-208 | a position clear of both gaps is unchanged; one past only the near gap goes to the near limit |
| `Drag.ClampBounded` | src/mydrag.js:186-209 | with the limits of `init` and `l <= r`, the clamp lands in `[l, r]` |
| `Drag.ClampIdempotent` | src/mydrag.js:186-209 | with the limits of `init` and `l <= r`, clamping twice equals clamping once |
| `Drag.ClampNotIdempotentWhenCrossed` | src/mydrag.js:186-209 | when `l > r`, clamping twice equals clamping once exactly for positions at or beyond `r`; below `r`, the first clamp gives `l` and the second `r` |
| `Drag.AreaOf` | src/mydrag.js:169-181 | keeps the id in 0..3. On either centre line the id is unchanged. Off them it is the quadrant number: +1 right, +2 bottom |
| `Drag.SnapTarget` | src/mydrag.js:154-159 | areas 0 and 2 give the left limit, 1 and 3 the right one, any other id keeps `x` |
| `Drag.SnapFollowsSide` | src/mydrag.js:154-159 | after a move off both centre lines, the snap target is the left limit exactly when the corner is left of centre (or the limits coincide) |
| `Drag.EffectiveRate` | src/mydrag.js:241 | a zero rate becomes 2, any other rate is kept |
| `Drag.Iterate` | src/mydrag.js:243-244 | the position after `k` ticks: a start on the target stays there, and a divisor of 1 reaches the target in one tick |
| `Drag.StepShrinks` | src/mydrag.js:244 | one step leaves `1 - 1/rate` of the distance to go |
| `Drag.IterateClosedForm` | src/mydrag.js:243-253 | after `k` steps of `Iterate` the distance to the target is the first distance times `(1 - 1/rate)^k` |
| `Drag.IterateBetween` | src/mydrag.js:244 | with divisor at least 1 every iterate of the step stays between start and target |
| `Drag.RemainingDrops` | src/mydrag.js:243-253 | a step taken at least 1 from the target lowers the animation's integer measure, so the animation ends |
| `Drag.Mydrag.constructor` | src/mydrag.js:4-37 | merges the options into the shared table, keeps a reference to it, snapshots `gap`, zeroes the anchor, corner and area, and computes the limits |
| `Drag.Mydrag.Init` | src/mydrag.js:57-64 | limits become `l = t = gap`, `r = winW - width - gap`, `b = winH - height - gap` |
| `Drag.Mydrag.HandleEvent` | src/mydrag.js:94-110 | an event named `touchstart`, `touchmove` or `touchend` runs the matching handler with its effect; an event of any other name changes nothing |
| `Drag.Mydrag.MoveStart` | src/mydrag.js:115-121 | the anchor is replaced only while it is 0 |
| `Drag.Mydrag.Moving` | src/mydrag.js:126-145 | the corner is `initX/initY` plus the pointer's offset from the anchor, clamped, and inside the limits when they are ordered. The area is recomputed from the clamped corner |
| `Drag.Mydrag.MoveEnd` | src/mydrag.js:149-165 | the corner ends exactly on the snap target: the left limit for areas 0 and 2, the right one for 1 and 3. Only `x` changes |
| `Drag.Mydrag.DetectArea` | src/mydrag.js:169-182 | `areaId` becomes `AreaOf` of the corner against the viewport centre; nothing else changes |
| `Drag.Mydrag.DetectEdge` | src/mydrag.js:186-215 | each axis is clamped from the pre-clamp position, so the far edge wins. The result reports whether any test fired |
| `Drag.Mydrag.Easeout` | src/mydrag.js:236-255 | no callback when the positions are equal. Otherwise the last callback is `(newPos, true)` and every earlier one is `(a, false)` with `a` the next iterate at least 1 from the target. All lie between start and target with strictly falling distance |
| `Drag.SharedConfigAcrossInstances` | src/mydrag.js:278-291 | options given to a second widget change the `initX` the first widget reads; its `gap` snapshot is kept |

## Left out

- DOM plumbing: the element lookup (`document.querySelector`) and `getBoundingClientRect`, whose width and height are constructor parameters here. Also painting in `setPos` (three-decimal rounding, the `translate3d` string), listener registration in `startListening`/`stopListener`, `detectPassive` in both files, and `getWinSize`. These are foreign calls with no logic to state. The viewport size is a constructor parameter.
- No listener state is modelled: `stopListener` removes `this.moveStart`, `this.moving`, `this.moveEnd`, while `startListening` registered the object itself, so in the source it removes nothing and later events are still handled.
- `requestAnimationFrame`/`cancelAnimationFrame`: the animation runs to completion inside `MoveEnd`, and events that arrive between frames are not interleaved.
- Drag.Mydrag.Easeout: requires `rate` to be 0 or at least 1 (the only caller passes 4). With a rate between 0 and 1, or below 0, the step overshoots, and for some of those rates the source's animation never ends.
- Drag.Mydrag.constructor: requires the shared table and the options to hold numbers under `initX`, `initY` and `gap`. JavaScript's string concatenation and `NaN` from other values are not modelled. `Moving` and `MoveEnd` rely on the same fact through `Valid()`.
- IEEE-754 effects (NaN, infinities, rounding, `-0`): numbers are exact reals. For a real, `x || 0` is `x`, so the `|| 0` of the animation's positions disappears.
- Utils.MergeConfig: `for...in` also visits inherited enumerable keys, and `newOpts` could be a truthy non-object. The model's dictionaries have only own keys, and the overrides are a dictionary or absent.
- `window['Mydrag']` registration, `rollup.config.js`, `demo/index.js`: packaging and usage only. `test/mydrag.test.js` holds smoke tests without assertions.
- Resize handling, position persistence, cancelling an animation on a new press, and an `adsorb` on/off branch do not exist in `src/mydrag.js` and are not modelled.
