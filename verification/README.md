# Spin-the-wheel reward widget, modelled in Dafny

The repository holds two browser variants of a "spin the wheel" widget.
Both draw a prize by weighted random choice, spin a wheel, and add the prize
to a point total, spending one spin credit per spin. This project models the
logic behind the DOM, canvas and audio code of both files and proves its
properties.

- `app.js` is the first variant. It has a weight table over six prizes and a
  six-sector wheel, some of whose sectors repeat a prize. `pickPrizeByWeight`
  walks running sums with an `r <= acc` test and falls back to the last
  entry. `sectorIndexForPrize` breaks ties between sectors that carry the
  same prize. The spin computes a point inside the chosen sector and a
  rotation that brings that point under the top pointer after 5 to 7 extra
  turns, then folds the rotation back with `% 360`. Its ledger has `spins`,
  `points` and an `isSpinning` guard, plus an ad button and a reset button.
  The guard is checked when a spin starts; the credit is spent when the spin
  completes.
- `script.js` is the second variant. `getReward` walks a ten-sector table,
  subtracting weights under a strict `rand < weight` test. The spin handler
  spends the credit at once and has no in-flight guard. Completion credits
  `Number(reward)`. At startup each counter is restored with
  `Number(stored) || default`. The canvas angle is drawn on its own.

Random numbers are parameters. A `Math.random()` draw is a `real` in
`[0, 1)`, and the weighted draws take `r = u * total`. Angles and draws are
mathematical reals, not IEEE doubles. Completion of a spin is an explicit
step (`Complete`), not a timer.

Modules:

| file | module | models |
|---|---|---|
| `wrappers.dfy` | `Wrappers` | `Option`, for `undefined`, `null` and "no such sector" |
| `weights.dfy` | `Weights` | the (value, weight) rows both tables share, and running sums of their weights |
| `angles.dfy` | `Angles` | whole turns, JavaScript `%`, the sector under the pointer |
| `prize_draw.dfy` | `PrizeDraw` | `pickPrizeByWeight` (app.js) |
| `sector_choice.dfy` | `SectorChoice` | `sectorIndexForPrize` and the angle arithmetic of `spin` (app.js) |
| `app_ledger.dfy` | `AppLedger` | the tables and the spin/complete/ad/reset steps (app.js) |
| `reward_draw.dfy` | `RewardDraw` | `getReward` (script.js) |
| `restore.dfy` | `Restore` | `Number(x) || default` and the decimal text a counter is stored as (script.js) |
| `script_session.dfy` | `ScriptSession` | the table, startup, the spin handler and its completion (script.js) |

Facts about the two programs that shape the model:

- `app.js` checks `spins <= 0` when a spin starts (line 63), but it spends
  the credit at completion (line 97). `script.js` spends the credit at the
  press (line 87).
- Neither file validates its constant table. So the draws here are total
  functions, their properties are proved under `AllPositive`, and both
  tables are shown to satisfy it.
- `app.js` has only the `isSpinning` flag, so the model has
  `Idle | Spinning`.
- The wheel layout of `app.js` is drawn in markup, which is not part of this
  model. The model takes sector `i` to span `[i * 60, (i + 1) * 60)`
  clockwise from the top. This matches the header comment at `app.js:2` and
  the target arithmetic at lines 79-84. A comment at `app.js:77` describes a
  different layout (see `Angles.SectorAt` under "## Left out").

## Model

| member | source | states |
|---|---|---|
| Weights.SlicesTileTotal | script.js:69-75 | with positive weights, entry `i` owns the slice `[Prefix(i), Prefix(i+1))` of `[0, total)`; the slice is as long as its weight, and the slices run from 0 to the total without gaps |
| Angles.JsRemainder360 | app.js:107 | JavaScript `% 360` keeps the sign of the dividend, has magnitude below 360 and differs from the dividend by whole turns; for a non-negative dividend it equals the floor-based representative |
| Angles.UnderPointer | app.js:85-88 | after a clockwise rotation by `rot`, the wheel angle under the top pointer is the one point in `[0, 360)` that `rot` carries to 0 |
| Angles.SectorAt | app.js:79-82 | the sector index `i < n` whose span `[i*w, (i+1)*w)` contains a wheel angle |
| Angles.FoldKeepsPointer | app.js:106-109 | folding the rotation with `% 360` leaves the same wheel angle under the pointer |
| PrizeDraw.Scan | app.js:47-51 | the running-sum loop from entry `k` returns an index in `[k, |w|]`, where `|w|` means it ran off the end |
| PrizeDraw.PickIndex | app.js:44-53 | the entry chosen, including the fallback, is always a valid index |
| PrizeDraw.PickPrize | app.js:44-53 | `pickPrizeByWeight` returns the prize of some table entry for every `r` |
| PrizeDraw.ScanIsLeastCovering | app.js:47-51 | for any weights, the loop returns the least index whose running sum reaches `r`, or runs off the end only if none does |
| PrizeDraw.FallbackUnreachable | app.js:48-52 | with positive weights and `0 <= r <= total`, the loop itself returns and the last-entry fallback is never used |
| PrizeDraw.PickIndexInterval | app.js:45-51 | entry `j` is chosen exactly when `Prefix(j) < r <= Prefix(j+1)`, except that `r = 0` picks entry 0 (both directions) |
| SectorChoice.MatchingFrom | app.js:57 | the indices kept by the map/filter are exactly the positions whose sector carries the prize, in increasing order |
| SectorChoice.Slot | app.js:58 | `Math.floor(u * n)` for `u` in `[0, 1)` is a valid position among `n` |
| SectorChoice.SlotInterval | app.js:58 | `Math.floor(u * n)` is `j` exactly when `u` lies in `[j/n, (j+1)/n)` |
| SectorChoice.TieBreakUniform | app.js:55-59 | among the `n` sectors carrying the prize, the `j`-th is returned exactly when `u` lies in `[j/n, (j+1)/n)`, so the tie-break is uniform |
| SectorChoice.SectorIndexForPrize | app.js:55-59 | returns a sector index exactly when some sector carries the prize, and that sector carries it; otherwise `undefined` (`None`) |
| SectorChoice.TargetWithinSector | app.js:79-84 | the random point lies in `[0, 360)` and inside the chosen sector |
| SectorChoice.ExtraSpins | app.js:87 | the number of extra full turns is 5, 6 or 7 |
| SectorChoice.FinalRotation | app.js:88 | the rotation lies in `(extra*360, (extra+1)*360]`, plus the target point is a whole number of turns, and the target point ends under the pointer |
| SectorChoice.PlanFor | app.js:73-88 | the spin's chosen sector carries the prize, uses 5 to 7 extra turns, and is the sector under the pointer at the final rotation |
| SectorChoice.PointerShowsPrize | app.js:73-109 | the sector under the pointer carries the awarded prize, before and after the `% 360` fold |
| AppLedger.TablesAgree | app.js:19-37 | the weight table has positive weights totalling 100, and every prize it can award is positive and on the sector at the same position |
| AppLedger.DrawPrize | app.js:44-53 | the prize drawn for a spin is positive and carried by some sector |
| AppLedger.DrawPrizeShares | app.js:28-37 | a draw `u` awards 100 exactly when `u <= 0.5` (the two 100 sectors at 25% each), 200 on `(0.5, 0.7]`, 300 on `(0.7, 0.85]`, 400 on `(0.85, 0.95]` and 500 on `(0.95, 1)`: the documented 50/20/15/10/5 shares |
| AppLedger.Spin | app.js:61-92 | a click while spinning changes nothing; with `spins <= 0` only the "no spins left" notice changes; otherwise spins and points are unchanged, the spin is in flight with a positive prize, and the rotation (in `(1800, 2880]`) puts a sector carrying that prize under the pointer |
| AppLedger.Complete | app.js:95-110 | completion spends exactly one spin, adds exactly the prize, clears the in-flight flag, shows the win, folds a non-negative rotation into `[0, 360)` and keeps the same angle under the pointer |
| AppLedger.WatchAd | app.js:116-120 | the ad grant adds exactly one spin and leaves points unchanged; it does nothing while a spin is in flight |
| AppLedger.Reset | app.js:123-131 | when idle, reset sets spins to 1, points to 0 and rotation to 0 whatever the prior state; it does nothing while a spin is in flight |
| AppLedger.InvPreserved | app.js:61-131 | the initial state and every step keep spins and points non-negative, a spin in flight backed by a credit, and a resting wheel within one turn |
| AppLedger.ResetIdempotent | app.js:123-131 | a second reset changes nothing, and reset from idle gives the initial ledger |
| AppLedger.SpinRoundTrip | app.js:61-111 | a started and completed spin spends one credit and credits exactly the prize printed on the sector the pointer rests over |
| AppLedger.SecondSpinRefused | app.js:61-111 | from page load, one spin succeeds, and the next click is refused with points unchanged |
| RewardDraw.Walk | script.js:72-75 | the subtracting loop returns an index in `[k, |w|)` or falls off the end |
| RewardDraw.GetReward | script.js:68-76 | a defined result is the label of some sector |
| RewardDraw.WalkInterval | script.js:72-75 | after `k` subtractions the loop holds the draw minus `Prefix(k)`; from there it stops at `i` exactly when `Prefix(i) <= rand < Prefix(i+1)` |
| RewardDraw.WalkFinds | script.js:72-76 | with positive weights and a draw in `[Prefix(k), total)` the loop returns, so `undefined` never comes out |
| RewardDraw.RewardInterval | script.js:68-76 | for `rand` in `[0, total)` the draw is defined and picks entry `i` exactly when `rand` lies in its half-open slice, whose length is the entry's weight |
| Restore.ToNumber | script.js:10-11 | `Number(null)` and `Number("")` are 0, and text not starting with a digit or sign is `NaN` |
| Restore.RestoreOr | script.js:10-11 | `Number(x) \|\| d` is the stored number when that is nonzero, and `d` when it is `NaN` or 0 |
| Restore.SaveThenRestore | script.js:10-11 | reading back the stored decimal text of a counter gives the counter, and restoring it gives the counter unless it is 0, which gives the default |
| ScriptSession.RewardsTable | script.js:26-37 | the ten weights are positive and total 130, and every value is positive |
| ScriptSession.Start | script.js:10-11 | each counter is the stored number when that is a nonzero number; a missing key, a stored 0 or non-numeric text gives 0 points and 5 spins; nothing is pending |
| ScriptSession.FinalAngle | script.js:94 | the canvas angle lies in `[1800, 2160)` |
| ScriptSession.DrawReward | script.js:93 | the reward drawn is always a positive number spelled by one of the sector labels, never `undefined` |
| ScriptSession.Press | script.js:82-94 | with `spinsLeft <= 0` nothing changes; otherwise exactly one credit is spent at the press, points are unchanged, and one reward (a sector label) is queued behind the earlier ones |
| ScriptSession.Complete | script.js:99-105 | the oldest pending completion adds exactly its reward to points and leaves the credits unchanged |
| ScriptSession.PromisedAccounting | script.js:87-101 | points earned plus points owed rise by exactly the queued reward on a press, and are unchanged by a refused press or a completion |
| ScriptSession.OverlappingPressesSpendTwice | script.js:79-106 | two presses before any completion spend two credits and queue two rewards, since there is no in-flight guard |
| ScriptSession.AngleIndependentOfReward | script.js:93-94 | the canvas angle depends only on its own draw, not on the reward draw |
| ScriptSession.ZeroSpinsRestoreAsDefault | script.js:10-11 | counters saved and restored come back unchanged, except that 0 spins comes back as 5 |

## Left out

- DOM updates, button enabling and disabling, alerts and the result text are
  not modelled, except as the guard they enforce. In `app.js`, a click on a
  disabled button does nothing. The result line appears only as an abstract
  `Notice`.
- CSS transitions, easing and the 5200 ms timers are not modelled; completion
  is the explicit `Complete` step. In `script.js`, all timers share one
  delay, so completions fire in press order (a queue).
- Canvas drawing (`drawWheel`), `Audio` playback and the Telegram user-name
  lookup are foreign browser APIs with nothing to specify.
- `localStorage` I/O is not modelled. Only the pure restore rule, and the
  decimal text a counter is stored as, are modelled.
- `Math.random` and any frequency or convergence claims are not modelled.
  Draws are parameters in `[0, 1)`. The slice-length lemmas are what makes
  the chance of each entry proportional to its weight.
- IEEE rounding is not modelled. The last-entry fallback of
  `pickPrizeByWeight` and the `undefined` result of `getReward` arise only
  from rounding. Both are modelled, and both are proved unreachable with
  exact reals.
- Restore.ToNumber: reads only empty text, digits and sign-plus-digits as
  numbers. JavaScript also reads surrounding whitespace, decimals, exponents,
  hexadecimal, binary and octal prefixes, whitespace-only text (as 0) and
  `Infinity`. Only decimal integer text is ever stored by this program.
- Which sector the `script.js` canvas shows under its pointer is not
  modelled. The pointer's position is set in markup that is not part of this
  model. The model proves only that the angle does not depend on the reward.
- The wheel's rotation before the first spin is taken as 0, since the
  initial CSS of either page is not part of this model.
- Angles.SectorAt: assumes the `app.js` wheel is drawn with sector `i` over
  `[i * 60, (i + 1) * 60)` clockwise from the top. The header comment at
  `app.js:2` ("clockwise starting at top") and the target arithmetic imply
  this layout, but the markup that draws it is not part of this model. The
  pointer properties (`SectorChoice.PointerShowsPrize`, `AppLedger.Spin`,
  `AppLedger.SpinRoundTrip`) hold only under this layout. They fail under
  the layout the comment at `app.js:77` describes (sector 0 over -30..30
  degrees). For example, sector 2 with `v = 0.75` gives a target of 165
  degrees, which would sit under sector 3 (prize 300) while 200 is
  credited.
