# Mimamori fall monitor — decision core

A model of the decision logic inside the fall-monitoring web app
(`src/App.tsx`). Each camera frame, a pose model returns a list of
`(className, probability)` entries. The app picks the best class, shows it
with its rounded percentage, and raises an alert when the class is one of
the fall labels "Fall", "転倒" or "倒れている". While the alert is raised, a
throttle decides whether to e-mail the configured address. It sends only
when three things hold: the confidence is above 90 %, an address is stored,
and more than `COOLDOWN_TIME` (600000 ms, ten minutes) has passed since the
last e-mail. It locks the window (`lastSentTime := now`) before handing the
e-mail to the dispatcher. A settings form accepts a new address only if it
contains '@'.

Modules:

- `Detection` (`detection.dfy`): the best-class selection loop with its
  specification function `BestClass` and an independent description
  `IsFirstMaximum` (first index attaining the maximum, or probability 0 and
  class "" when no probability is positive). It also holds the
  rounding to a percentage and the fall-label test.
- `Throttle` (`throttle.dfy`): the three guards as the function `Decide`, the
  dispatch log (`Email` records), and the spacing property of that log.
- `MimamoriApp` (`app.dfy`): the component as a class `App` whose fields are
  the component state, the two browser-storage entries and the log of
  e-mails handed to the dispatcher. Its methods are the handlers. Its
  invariant `Valid()` includes "consecutive e-mails are more than the
  cooldown apart", and every method keeps it; `App.NotificationsSpaced`
  derives that any two e-mails are.

Facts about the code that the model keeps:

- `COOLDOWN_TIME` is 600000 ms (`src/App.tsx:15`); the comment beside it
  says one minute, and the model uses the constant.
- The confidence test is on the rounded percentage
  (`src/App.tsx:123`, `src/App.tsx:144`), so `ProbPercent` sits between the
  best probability and the throttle.
- A detected fall label goes straight to the throttle
  (`src/App.tsx:126-128`).

## Model

| member | source | states |
|---|---|---|
| Detection.BestClass | src/App.tsx:112-120 | the state the scan leaves, from `highestProb = 0`, `bestClassName = ""` with strict `>`: its probability is never negative, and it is either the start value or has a positive probability |
| Detection.IsFallLabel | src/App.tsx:126 | the alert holds exactly when the best class equals "Fall", "転倒" or "倒れている" (the three comparisons of the code); the empty class left by a scan with no positive probability never alerts |
| Detection.BestClassIsFirstMaximum | src/App.tsx:112-120 | the strict-`>` scan from `highestProb = 0`, `bestClassName = ""` yields the entry at the first index attaining the maximum probability; it yields `(0, "")` when the list is empty or no probability is positive |
| Detection.BestClassBounds | src/App.tsx:112-120 | the selected probability is never negative and is at least the probability of every entry |
| Detection.FirstMaximumUnique | src/App.tsx:112-120 | the first-maximum description admits exactly one result, so it fully determines what the loop returns |
| Detection.SelectBest | src/App.tsx:112-120 | the loop's final `highestProb`/`bestClassName` equal the specification `BestClass` and satisfy the first-maximum description |
| Detection.ProbPercent | src/App.tsx:123 | `Math.round(p * 100)` is the integer within half a unit of `p * 100`, halves rounded up; it lies in 0..100 for a probability in [0, 1] |
| Throttle.Decide | src/App.tsx:143-157 | a send is decided iff confidence > 90, a non-empty address is stored and `now - lastSentTime > COOLDOWN_TIME`; confidence 90 or less is rejected first; a missing or empty address is rejected next; a call within the window is rejected last, and one exactly `COOLDOWN_TIME` after the last send is still suppressed |
| Throttle.NoSecondSendInWindow | src/App.tsx:153-163 | after the window is locked at `now`, no call at a time up to `now + COOLDOWN_TIME` sends, an immediate second call included |
| Throttle.SpacedAppend | src/App.tsx:153-173 | appending an e-mail cleared by the cooldown test against the last send keeps consecutive e-mails more than the cooldown apart |
| Throttle.SpacedPairwise | src/App.tsx:153-173 | in such a log any two e-mails, not only neighbours, are more than the cooldown apart (at most one notification per window) |
| MimamoriApp.Save | src/App.tsx:185-193 | the settings change only when the input contains '@'; an accepted input is stored (a non-empty address) and becomes the target, and the settings form closes |
| MimamoriApp.SaveMirrors | src/App.tsx:190-191 | saving keeps the component's target equal to the stored target |
| MimamoriApp.SaveIdempotent | src/App.tsx:185-193 | saving the same input twice gives the same state as saving it once |
| MimamoriApp.SaveLastWins | src/App.tsx:190-192 | an accepted save overwrites whatever an earlier save left: the last writer wins |
| MimamoriApp.App.NotificationsSpaced | src/App.tsx:153-173 | in every reachable state any two e-mails handed to the dispatcher are more than `COOLDOWN_TIME` apart, and none is later than the locked time |
| MimamoriApp.App.constructor | src/App.tsx:23-38 | the target is the stored address or ""; the settings form opens exactly when no non-empty address is stored; `lastSentTime` is the stored value or 0; no e-mail has been sent |
| MimamoriApp.App.CheckAndSendEmail | src/App.tsx:137-173 | takes exactly the branch `Decide` gives for the stored address and the old `lastSentTime`; on a send it sets `lastSentTime := now` and appends one e-mail to the stored address with the confidence and time; otherwise nothing changes; keeps the spacing invariant |
| MimamoriApp.App.Predict | src/App.tsx:112-131 | shows the first-maximum class and its rounded percentage; the alert is raised iff that class is a fall label; the throttle is consulted (with the rounded percentage) only when the alert is raised; settings are untouched |
| MimamoriApp.App.SaveSettings | src/App.tsx:185-194 | accepts iff the input contains '@'; an accepted input becomes the target and the stored target and closes the settings form; a rejected one leaves the whole state unchanged |

## Left out

- Loading the pose model and the camera, and scheduling frames with `requestAnimationFrame` (`src/App.tsx:45-104`). These are calls into foreign SDKs and the browser; one frame's work is `App.Predict`. The guards on a missing webcam or model are not modelled.
- The frame loop's `isSettingsMode` guard (`src/App.tsx:100`) is not modelled: the `loop` closure reads the value captured when the camera effect started, which is always false. Frames stop through `cancelAnimationFrame` in the effect's cleanup (`src/App.tsx:91`), but a frame suspended at `await predict()` reschedules itself (`src/App.tsx:102-103`), so the code can still run `predict` and `checkAndSendEmail` while the settings form is open. `App.Predict` has no settings-mode precondition and so covers such a frame.
- The pose model's `estimatePose`/`predict` calls: their output is the `preds` parameter.
- Floating-point arithmetic: probabilities are exact reals. `ProbPercent` is exact rounding of `p * 100`, without binary floating-point error.
- `Date.now()`: time is the integer parameter `now`. `toLocaleTimeString()` is not modelled; an e-mail records `now` instead.
- The `emailjs.send` promise and its success, failure and 429 status messages (`src/App.tsx:173-182`): handing an e-mail to the dispatcher is an appended `Email` record. A failed send still consumes the window, as in the code.
- MimamoriApp.App.NotificationsSpaced: the spacing is per component instance. The `lastSentTime` storage entry is written on every send but read only when the component is created (`src/App.tsx:38`), so two instances sharing the same storage (two tabs, say) each keep their own window and can both send inside one cooldown.
- `localStorage`: its two entries are fields. `parseInt` of a stored time is taken to succeed; a non-numeric stored value (`NaN`) is not modelled.
- The `status` text, `console` logging, `alert()` and all rendering (`src/App.tsx:199-270`).
- The buttons that open and cancel the settings form (`src/App.tsx:225, 238`) only toggle `isSettingsMode` from the UI; they are not modelled.
- The `inputEmail` field state and its `onChange` handler: the input is the parameter of `SaveSettings`.
