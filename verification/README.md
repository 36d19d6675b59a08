# name-that-part: rotating credits and audio widgets, modelled in Dafny

The site's script `static/js/name-that-part.js` holds two independent pieces of
browser behaviour:

- **Rotating credits.** A trigger element names a *group*. The container with the
  same group name holds the author nodes. While the group's timer runs, every tick
  moves the first author to the end of the container, so the credits cycle.
  Hovering or focusing the trigger stops the timer. Leaving the trigger starts it
  again, unless focus only moved inside the trigger. A reduced-motion preference
  keeps the timer from ever starting.
- **Audio widgets.** Elements with `data-audio-target` name an audio element by id.
  The script binds toggle buttons, progress bars and time labels to that audio.
  It keeps what they show in step with the audio's state. It pauses every other
  audio when one starts playing. It leaves a progress bar alone while the user is
  dragging it. Times are written as `M:SS`, or `H:MM:SS` from one hour up.

The model has four modules:

- `Wrappers` (`wrappers.dfy`): `Option`.
- `TimeFormat` (`time_format.dfy`): `formatTime`, and `ParseClock`, its inverse.
- `Rotation` (`rotation.dfy`): the group state as a value. It has specification functions
  `Tick`, `Start`, `Stop` and `FocusOut`. It also has the `RotationGroup` class,
  whose methods are proved against those functions, and the `RotationRegistry`
  class for the page scan.
- `AudioWidgets` (`audio.dfy`): binding discovery, the derived widget state, and
  the `AudioController` class. The controller holds the `audiosById` registry and
  each audio's widgets. It has one method per handler.

Host inputs become parameters:

- The timer is the flag `timerActive`, and one tick is one call of `Rotate`.
- The reduced-motion preference is a constant of each group.
- The outcome of the `play()` promise is the `playResolves` argument.
- `Number.parseFloat` of a bar's value is the `parsed` argument of `Input`.
- The document is given as sequences and maps: the page's widgets, id to
  element, group name to container children.

The event handlers map to methods like this:

- `loadedmetadata`, `durationchange` and `ended` call `SyncAll`.
- `timeupdate` calls `SyncProgress`.
- `pause` calls `SyncButtons`.
- `play` calls `OnPlay`.
- `mousedown` and `touchstart` on a bar call `StartSeek`.
- `mouseup`, `touchend`, `mouseleave` and `change` on a bar call `EndSeek`.
- `input` on a bar calls `Input`.

The script sets a bar's seeking flag only on `mousedown` and `touchstart`
(static/js/name-that-part.js:175-179), never on focus. The model has no
focus-driven seek either.

## Model

| member | source | states |
|---|---|---|
| `TimeFormat.Decimal` | static/js/name-that-part.js:93-97 | `String(n)` of a non-negative integer: non-empty, all digits, one digit exactly below 10, no leading zero except for 0 |
| `TimeFormat.Pad2` | static/js/name-that-part.js:93-97 | `padStart(2, "0")`: all digits, and exactly two characters for any value below 100 |
| `TimeFormat.Split` | static/js/name-that-part.js:88-91 | hours, minutes and seconds satisfy `hours*3600 + minutes*60 + seconds == total`, with minutes and seconds below 60 |
| `TimeFormat.FormatClock` | static/js/name-that-part.js:88-97 | a whole number of seconds renders as at least `m:ss`, with a colon before the two characters of the seconds; `FormatClockRoundTrip` reads it back |
| `TimeFormat.FormatTime` | static/js/name-that-part.js:86-98 | NaN, the infinities and negative values render as `0:00` |
| `TimeFormat.FormatBelowHour` | static/js/name-that-part.js:92-97 | below 3600 s the text is exactly two fields, minutes and zero-padded seconds, with no hour field |
| `TimeFormat.FormatFromHour` | static/js/name-that-part.js:92-96 | from 3600 s up the text is three fields: hours, zero-padded minutes, zero-padded seconds |
| `TimeFormat.FormatClockRoundTrip` | static/js/name-that-part.js:88-97 | the text has 2 fields below an hour and 3 from an hour up, and `ParseClock` reads it back as the same number of seconds |
| `TimeFormat.FormatClockInjective` | static/js/name-that-part.js:88-97 | two different whole numbers of seconds never render as the same text |
| `TimeFormat.FormatTimeRoundTrip` | static/js/name-that-part.js:86-98 | every output of `formatTime` is a valid clock text for the floored input, or for 0 when the input is bad |
| `TimeFormat.FormatTimeExamples` | static/js/name-that-part.js:86-98 | 0 gives `0:00`, 65 and 65.9 give `1:05`, 3661 gives `1:01:01`, NaN and -5 give `0:00` |
| `Rotation.Authors` | static/js/name-that-part.js:15 | the author list holds exactly the container's author children, and is no longer than the children |
| `Rotation.AppendChild` | static/js/name-that-part.js:29 | `appendChild` puts the node last; a node already present is moved, so no node is duplicated or lost |
| `Rotation.AppendChildOrder` | static/js/name-that-part.js:29 | the other children keep their order: a new node is added after them, and a node at position `i` of a container without repeats is taken from there and put last |
| `Rotation.Rotated` | static/js/name-that-part.js:27-30 | the working list after `shift`/`push` has the same length and the same elements |
| `Rotation.Tick` | static/js/name-that-part.js:25-31 | `rotate` is a no-op below two nodes; the timer is untouched |
| `Rotation.TickMovesFirstLast` | static/js/name-that-part.js:27-30 | with two nodes or more, a tick moves the first node to the end of the working list and makes it the container's last child |
| `Rotation.Ticks` | static/js/name-that-part.js:25-38 | `k` runs of `rotate` by the interval; it has no contract of its own, and `TicksKeepNodes`, `TicksKeepSync` and `TicksRotate` state its properties |
| `Rotation.TicksKeepNodes` | static/js/name-that-part.js:25-31 | any number of ticks only reorders the working list: the same nodes, each as often |
| `Rotation.Start` | static/js/name-that-part.js:33-39 | `startRotation` changes nothing under reduced motion or with a timer running; otherwise it reloads the authors from the container and sets the timer |
| `Rotation.Stop` | static/js/name-that-part.js:41-48 | `stopRotation` leaves the timer off and the lists unchanged |
| `Rotation.FocusOut` | static/js/name-that-part.js:55-57 | focus moving inside the trigger changes nothing; afterwards the timer runs exactly when it ran before, or when focus left the trigger (or went nowhere) without a reduced-motion preference; the working list is reloaded from the container exactly when the timer starts; the children never change |
| `Rotation.TickKeepsSync` | static/js/name-that-part.js:25-31 | one rotation keeps the working list equal to the container's author children, each node once |
| `Rotation.TicksKeepSync` | static/js/name-that-part.js:25-31 | any number of rotations keeps the lists in sync and leaves the timer alone |
| `Rotation.TicksRotateNodes` | static/js/name-that-part.js:25-31 | after k ticks the working list is the start list left-rotated by k mod n |
| `Rotation.TicksRotate` | static/js/name-that-part.js:25-31 | after k ticks from an in-sync group, the working list and the container's author order are both the start order left-rotated by k mod n |
| `Rotation.ThreeAuthorExample` | static/js/name-that-part.js:25-31 | X, Y, Z show as Y, Z, X after one tick and as X, Y, Z again after three |
| `Rotation.StopIdempotent` | static/js/name-that-part.js:41-48 | stopping twice is the same as stopping once |
| `Rotation.ReducedMotionNeverRuns` | static/js/name-that-part.js:35 | under reduced motion no transition sets the timer |
| `Rotation.RotationGroup.constructor` | static/js/name-that-part.js:18-23 | a new group keeps the original author order; after the first `startRotation` the timer runs exactly when motion is not reduced |
| `Rotation.RotationGroup.Rotate` | static/js/name-that-part.js:25-38 | only the running interval calls it; the group's new state is `Tick` of the old one |
| `Rotation.RotationGroup.StartRotation` | static/js/name-that-part.js:33-39 | the group's new state is `Start` of the old one; the reduced-motion invariant holds |
| `Rotation.RotationGroup.StopRotation` | static/js/name-that-part.js:41-48 | the group's new state is `Stop` of the old one |
| `Rotation.RotationGroup.PointerOrFocusEnter` | static/js/name-that-part.js:52-54 | `mouseenter` and `focusin` stop the timer |
| `Rotation.RotationGroup.PointerLeave` | static/js/name-that-part.js:53 | `mouseleave` is `startRotation` |
| `Rotation.RotationGroup.FocusLeave` | static/js/name-that-part.js:55-57 | `focusout` restarts only when the new focus is outside the trigger |
| `Rotation.RotationRegistry.constructor` | static/js/name-that-part.js:3-7 | the registry starts with no groups and holds the page's reduced-motion preference |
| `Rotation.RotationRegistry.Register` | static/js/name-that-part.js:11-23 | a group is created exactly when its container exists and holds at least two authors; it is a new object with the registry's reduced-motion preference, starts in sync with its timer running unless motion is reduced; other entries keep their group; otherwise nothing changes |
| `Rotation.Created` | static/js/name-that-part.js:11-17 | a name is created by the scan exactly when a trigger carries it and its container exists with at least two authors |
| `Rotation.RotationRegistry.Scan` | static/js/name-that-part.js:8-23 | after the scan, the registered names are the old ones plus exactly the `Created` names; every other name keeps its group object; every created name holds a new group, started from its container's children with the registry's preference, in sync, with its timer running unless motion is reduced |
| `AudioWidgets.UniqueIds` | static/js/name-that-part.js:65-71 | `targetIds` holds every non-empty id exactly once, in the order of first occurrence |
| `AudioWidgets.TargetIds` | static/js/name-that-part.js:65-71 | `targetIds`, the page's target ids deduplicated; it has no contract of its own, and `TargetIdsExact` and `UniqueIds` state what it holds |
| `AudioWidgets.TargetIdsExact` | static/js/name-that-part.js:65-71 | an id is in `targetIds` exactly when it is non-empty and some widget on the page names it, and no id appears twice |
| `AudioWidgets.Resolve` | static/js/name-that-part.js:73-77 | `audiosById` holds exactly the target ids whose element is an audio element, mapped to that element |
| `AudioWidgets.CountOf` | static/js/name-that-part.js:121-127 | the number of widgets of one kind that one selector finds for an id, never more than the page's widgets; `CountOfBounds` states when it is 0 and when it is all of them |
| `AudioWidgets.Discovered` | static/js/name-that-part.js:121-129 | the buttons, bars and labels of one audio as found, `CountOf` of each kind, before the first synchronisation; it has no contract of its own, and `FirstSyncShows` and the controller's constructor state their counts and that no bar is seeking |
| `AudioWidgets.CountOfBounds` | static/js/name-that-part.js:120-127 | no widget of the kind names the id exactly when the count is 0, and every widget does exactly when the count is the page's length |
| `AudioWidgets.ButtonFor` | static/js/name-that-part.js:105-116 | a button is pressed exactly when the audio is neither paused nor ended; the label is "Pause" exactly when pressed and "Play" exactly when not |
| `AudioWidgets.HasDuration` | static/js/name-that-part.js:100-101 | `isFiniteDuration`: a finite, positive duration; it has no contract of its own, and `Ratio`, `SyncedBar`, `TimeText` and `Input` state what depends on it |
| `AudioWidgets.Ratio` | static/js/name-that-part.js:133 | without a usable duration the ratio is 0; with one, it lies in [0, 1] when the position does not pass the end; `RatioScales` states that it is the position's fraction of the duration |
| `AudioWidgets.RatioScales` | static/js/name-that-part.js:133 | with a usable duration, the ratio times the duration is the position |
| `AudioWidgets.Clamp01` | static/js/name-that-part.js:138 | the bar value is within [0, 1], equal to the ratio when the ratio is in range, 0 below and 1 above |
| `AudioWidgets.SyncedBar` | static/js/name-that-part.js:135-139 | a bar whose seeking flag is set is left as it is; any other bar is enabled exactly when the duration is usable and shows the clamped ratio |
| `AudioWidgets.ButtonsSynced` | static/js/name-that-part.js:149-151 | `syncButtons` makes every button of the audio show its state and touches no bar or label |
| `AudioWidgets.ProgressSynced` | static/js/name-that-part.js:131-147 | `syncProgress` applies the seeking gate to every bar, writes the time text to every label and touches no button |
| `AudioWidgets.Pause` | static/js/name-that-part.js:82 | a paused audio is not playing; its position, duration and ended flag are unchanged |
| `AudioWidgets.Play` | static/js/name-that-part.js:163 | a play that succeeds leaves the audio playing, restarting from 0 if it had ended |
| `AudioWidgets.PausedExcept` | static/js/name-that-part.js:80-84 | `pauseOthers` leaves the registry's ids unchanged and `current` untouched, and pauses every other audio |
| `AudioWidgets.OnlyCurrentPlays` | static/js/name-that-part.js:80-84 | after `pauseOthers(current)` the only audio that can be playing is `current` |
| `AudioWidgets.Toggled` | static/js/name-that-part.js:159-169 | clicking a playing audio pauses it and changes no other audio; clicking a paused or ended one pauses every other audio, and it plays exactly when `play()` succeeds, as `Play` of its old state; a failed play leaves it as it was; the registry keeps its ids |
| `AudioWidgets.Seeked` | static/js/name-that-part.js:184-189 | a seek keeps the paused flag and the duration; the position lies within [0, duration]; the play ratio becomes the clamped ratio; the audio has ended exactly when the position is the end |
| `AudioWidgets.SeekPosition` | static/js/name-that-part.js:184-189 | the position at fraction `c` in [0, 1] of a usable duration lies within [0, duration], reads back as ratio `c`, and is the end exactly when `c` is 1 |
| `AudioWidgets.SeekThenPlay` | static/js/name-that-part.js:159-189 | a seek short of the end followed by a click whose play succeeds plays on from the sought position; a seek to the end makes the click start over from 0 |
| `AudioWidgets.SeekShowsRatio` | static/js/name-that-part.js:184-190 | after a seek, the play ratio is the requested ratio clamped to [0, 1], and a bar that is not being dragged shows that value, enabled |
| `AudioWidgets.FormatTimeHasNoSpace` | static/js/name-that-part.js:86-98 | the text of `formatTime` contains no space, so the `" / "` separator of a label is unambiguous |
| `AudioWidgets.TimeText` | static/js/name-that-part.js:141-143 | a time label reads back as the whole seconds played and the whole seconds of the duration, or 0 as the total when the duration is unusable |
| `AudioWidgets.FirstSyncShows` | static/js/name-that-part.js:129-156 | the first `syncAll` leaves no bar seeking and makes every widget of the audio show its state |
| `AudioWidgets.AudioController.constructor` | static/js/name-that-part.js:61-206 | the registry is exactly the resolved distinct target ids; each audio has as many buttons, bars and labels as the page names for it; all of them show the audio, and no bar is seeking |
| `AudioWidgets.AudioController.SyncEvery` | static/js/name-that-part.js:118-205 | the closing `syncAll()` of each audio's setup: no audio changes, and every audio's widgets become `ButtonsSynced` then `ProgressSynced` of their discovered form |
| `AudioWidgets.AudioController.SyncButtons` | static/js/name-that-part.js:149-151 | the audio's buttons become `ButtonsSynced`; no audio and no other audio's widgets change |
| `AudioWidgets.AudioController.SyncProgress` | static/js/name-that-part.js:131-147 | the audio's widgets become `ProgressSynced`, so bars being dragged are untouched; nothing else changes |
| `AudioWidgets.AudioController.SyncAll` | static/js/name-that-part.js:153-156 | the buttons are synchronised, then the bars and labels |
| `AudioWidgets.AudioController.PauseOthers` | static/js/name-that-part.js:80-84 | the registry becomes `PausedExcept(old registry, current)`; no widget changes |
| `AudioWidgets.AudioController.Click` | static/js/name-that-part.js:158-172 | the registry becomes `Toggled`, i.e. play after `pauseOthers` or pause; then the clicked audio's buttons show its new state |
| `AudioWidgets.AudioController.OnPlay` | static/js/name-that-part.js:198-201 | the `play` event pauses every other audio, then synchronises the playing audio's buttons |
| `AudioWidgets.AudioController.StartSeek` | static/js/name-that-part.js:175-179 | only the seeking flag of that one bar is set |
| `AudioWidgets.AudioController.EndSeek` | static/js/name-that-part.js:176-192 | only the seeking flag of that one bar is cleared |
| `AudioWidgets.AudioController.Input` | static/js/name-that-part.js:184-190 | without a usable duration, or with a non-finite parsed value, nothing changes; otherwise the audio becomes `Seeked`, so the position is the clamped ratio times the duration and the audio has ended exactly when that is the end, and the progress widgets are resynchronised |
| `AudioWidgets.TwoPlayers` | static/js/name-that-part.js:158-202 | with b playing, a click on a's button whose play succeeds, then a's `play` event and b's `pause` event, leave a playing and shown "Pause"/pressed, and b paused and shown "Play"/unpressed |

## Left out

- DOM discovery (`querySelectorAll`, `getElementById`, attribute selectors, `instanceof HTMLAudioElement`): the results are inputs. The inputs are the page's widgets, a map from id to element, and a map from group name to the first container's children.
- Authors are taken to be direct children of their container. `querySelectorAll(".joint-author")` also finds nested descendants, and `appendChild` would lift such a node out of its parent. That case is not modelled.
- Changes the host makes to a container's children between two `startRotation` calls are not modelled. So reloading the working list shows up only as restoring `nodes == Authors(children)`.
- Two triggers naming the same group: the script replaces `groups[name]`, but the first group's timer keeps running and, through the name lookup, rotates the new group. The model replaces the registry entry and does not model that stray timer, because a timer is a flag of one group.
- Timing: `setInterval`, `clearInterval` and the 3000 ms delay. The model uses the timer flag, and a tick is an explicit `Rotate` call.
- `window.matchMedia`: the reduced-motion preference is a constant input.
- The icon's `classList.toggle` and the `aria-pressed` attribute string are left out. A button is the derived pressed flag and its label text. A button without a label sub-element shows no text, and that case is not modelled.
- Markup state before the first synchronisation is left out. `Discovered` uses placeholder widgets, which the first `syncAll` overwrites.
- Floating point: doubles are idealised as reals, and NaN and the infinities as `NonFinite`. The ratio, its clamping and the seek multiplication are exact real arithmetic.
- `TimeFormat.Decimal` matches `String(n)` only below 1e21; from there up `String` switches to exponent notation (`formatTime(1e25)` has an hour field like `2.77…e+21`, which `ParseClock` rejects). The division, `%` and `Math.floor` of lines 88-91 are exact on doubles only below 2^53. So `FormatTime`, `Split` and `FormatTimeRoundTrip` describe the script only for inputs below 2^53 seconds, which is also below the 3.6e24 seconds where the hour text would turn exponential.
- `Number.parseFloat` of the bar's value is not modelled. Its result is the `parsed` argument of `Input`, and the bar's own value as set by the user is not stored.
- Setting `currentTime` is an assignment. The host's clamping to the seekable range, and the events that seeking fires, are not modelled.
- The `play()` promise: its outcome is the `playResolves` argument. What happens between the call and the promise settling (the `play` event runs before the click's `syncButtons`) is not interleaved. The end state is the same.
- Host-driven media changes are not modelled: playback advancing, metadata loading, the media ending. Handlers read the media state as it stands when they are called.
- `RotationRegistry.Scan` and `AudioController.constructor` take a group name or an audio id as given. The script pastes it unescaped into an attribute selector (lines 12 and 120-127). A name with a `"` makes `querySelector` throw, which ends the whole `forEach` early. A name with a `\` selects a different attribute value. Names are taken to be plain, so neither effect is modelled.
- The ended flag is stored, not derived from the position. `Seeked` recomputes it on a seek, and `Play` clears it. Other host transitions of `ended` are not modelled, for example a seek that reaches the end while playing, which also pauses the audio.
- `Rotation.TicksRotate`: `rotate` never moves a non-author child itself, but such a child shifts position as authors are moved past it to the end: children `[X, S, Y]` with authors X and Y become `[S, Y, X]`. The non-authors keep their relative order. So the lemma describes the order of the authors among the container's children, not a rotation of the whole child list.
- Iteration order of the `audiosById` and `groups` maps is not modelled. Each handler's effect does not depend on it.
