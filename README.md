# Task Ticker timer and task bookkeeping, in Dafny

Task Ticker is a single React component, `App.jsx`, holding a Pomodoro timer tied to a
Notion task database. This project models the logic behind its markup:

- **Timer** (`timer.dfy`): the three modes (work, short break, long break), the remaining
  seconds and the running flag, one pure function per event (Start, Pause, Reset, a mode
  button, a one-second tick) and the effect that resyncs a stopped clock to its mode's
  nominal duration. Lemmas about runs of ticks: the count goes down by one per tick, a
  session completes on exactly one tick and then stays stopped, the long break is never
  entered by a tick, and the "stopped ⇒ full duration" invariant is kept.
- **Tasks** (`tasks.dfy`): `parseTasks` and `numberVal` over the parts of a query response
  the widget reads, `tasks.find` by first matching id, and the list rewrite of a
  successful increment.
- **Format** (`format.dfy`): the `mm:ss` display, with the lemma that reading it back gives
  the remaining seconds.
- **Widget** (`widget.dfy`): class `PomodoroWidget` with the component's state variables as
  fields and its handlers as methods. Each timer method's postcondition ties the new
  `(mode, remaining, isRunning)` to the matching `Timer` function of the old state. Its
  `modifies` clause lists the fields it may change. Every handler keeps `Valid()`: durations
  of at least one minute, and a stopped timer showing its mode's full duration.

The resync effect (App.jsx:49-54) runs whenever the mode, a duration or the running flag
changes, and on mount. It is the method `Sync()`, called at the end of the constructor,
`Start`, `Pause`, `Reset`, `SelectMode`, `EditDuration` and `Tick`. The other handlers
change no dependency of the effect, so React does not run it there. `Timer.SyncOnSynced`
shows that running it would change nothing anyway.

Some behaviour of the code as written, which the model keeps:

- Because the running flag is a dependency of the effect, Pause puts the count back to
  the full duration. In effect Pause is Reset (`Timer.PauseIsReset`).
- A mode button pressed while running changes the mode but not the count.
- On mount the stored remaining seconds are read, then overwritten by the work duration.

The network is represented by outcomes. `FetchTasks` takes, for each of its two queries, an
`Outcome`: an ok response, a non-ok response, or a rejected `fetch`. It also takes the
response body. `IncrementFinished` takes the outcome of its PATCH request as a flag. A flag is
enough there: the function catches a rejected request (App.jsx:147, App.jsx:162), so a
rejection and a non-ok response both leave the list as it was.
`Tick` returns the id whose increment it requests; the caller then runs
`IncrementFinished`, as the component's `.catch` call does. The ding is a ghost counter,
`chimes`.

## Model

| member | source | states |
|---|---|---|
| Format.Decimal | App.jsx:183-184 | `String(n)` of a non-negative integer is a non-empty string of digits, one digit exactly when n < 10, with no leading zero |
| Format.PadTwo | App.jsx:183-184 | `padStart(2, '0')` gives length max(2, \|s\|), ends with s and has only '0' before it |
| Format.MinuteText | App.jsx:183 | `mm` is a string of at least two digits |
| Format.SecondText | App.jsx:184 | `ss` is a string of exactly two digits |
| Format.Display | App.jsx:222 | the shown text is digits, a colon three characters from the end, and two digits |
| Format.DecimalValue | App.jsx:183-184 | reading the decimal string of n gives n back |
| Format.PadTwoValue | App.jsx:183-184 | left padding with zeros keeps a digit string's value |
| Format.SecondTextShape | App.jsx:184 | `ss` is exactly two digits, and they read as remaining % 60, which is in 0..59 |
| Format.MinuteTextShape | App.jsx:183 | `mm` is at least two digits, and they read as remaining div 60 |
| Format.DisplayRoundTrip | App.jsx:183-184 | parsing the `mm:ss` text gives mm*60 + ss == remaining for every remaining >= 0 |
| Format.DisplayInjective | App.jsx:183-184 | two different remaining times never show the same text |
| Timer.Nominal | App.jsx:51 | a mode's nominal length is a whole number of minutes, equal to that mode's minutes, and at least 60 s when the durations are valid |
| Timer.ClampMinutes | App.jsx:272 | `Math.max(1, x)` keeps any x >= 1 and gives 1 for every x < 1 (such as the 0 of an emptied input) |
| Timer.WithMinutes | App.jsx:272 | editing one mode's input sets only that mode's minutes, to the clamped value, and keeps the durations valid |
| Timer.NextMode | App.jsx:64 | a finished session moves work to short and each break to work; the result is never the long break |
| Timer.Sync | App.jsx:49-54 | a stopped clock gets its mode's nominal duration; a running clock is left alone; mode and flag never change |
| Timer.Start | App.jsx:229 | Start sets running and keeps mode and count |
| Timer.Pause | App.jsx:231 | Pause stops the clock and, through the resync, puts it back to the mode's full duration |
| Timer.Reset | App.jsx:233 | Reset stops the clock at the current mode's total seconds |
| Timer.Select | App.jsx:209-211 | a mode button sets the mode; stopped, the count becomes the new mode's duration; running, the count is untouched |
| Timer.Tick | App.jsx:57-71 | above 1 s a tick takes off one second and keeps mode and flag; at 1 s or less it moves to the next mode, stops, and shows that mode's nominal duration; it never enters the long break; it keeps the invariant |
| Timer.Run | App.jsx:277-285 | the interval driver: ticks stop at the first stopped state, and while still running after n ticks exactly n seconds have come off with the mode unchanged |
| Timer.RunCountsDown | App.jsx:58-70 | while running with more than n seconds left, n ticks take off exactly n seconds and keep mode and flag |
| Timer.RunCompletesOnce | App.jsx:57-71 | a running session with k seconds left completes on its k-th tick only, and afterwards stays stopped at the next mode's duration |
| Timer.RunNeverEntersLong | App.jsx:64-65 | after any number of ticks the mode is long only if it was long to begin with |
| Timer.RunKeepsSynced | App.jsx:49-71 | any number of ticks keeps "stopped ⇒ full duration" and a count of at least 1 |
| Timer.SyncOnSynced | App.jsx:49-54 | the resync does nothing on a state that already meets the invariant |
| Timer.PauseIdempotent | App.jsx:231 | pausing twice equals pausing once |
| Timer.PauseIsReset | App.jsx:231-233 | as written, Pause and Reset reach the same state |
| Tasks.JoinPlainText | App.jsx:131 | the joined title is empty exactly when every fragment is empty |
| Tasks.TaskName | App.jsx:131 | the name is never empty: it is the joined title, or "Untitled" when that is empty or missing |
| Tasks.NumberVal | App.jsx:139-143 | the property's number when it carries one, and 0 otherwise |
| Tasks.StatusName | App.jsx:134 | a present status option name is the status; a non-empty status always comes from one; otherwise "" |
| Tasks.ParseTask | App.jsx:129-136 | a parsed task keeps the page id; its name is the non-empty joined title, else "Untitled"; planned and finished are the number their property carries, and 0 when it carries none; status is the status name or "" |
| Tasks.ParseAll | App.jsx:129 | mapping the pages gives one task per page, in the same order |
| Tasks.ParseTasks | App.jsx:128-137 | the parse keeps length, order and ids; missing results give []; every name is non-empty |
| Tasks.Find | App.jsx:37 | the lookup succeeds exactly when some task has the id, and returns the first such task |
| Tasks.NextFinished | App.jsx:148-149 | the value an increment writes is the first matching task's `finished` plus one, or 1 when no task has the id |
| Tasks.SetFinished | App.jsx:161 | tasks with the id get the new `finished`; all other tasks and all other fields are unchanged; length and order are kept |
| Tasks.IncrementDistinct | App.jsx:148-161 | with unique ids, a successful increment raises that task's `finished` by exactly one |
| Tasks.FindAfterSetFinished | App.jsx:161 | after an increment a selection resolves to the same task as before, with the new count if it has the incremented id |
| Tasks.FindInParsed | App.jsx:124 | after a load the selection resolves exactly when some returned page has its id |
| Widget.StoredText | App.jsx:21-22 | a stored string, or "" when absent |
| Widget.StoredNumber | App.jsx:30 | `Number(v) \|\| d`: a missing or zero value falls back to d |
| Widget.StoredMinutes | App.jsx:24-26 | stored minutes, with the default for a missing or zero value; the result is at least 1 |
| Widget.IncrementTarget | App.jsx:59-63 | a tick requests an increment exactly when a running work session ends and the selected id names a loaded task; the request names the selected id; a stale or empty selection requests nothing |
| Widget.PomodoroWidget.TotalSeconds | App.jsx:181 | the component's `totalSeconds` expression equals the current mode's nominal duration |
| Widget.PomodoroWidget.SelectedTask | App.jsx:37 | the selected task has the selected id and is in the list; none is found exactly when no task has that id |
| Widget.PomodoroWidget.constructor | App.jsx:21-54 | mount reads the stored values or the defaults 25/5/15 minutes and "", starts in work mode, stopped, with the work duration overwriting the stored remaining seconds |
| Widget.PomodoroWidget.Sync | App.jsx:49-54 | the effect puts a stopped timer back to its nominal duration and changes only `remaining` |
| Widget.PomodoroWidget.Start | App.jsx:228-229 | Start as `Timer.Start`, changing only the running flag and count |
| Widget.PomodoroWidget.Pause | App.jsx:230-231 | Pause as `Timer.Pause` |
| Widget.PomodoroWidget.Reset | App.jsx:233 | Reset as `Timer.Reset` |
| Widget.PomodoroWidget.SelectMode | App.jsx:209-211 | a mode button as `Timer.Select`, changing only mode and count |
| Widget.PomodoroWidget.EditDuration | App.jsx:215-217 | a duration edit sets that mode's minutes to `max(1, entered)`, then the resync applies; nothing else changes |
| Widget.PomodoroWidget.Tick | App.jsx:57-71 | the tick as `Timer.Tick`; it requests the increment given by `IncrementTarget` and plays one ding exactly on completion |
| Widget.PomodoroWidget.TestDing | App.jsx:234 | the test button plays one ding and changes nothing else |
| Widget.PomodoroWidget.SetSecret | App.jsx:193 | the secret input sets only the secret |
| Widget.PomodoroWidget.SetDatabaseId | App.jsx:197 | the database id input sets only the database id |
| Widget.PomodoroWidget.SelectTask | App.jsx:252 | a radio button sets only the selected id |
| Widget.PomodoroWidget.IncrementFinished | App.jsx:145-165 | without a secret nothing is sent and nothing changes; with one a PATCH is sent; only on success does every task with the id get the first match's count (or 0) plus one; only the task list can change |
| Widget.PomodoroWidget.FetchTasks | App.jsx:79-126 | without a database id or secret no query is sent and nothing changes; the select-typed query is sent only after the first returns a non-ok response; a rejected request ends the load with no further query, no alert and the loading indicator left on; two non-ok responses show one alert and leave the list as it was; a success replaces the list by `parseTasks` of its response and clears the indicator; the selection is never touched |

## Left out

- JSX markup, styling and explanatory text (App.jsx:3-17, App.jsx:186-265): presentation only.
- `playDing` (App.jsx:167-179): Web Audio calls on floating-point gains and frequencies. A ghost counter `chimes` records each ding.
- The progress bar (App.jsx:182, App.jsx:225): floating-point division and percentages.
- `useInterval` (App.jsx:277-285): timer scheduling and the callback ref. Ticks are delivered only while running (`Tick` requires `isRunning`; `Timer.Run` stops at the first stopped state).
- HTTP details: URLs, headers, filter and sort bodies, `console` output, and the `alert` of a failed increment (App.jsx:73-77, App.jsx:82-118, App.jsx:150-163). A PATCH outcome is an ok/fail flag. A query outcome is an `Outcome`, and a successful query gives its parsed response. The alert of a failed load is the `alerted` result of `FetchTasks`.
- Widget.PomodoroWidget.FetchTasks: a rejection of `res.json()` (App.jsx:123) or `res.text()` (App.jsx:117) is not modelled; a body that arrives is taken as the parsed response.
- Writing to the local store (App.jsx:39-46): browser I/O. The constructor takes what the store holds on mount.
- String-to-number conversion of stored and entered values: stored numbers arrive as already converted numbers. A negative stored minute count cannot be given, since the widget itself never stores one.
- Fractional and NaN minute or property values (App.jsx:272, App.jsx:141): floating point. Minutes and task numbers are integers. The code has no upper clamp; `max={180}` is only an input attribute.
- JavaScript numbers are doubles, while the model uses unbounded integers. Past 2^53, `prev - 1` (App.jsx:69) stops changing `remaining`. From 1e21 on, `String` (App.jsx:183) switches to exponent notation. Neither can happen in the model, so its countdown and `mm:ss` lemmas cover durations the real widget cannot count down exactly.
- Interleaving of overlapping asynchronous loads and increments: each network operation is modelled as one atomic step.
- Values of other JSON types in the fields read by `parseTasks` (for example a title that is not an array): the response model only has the shapes the code reads, each possibly absent.
