# Woodcutter example bot, modelled in Dafny

This project models the example bot `OSRSwoodcutter` of the OSRS colour-bot
framework. The bot does three things:

- **create_options** declares three options through the options builder:
  - a running-time slider, 1 to 180 minutes;
  - a multi-select checkbox group over A, B, C;
  - a dropdown over A, B, C.
- **save_options** walks the options dictionary that the options form returns.
  - A known key has its value copied into the matching field and logged.
  - An unknown key is logged and clears `options_set`.
  - A final line says whether the options were set.
- **main_loop** repeats a simulated walk from point A to point B and a teleport
  back while running time is left.
  - It asks `status_check_passed` before every step and after every teleport,
    and returns at once when a check fails.
  - When the time is up it reports progress 1, logs completion and sets the
    status to STOPPED.

Modules:

- `Events` (events.dfy): the values an option can hold, and the log messages with
  their exact text. It also defines the events the bot sends to the inherited bot
  machinery: log lines, progress updates, status changes and status checks.
- `Options` (options.dfy): the declared option schema, plus specification
  functions for what save_options does to the fields (`Apply`), to the flag
  (`Accepted`) and to the log (`SaveLog`). It also holds the lemmas about them.
  The dictionary is a sequence of (key, value) pairs in iteration order.
- `Walking` (walking.dfy): `LoopTrace`, the specification of everything main_loop
  emits, built from one `Iteration` per pass of the outer loop and one `Walk`
  per inner loop. It also holds the lemmas about how a run walks and how it ends.
- `Woodcutter` (woodcutter.dfy): the class `WoodcutterBot`.
  - Its fields are the bot's fields, the options-builder contents and the trace
    of calls into the inherited machinery.
  - `CreateOptions`, `SaveOptions` and `MainLoop` update the fields in place,
    with the loops of the source, and are proved against the specification
    functions.
  - The body of the outer loop is split into three methods, each with its own
    contract: `WalkAndTeleport`, the inner loop `WalkToB`, and
    `ReportAndTeleport`. Together they run the same statements in the same order.

Two oracles stand in for the outside world:

- `passed(k)` is the answer of the k-th status check.
- `elapsed(t)` is `time.time() - start_time` when the outer loop condition is
  evaluated for the t-th time.

The sleeps of one outer iteration take 14 seconds, so the model requires
`elapsed(t) >= 14 * t` (`ClockAdvances`). This is enough to prove that the loop
terminates, and that a running time of 0 minutes runs no iteration at all.

What save_options does not check, read from the code itself:

- create_options declares the running-time slider with range 1..180
  (Woodcutter.py line 23), yet save_options copies any value it is given: it
  stores a running time of 0 (`RangeNotChecked`).
- save_options is not all-or-nothing. Known keys are stored even when an
  unknown key in the same dictionary makes it fail (`PartialSave`,
  `UnknownKeyIgnored`).
- The docstring of save_options says a missing option clears the flag. The code
  never checks for missing keys: an empty dictionary is accepted and logs the
  success line (`EmptyOptions`).

## Model

| member | source | states |
|---|---|---|
| Woodcutter.WoodcutterBot.constructor | src/model/osrs/Woodcutter.py:8-14 | A new bot has title "Woodcutter", the description string, running time 0, the other two options None, and no declared options or log lines |
| Woodcutter.WoodcutterBot.CreateOptions | src/model/osrs/Woodcutter.py:16-25 | Appends exactly the three declared option specs to the builder, in order: the slider `running_time` 1..180, the checkbox `multi_select_example` and the dropdown `menu_example` over A, B, C |
| Options.DeclaredKeysAreKnown | src/model/osrs/Woodcutter.py:23-42 | The keys save_options recognises are exactly the keys create_options declares, and no key is declared twice |
| Woodcutter.WoodcutterBot.SaveOptions | src/model/osrs/Woodcutter.py:27-51 | The fields become `Apply(old fields, options)`; `optionsSet` holds iff every key is known; the log gains exactly `SaveLog(options)`; nothing else changes |
| Options.Store | src/model/osrs/Woodcutter.py:35-46 | One pass of the loop body: a known key's field takes the value, and every other field keeps its value |
| Options.KeyMessage | src/model/osrs/Woodcutter.py:35-45 | The line logged for a key is the "unknown option" line naming the key iff the key is unknown; `running_time` gets the running-time line, `multi_select_example` the multi-select line and `menu_example` the menu line, each showing the stored value |
| Options.AcceptedIffAllKnown | src/model/osrs/Woodcutter.py:33-46 | The flag ends up true iff every key of the dictionary is one of the three known keys |
| Options.ApplyStoresLast | src/model/osrs/Woodcutter.py:34-43 | A known key present in the dictionary leaves its field holding the value of its last occurrence, whatever the field held before |
| Options.ApplyKeepsAbsent | src/model/osrs/Woodcutter.py:34-46 | A known key absent from the dictionary leaves its field unchanged |
| Options.UnknownKeyIgnored | src/model/osrs/Woodcutter.py:44-46 | Inserting an unknown key anywhere in the dictionary changes no field, so the known keys around it are still stored (not all-or-nothing) |
| Options.ApplyOverwrites | src/model/osrs/Woodcutter.py:34-43 | The value stored for a key present in the dictionary does not depend on the fields before the call |
| Options.ApplyIdempotent | src/model/osrs/Woodcutter.py:34-43 | Saving the same dictionary twice leaves the fields as saving it once |
| Options.KeyLogShape | src/model/osrs/Woodcutter.py:34-45 | The loop logs exactly one line per key, in iteration order, each the key's own line |
| Options.SaveLogShape | src/model/osrs/Woodcutter.py:37-51 | The log has one line per key then exactly one final line: "Options set successfully." iff every key is known, and "Failed to set options." iff some key is unknown |
| Options.EmptyOptions | src/model/osrs/Woodcutter.py:33-49 | An empty dictionary changes no field, sets the flag and logs only the success line |
| Options.PartialSave | src/model/osrs/Woodcutter.py:33-46 | With `running_time` 30 and an unknown key, the flag is cleared, yet the running time 30 is stored |
| Options.RangeNotChecked | src/model/osrs/Woodcutter.py:23-36 | A running time of 0, outside the declared slider range 1..180, is accepted and stored |
| Events.Text | src/model/osrs/Woodcutter.py:37-141 | Gives the exact string each log_msg call passes; the walk report is `WalkedLine` of the walk count |
| Events.WalkedLine | src/model/osrs/Woodcutter.py:124 | The walk report is "Player has walked from A to B  ", the count as `NatToString` prints it (no leading zeros), then "  time(s).", with two spaces on each side, and the count reads back from the digits |
| Events.NatToString | src/model/osrs/Woodcutter.py:124 | A count prints as a non-empty string of decimal digits, with a leading 0 only for 0 itself |
| Events.DecimalRoundTrip | src/model/osrs/Woodcutter.py:124 | Reading the printed digits of a count back gives the count |
| Events.RunningTimeLineText | src/model/osrs/Woodcutter.py:37 | A stored running time of 30 is logged as "Bot will run for 30 minutes." |
| Events.MultiSelectLineText | src/model/osrs/Woodcutter.py:40 | Stored checkboxes ['A', 'C'] are logged as "Multi-select example set to: ['A', 'C']", the list as Python prints it |
| Events.MenuLineTexts | src/model/osrs/Woodcutter.py:43 | The dropdown line shows the chosen string, and None when nothing was chosen |
| Events.UnknownOptionLineText | src/model/osrs/Woodcutter.py:45 | An unknown key's line names the key: "Unknown option: speed" |
| Woodcutter.WoodcutterBot.WalkToB | src/model/osrs/Woodcutter.py:96-118 | The inner loop emits exactly `Walk(passed, first, 4)`; it reports success iff its four checks pass, and then the character is at "B" with 0 steps remaining |
| Walking.FullWalk | src/model/osrs/Woodcutter.py:96-118 | A walk whose checks pass is exactly four checks, each followed by its step line: walking to B, still walking, very close to B, at point B |
| Walking.WalkSteps | src/model/osrs/Woodcutter.py:96-118 | A walk emits only status checks and step lines, and every step line directly follows a passing check |
| Walking.WalkFailure | src/model/osrs/Woodcutter.py:100-103 | A walk holds a failed check iff one of its checks fails, and then that failed check is its last event and its only failed check: the walk returns at once |
| Woodcutter.WoodcutterBot.ReportAndTeleport | src/model/osrs/Woodcutter.py:120-137 | After a completed walk: `times_walked` grows by exactly one and is reported, progress is updated, the teleport line is logged, the position is back at "A", and the next check's answer is returned |
| Woodcutter.WoodcutterBot.WalkAndTeleport | src/model/osrs/Woodcutter.py:92-137 | One pass of the outer loop emits exactly `Iteration(passed, t)`; it reports success iff all five of its checks pass, and then `times_walked` has grown by one and the position is "A" |
| Walking.IterationCounts | src/model/osrs/Woodcutter.py:120-124 | One outer iteration reports walk number t + 1 iff its walk completed, and no walk count otherwise |
| Walking.IterationEnds | src/model/osrs/Woodcutter.py:92-137 | One outer iteration emits neither progress 1, nor the completion line, nor any status change; it holds a failed check iff one of its five checks fails, and then ends with it, its only failed check |
| Woodcutter.WoodcutterBot.MainLoop | src/model/osrs/Woodcutter.py:54-142 | main_loop terminates, and the log gains exactly `LoopTrace(running_time, elapsed, passed, 0)` |
| Walking.NoTimeNoWalk | src/model/osrs/Woodcutter.py:88-90 | With running time 0 or less the loop body never runs: the run is progress 1, the completion line and STOPPED |
| Walking.Outcomes | src/model/osrs/Woodcutter.py:89-142 | If a check fails, the run stops right after it: that check is the last event and the only failed one, with none of progress 1, the completion line and STOPPED; otherwise it ends with progress 1, the completion line and STOPPED, in that order, and emits none of those earlier |
| Walking.WalksNumbered | src/model/osrs/Woodcutter.py:89-124 | The walk reports are numbered 1, 2, 3, ... without gaps, and each walk started while running time was left |
| Walking.CompletesWhenTimeIsUp | src/model/osrs/Woodcutter.py:89-142 | A run that no check stopped ends only when the time is up, at the loop condition that follows its last reported walk |

## Left out

- src/view/info_frame.py is not part of this model: it only lays out widgets and images.
- Wall-clock time and sleeping are modelled only by the `elapsed` oracle and its lower bound of 14 seconds per iteration. The sleeps themselves are not modelled.
- `ClockAdvances` assumes the wall clock never steps back. `time.time()` can step back, and then the bound `elapsed(t) >= 14 * t` fails. With running time 0 the source would then enter the loop body and divide by `end_time == 0` when it updates the progress (line 127). That run is not modelled.
- The value of the progress fraction `(time.time() - start_time) / end_time` is floating point over wall-clock time. It is recorded only as a `Fraction` progress event.
- The inherited methods of `model/bot.py` and `model/runelite_bot.py` are not part of this model:
  - `status_check_passed` is an oracle;
  - `log_msg`, `update_progress` and `set_status` append an event to `trace`;
  - the options builder is a sequence of option specs.
  - Pausing inside `status_check_passed` and the daemon thread that runs main_loop are not modelled.
- The initial value of `options_set` is set by the base class constructor, which is not part of this model. The constructor leaves it unconstrained.
- The developer `print` after a failed save is console output and is left out.
- `Events.Show` renders a list of strings as Python's `repr` does only for plain items: each item in single quotes. Python switches an item that holds a single quote and no double quote to double quotes (`["it's"]`), and escapes backslashes, quotes and control characters; none of that is modelled. Option values other than None, int, str and lists of str are not modelled.
- Woodcutter.WoodcutterBot.MainLoop requires `running_time` to hold an int. With None, `self.running_time * 60` raises a TypeError at line 89. A list or a str is repeated by `* 60` without error, and the float < list or float < str comparison of the loop condition then raises a TypeError at line 90. These exception paths are not modelled.
- Dictionary keys are unique in Python. The model admits repeated keys, and the last occurrence wins.
