# Chess clock server, modelled in Dafny

`serwer.py` runs on a Raspberry Pi next to a chess board. It keeps a two-sided
chess clock (`ChessSystem`): the bot's elo, white's and black's remaining
seconds, the side to move and whether a game is running. Three things change
that state, all on one asyncio event loop:

- a timer task (`update_timer`) that takes one second per second from the side to move and stops the game when a clock runs out;
- a button task (`watch_buttons`) that hands the move to the other side when the mover presses their button;
- the Bluetooth write handler (`on_write`), which starts a new game when the phone sends `START_GAME:ELO:<elo>:TIME:<minutes>`.

The clock faces show each clock as `MM:SS`, computed with `divmod(t, 60)`.

The model is split by concern:

- `wrappers.dfy`, module `Wrappers`: the `Option` type used where Python raises.
- `decimal.dfy`, module `Decimal`: `str(n)`, `int(s)` and `f"{n:02d}"` on decimal text.
- `command.dfy`, module `Command`: `split(":")` and the START_GAME parse of `on_write`.
- `display.dfy`, module `Display`: the `divmod` split and the `MM:SS` text.
- `clock.dfy`, module `Clock`: the clock state as a value and its three transitions as functions, with the lemmas about them.
- `server.dfy`, module `Server`:
  - the `ChessSystem` class, whose fields the step methods update in place, each proved equal to the matching `Clock` transition;
  - `OnWrite`;
  - the interleaving of the three tasks as a sequence of events.

The phone application, which sends `START_GAME:ELO:<elo>:TIME:<minutes>`, is not modelled.

## Model

| member | source | states |
|---|---|---|
| Clock.NewGame | serwer.py:116-122 | a new game is running, white to move, with the given elo and both clocks at minutes*60; its clocks are non-negative exactly when minutes >= 0 |
| Clock.Tick | serwer.py:88-95 | a stopped game is unchanged; otherwise only the mover's clock changes, by exactly one second when it is positive; elo, turn and the other clock stay; afterwards the game runs exactly when both clocks are positive |
| Clock.PressButtons | serwer.py:102-113 | only the turn can change; it changes exactly when a game runs and the button of the side to move is high, and then passes to the opponent |
| Clock.TickKeepsClocksNonNegative | serwer.py:89-92 | one tick keeps non-negative clocks non-negative |
| Clock.TicksKeepClocksNonNegative | serwer.py:86-97 | any number of ticks keeps non-negative clocks non-negative |
| Clock.TicksWhenStopped | serwer.py:88 | ticks change nothing once the game has stopped |
| Clock.TicksDrainMover | serwer.py:88-95 | with both clocks positive, k ticks (k up to the mover's time) take exactly k seconds from the mover, nothing from the opponent, and stop the game exactly at k = mover's time |
| Clock.GameLastsItsMinutes | serwer.py:116-122 | a new game of m >= 1 minutes with no button press runs exactly m*60 ticks, then stops with white at 0 and black at m*60 |
| Server.ChessSystem.constructor | serwer.py:51-58 | the clock starts at elo 800, 600 seconds each, white to move, no game running |
| Server.ChessSystem.StartNewGame | serwer.py:116-122 | sets elo, both clocks to minutes*60, the turn to white and starts the game |
| Server.ChessSystem.UpdateTimerStep | serwer.py:88-95 | the fields after one timer pass are exactly Clock.Tick of the fields before |
| Server.ChessSystem.WatchButtonsStep | serwer.py:102-113 | the fields after one button pass are exactly Clock.PressButtons of the fields before; clocks, elo and the running flag are untouched |
| Server.OnWrite | serwer.py:130-142 | a payload that parses starts the game it names; any other payload, including one with the prefix but bad fields, leaves the object unchanged |
| Server.Step | serwer.py:88-140 | a timer pass is Tick, a button poll is PressButtons of the levels read, a write that parses is NewGame of the parsed elo and minutes (elo set, both clocks minutes*60, white to move, running), and a write that does not parse changes nothing; timer passes and button polls keep the elo |
| Server.Run | serwer.py:153-154 | the clock after any interleaving of the three tasks' steps; a run made only of button polls leaves the clocks, the elo and the running flag as they were |
| Server.RunKeepsClocksNonNegative | serwer.py:86-142 | over any interleaving of ticks, button polls and writes, clocks stay non-negative as long as no accepted command has negative minutes |
| Server.RunWithoutCommands | serwer.py:86-124 | without an accepted START_GAME command, elo never changes, clocks never grow, a stopped game never restarts and stays exactly as it is |
| Decimal.NatToString | serwer.py:75 | the decimal text of n is a non-empty digit string without leading zero, one digit long exactly when n < 10 |
| Decimal.IntToString | serwer.py:75 | str(x): non-empty, no ':', starts with '-' exactly when x < 0, at most two characters for -10 < x < 100 |
| Decimal.ParseInt | serwer.py:138-139 | int(s) succeeds exactly on an optional '-' followed by digits; a negative result comes only from a '-' and an unsigned literal gives a non-negative value |
| Decimal.ParseIntOfIntToString | serwer.py:138-139 | int(str(x)) == x for every integer x |
| Decimal.Format02d | serwer.py:75 | the 02d text has at least two characters, no ':', and exactly two for 0 <= n < 100 |
| Decimal.ParseIntOfFormat02d | serwer.py:75 | reading the zero-padded text back gives n |
| Command.Split | serwer.py:137 | split(":") gives at least one field, no field contains ':', and joining the fields with ':' gives the input back |
| Command.SplitJoin | serwer.py:137 | splitting a ':'-join of ':'-free fields gives those fields back |
| Command.ParseStartCommand | serwer.py:134-139 | no prefix or fewer than five fields gives None; a result is the values of fields 2 and 4 |
| Command.ParseFields | serwer.py:137-139 | a payload of five or more fields starting START_GAME, ELO parses exactly when fields 2 and 4 are integers, to their values, whatever field 3 and any extra fields hold |
| Command.PrefixGivesHeadFields | serwer.py:134-137 | a payload that starts with the prefix splits into at least three fields, the first two being START_GAME and ELO, so ParseFields applies to every payload with five or more fields |
| Command.ParseFormatted | serwer.py:134-140 | "START_GAME:ELO:" + str(e) + ":TIME:" + str(m) parses to (e, m) for all integers e and m |
| Command.ParseRejectsBadElo | serwer.py:137-142 | a payload with the prefix whose elo field is not an integer parses to None |
| Display.DivMod60 | serwer.py:74-81 | divmod(t, 60) gives (m, s) with 0 <= s < 60 and m*60 + s == t; for t >= 0 also 0 <= m <= t |
| Display.DivMod60Unique | serwer.py:74 | that pair is the only one with s in [0, 60) |
| Display.ClockText | serwer.py:74-75 | a clock under 100 minutes shows as five characters with ':' in the middle |
| Display.ClockTextReadsBack | serwer.py:74-75 | the MM:SS text splits into two integer fields m and s with 0 <= s < 60 and m*60 + s == t |

## Left out

- GPIO setup and reads (serwer.py:24-28, 104, 110): hardware input. The levels of the two buttons are parameters of `WatchButtonsStep` and `PressButtons`.
- Screen setup, colours, fonts and all drawing (serwer.py:30-49, 60-84): rendering through luma and PIL. Only the `divmod` split and the `MM:SS` text are modelled.
- The Bluetooth GATT server and its UUIDs (serwer.py:17-18, 128, 144-152): network plumbing. `OnWrite` takes the payload as already-decoded text. A payload that is not valid UTF-8 is not modelled; in the source it raises outside the `try`.
- The asyncio loops, sleeps, the 0.5 s debounce pause and task creation (serwer.py:86-87, 97, 99-101, 107, 113-114, 153-159): scheduling. Each loop pass is one atomic step. `Server.Run` takes an arbitrary order of steps, so it does not model timing: with real timing, presses during a debounce pause are not seen.
- `chess.Board` and the unused engine path (serwer.py:2-3, 19, 52-53, 120): foreign library state that the clock never reads.
- `print` logging and the `KeyboardInterrupt` cleanup (serwer.py:123, 132, 142, 162-165): output only.
- Decimal.ParseInt: Python's `int()` also accepts surrounding whitespace, a leading `+`, `_` between digits and non-ASCII digits. The model accepts only an optional `-` followed by ASCII digits, so it rejects commands that the server would accept in those forms.
- Command.ParseStartCommand: the source reads field 2 before checking that field 4 exists. Both failures are caught, so the model checks the field count first. The result is the same.
