# Idasen desk controller: a verified model of the move logic

This project models the control logic of `main.py` of the Idasen desk
controller, without its Bluetooth and asyncio plumbing. The controller drives
a motorised sit/stand desk over Bluetooth Low Energy. It reads the desk's raw
height, picks a direction and writes the directional command. It then follows
the height notifications: every sixth one it resends the command, and once a
reported height is within tolerance of the target it writes Stop and sets the
process-wide stop flag.

Modules, one per component of `main.py`:

- `Units` (units.dfy): raw height/speed ↔ mm and mm/s. The program's float
  division is modelled as exact division in `real`.
- `Wire` (wire.dfy): `struct.pack("<H")` command codes, and the
  `struct.unpack("<Hh")` telemetry record with its encoder. Both have exact
  round-trip lemmas.
- `DeskConfig` (config.dfy): the config layering as a fold of map updates
  (defaults, then file, then the command-line arguments that were given).
  Also the four validation checks in their order, the derived raw values,
  and the choice of target in `run`.
- `Movement` (movement.dfy): the callback's decisions as pure functions.
  `OnHeight` handles one notification. `Follow` folds it over the notified
  heights. Lemmas prove resends every sixth notification, Stop exactly on
  convergence, and that the direction is never reversed.
- `Controller` (controller.dfy): class `Desk` with the fields `count`,
  `direction`, `stopFlag`, `target`, a phase, a subscription flag and an
  append-only `log` of `(characteristic, payload)` writes. It has one method
  per event: `Start`, `OnNotify`, `OnPoll`, `OnTimeout`, `OnDisconnect` and
  `AskToStop`. `Valid()` ties the class state to `Follow` over the heights
  notified so far. The Linux/Windows switch is the constant `isLinux`.

In these points the model follows `main.py` as written:

- `move_to` is not range-checked (main.py:127-128). A target outside the
  desk's raw range 0..6500 is accepted (`MoveToIsNotRangeChecked`).
- The callback never unsubscribes (main.py:191-218). The subscription loop
  does that on its next poll of the stop flag (main.py:170-177, `OnPoll`).
  Notifications that arrive before that are still handled, so Stop can be
  written again, and a directional command can follow Stop when the count
  reaches 6 on an overshooting notification (`ResendAfterStop`).
- After a converged notification `count` is not reset (main.py:194, 202-204):
  it is one more than before (`OnHeight`).
- The comment at main.py:198-201 says the final notification, with speed 0,
  is detected and stops the move. The callback never looks at the speed; it
  stops only on `has_reached_target`. The model follows the code.
- Config errors go through `parser.error` (main.py:112-122). The model
  returns a distinct `ConfigError` for each check; exit statuses are not
  modelled.
- Booleans from the config file count as the integers 0 and 1, as Python's
  `bool` does: a tolerance of `True` is 1 mm (`BooleanToleranceIsOneMillimetre`).

## Model

| member | source | states |
|---|---|---|
| `Units.MmToRaw` | main.py:20-21 | converting the raw result back to mm gives exactly the integer mm that was passed in |
| `Units.RawToMM` | main.py:23-24 | the mm value converts back exactly to the raw value (affine map through BASE_HEIGHT, exact over the reals) |
| `Units.RawToSpeed` | main.py:26-27 | the speed times 100 is the raw value; its sign is the raw value's sign (up/down/stopped) |
| `Units.RawRange` | main.py:47-48 | the lowest height 620 mm is raw 0 and the highest, 1270 mm, is raw 6500 |
| `Units.MmToRawStrictlyIncreasing` | main.py:20-21 | mm to raw is strictly increasing |
| `Units.RawToMMStrictlyIncreasing` | main.py:23-24 | raw to mm is strictly increasing |
| `Units.WholeMillimetreRoundTrip` | main.py:20-24 | a raw height that is a multiple of 10 is a whole number of mm and converts back to itself |
| `Wire.PackU16` | main.py:35-41 | the 2 bytes are little-endian: low byte plus 256 times high byte is the code |
| `Wire.UnpackU16` | main.py:35-41 | decoding succeeds exactly on 2 bytes, fails with the length otherwise, and re-encoding gives the same bytes |
| `Wire.UnpackPackU16` | main.py:35-41 | every 16-bit code decodes back to itself |
| `Wire.Signed16` | main.py:137 | the signed reading is congruent to the 16-bit pattern modulo 65536 and negative exactly when the top bit is set |
| `Wire.Unsigned16` | main.py:137 | the pattern is congruent to the signed value modulo 65536, with the top bit set exactly for negatives |
| `Wire.SignedUnsignedInverse` | main.py:137 | the signed and unsigned 16-bit readings are mutual inverses |
| `Wire.PackTelemetry` | main.py:182 | 4 bytes: little-endian unsigned height in bytes 0-1, two's-complement speed in bytes 2-3 |
| `Wire.UnpackTelemetry` | main.py:193 | succeeds exactly on 4 bytes, fails with the length otherwise; the record re-encodes to the same bytes |
| `Wire.UnpackPackTelemetry` | main.py:137 | every in-range (height, speed) record decodes back to itself |
| `Wire.TelemetryExample` | main.py:182 | `[0x64,0x00,0xF6,0xFF]` decodes to height 100, speed -10 |
| `Wire.CommandBytes` | main.py:35-41 | Up = [71,0], Down = [70,0], Stop = [255,0], Reference-Input Stop/Up/Down = [0x01,0x80]/[0x00,0x80]/[0xFF,0x7F], each decoding back to its code |
| `DeskConfig.Defaults` | main.py:51-64 | the defaults name stand 1040 mm, sit 683 mm, tolerance 20 raw, no preset or move_to, and no mac address, so on their own they are refused with MissingMacAddress |
| `DeskConfig.Layered` | main.py:77-110 | the layered config holds exactly the keys of the defaults, the file and the given arguments, and a given argument's value is the one kept |
| `DeskConfig.Update` | main.py:77 | keys of the override replace those of the base; other keys keep their base value |
| `DeskConfig.GivenArguments` | main.py:109 | exactly the arguments whose value is not None are kept, unchanged |
| `DeskConfig.LayeredPrecedence` | main.py:51-110 | a given argument wins over the file, which wins over the default |
| `DeskConfig.UnsetArgumentIsTransparent` | main.py:109-110 | an argument left unset does not hide the file or default value |
| `DeskConfig.Message` | main.py:112-122 | the range errors print "greater than 620" and "less than 1270"; a non-number error names its key |
| `DeskConfig.MessagesDistinct` | main.py:112-122 | the four validation failures have four distinct messages |
| `DeskConfig.ToleranceRaw` | main.py:126 | the raw tolerance is 10 times the tolerance in mm (a boolean counting as 0 or 1), and defined exactly for numeric and boolean values |
| `DeskConfig.BooleanToleranceIsOneMillimetre` | main.py:126 | a tolerance of True is raw 10, of False raw 0 |
| `DeskConfig.ToleranceRoundingIsExact` | main.py:126 | an integer distance is within 10·tolerance exactly when it is within the rounded-down integer raw tolerance |
| `DeskConfig.Validate` | main.py:112-128 | each of the four errors is returned exactly when its check is the first to fail, in the source's order; an accepted config has 0 ≤ sit_raw < stand_raw ≤ 6500, raw values from mmToRaw (booleans as 0/1), and move_to_raw exactly when move_to is truthy |
| `DeskConfig.ValidateAcceptsExactly` | main.py:112-122 | validation accepts exactly when mac is present, 620 ≤ sit < stand ≤ 1270 and the values are numbers |
| `DeskConfig.DefaultsAccepted` | main.py:51-64 | the defaults plus a mac address validate to stand 4200, sit 630, tolerance 20 raw |
| `DeskConfig.SelectTarget` | main.py:285-331 | no target when scanning or monitoring; otherwise sit, then stand, then move_to, in that order of precedence; with neither sit nor stand set the target is the derived move_to_raw |
| `DeskConfig.PresetTargetsInRange` | main.py:320-327 | the sit or stand target of an accepted config lies in raw 0..6500 |
| `DeskConfig.MoveToIsNotRangeChecked` | main.py:127-128 | a move_to of 2000 mm is accepted with raw target 13800 |
| `Movement.DirectionFor` | main.py:185 | UP exactly when the target is above the initial height, DOWN otherwise |
| `Movement.HasReachedTarget` | main.py:140-143 | reached exactly when target − tolerance ≤ height ≤ target + tolerance |
| `Movement.HasReachedTargetSymmetric` | main.py:140-143 | the test is symmetric in height and target |
| `Movement.HasReachedTargetBoundary` | main.py:140-143 | true at exactly the tolerance on either side, false one raw unit beyond |
| `Movement.MoveCommand` | main.py:145-149 | written to the Command characteristic; the payload decodes to 71 for UP, 70 for DOWN |
| `Movement.StopCommands` | main.py:151-157 | Stop (255) on Command, then on Linux only Reference-Input Stop (32769) on Reference Input |
| `Movement.StopIsNotMove` | main.py:35-37 | no stop write equals a directional command |
| `Movement.OnHeight` | main.py:191-218 | keeps direction and target; asks to stop exactly on convergence, writing Stop and leaving the count one higher (not reset); otherwise adds one to the count and, when that reaches 6, resets it to 0 and writes the move's own command, else writes nothing |
| `Movement.Follow` | main.py:191-218 | the direction and target do not change over any sequence of notifications |
| `Movement.FollowAsksStopIffConverged` | main.py:202-204 | a move asks to stop exactly when some notified height is within tolerance |
| `Movement.FollowResendsEverySixth` | main.py:207-218 | before convergence, the count is the number of notifications modulo 6 and the writes are one directional command per 6 notifications |
| `Movement.FollowStopsOnConvergence` | main.py:202-204 | the first converged notification appends exactly the Stop writes after the resends and asks to stop |
| `Movement.ResendAfterStop` | main.py:191-218 | when convergence comes with the count at 5, an overshooting next notification writes the directional command after Stop |
| `Movement.ResendAfterStopExample` | main.py:191-218 | target 100, tolerance 10, heights 0,0,0,0,100,200 on Linux write Stop, Reference-Input Stop, then UP |
| `Movement.FollowNeverReverses` | main.py:213-218 | the opposite directional command is never written |
| `Controller.Desk.constructor` | main.py:159 | the stop flag starts unset, nothing written, not subscribed |
| `Controller.Desk.AskedToStop` | main.py:161-163 | returns the stop flag |
| `Controller.Desk.AskToStop` | main.py:165-167 | sets the stop flag, changing nothing else; repeating it changes nothing |
| `Controller.Desk.OnDisconnect` | main.py:306-309 | always sets the stop flag; reports the lost connection exactly when the flag was not yet set |
| `Controller.Desk.Start` | main.py:179-227 | decodes the reading; direction UP iff target > initial height; already within tolerance: no write and no subscription; otherwise exactly the first directional command and a subscription |
| `Controller.Desk.OnNotify` | main.py:191-218 | a decoded notification updates count, log and stop flag exactly as OnHeight says and leaves direction and target alone; an undecodable one changes nothing; the flag is never cleared |
| `Controller.Desk.OnPoll` | main.py:170-177 | once the stop flag is set, unsubscribes and ends the move; otherwise keeps waiting |
| `Controller.Desk.OnTimeout` | main.py:228-232 | unsubscribes and ends the move as timed out, without writing and without touching the stop flag |
| `Controller.Desk.ResendHistory` | main.py:207-218 | while the stop flag is unset, count = notifications mod 6 and the log is the first command plus one resend per 6 notifications |
| `Controller.Desk.NeverReverses` | main.py:185 | a move never writes the command of the opposite direction |
| `Controller.Desk.StopFlagSetOnConvergence` | main.py:202-204 | once a notified height has converged the stop flag is set |

## Left out

- Bluetooth I/O. The model does not cover connecting, scanning, or reading,
  writing and enabling notifications on characteristics. Writes are appended
  to `log`. The height reading and the notifications are method inputs.
  Enabling and disabling notifications is the `subscribed` field.
- asyncio scheduling. The model leaves out `gather`, `wait_for`,
  `create_task` and the sleeps. The spawned write tasks appear in `log` in
  the order they were created. The model does not capture a write task
  cancelled by the timeout before it ran, or interleaving between tasks.
  The timeout is the abstract event `OnTimeout`.
- Signal handlers and the event-loop lifecycle. A signal is modelled only by
  its effect, `AskToStop`.
- The pickle device cache, YAML loading, argparse parsing and the monitor
  mode's printing are file and library I/O. The layering of their results is
  modelled as map updates.
- `os._exit`, `traceback` and the exit statuses are not modelled.
- Float formatting in the `print` calls is not modelled. Float division is
  modelled as exact `real` division.
- DeskConfig.Validate: only integers and booleans (as 0 and 1) are accepted
  as heights and `move_to`. These cases are refused with `NotANumber`, where
  the program behaves differently:
  - A float height or float `move_to` from the config file. The program
    carries on with it in float arithmetic.
  - A string tolerance. Python accepts `10 * "2"` as string repetition at
    main.py:126. The TypeError comes only from the first `has_reached_target`
    in `move_to` (main.py:143, 222), when the initial height is compared. This
    happens before any write.
  - String heights. Two strings compare as strings in Python, so the
    sit/stand check at main.py:115 may fail with its own message. Otherwise
    the comparison with `BASE_HEIGHT` at main.py:118 raises TypeError.
  - Any other value Python cannot compare or multiply. The program raises
    TypeError.
- Controller.Desk.OnNotify: what happens to the exception raised by an
  undecodable notification after the callback (the BLE library handles it)
  is not modelled. The model only says the callback changes nothing.
- Controller.Desk.Start: a malformed initial reading raises out of `move_to`
  and ends the run. The model records this as the ending `UnreadableHeight`.
