# Mirror mount controller: protocol client, device emulator and axis bookkeeping

This project models the core of a controller for motorised kinematic mirror
mounts driven by MKM stepper firmware on an Arduino:

- the **stepper controller** client (`mirror_lib.py`), which turns axis and
  sensor operations into colon-delimited ASCII requests
  (`STPM:<m>:ST?`, `STPM:<m>:RST`, `STPM:<m>:VEL:<v>`, `STPM:<m>:REL:<s>`,
  `STPM:<m>:ABS:<s>`, `SENS:<c>:ST?`) and decodes status replies by splitting
  them on `:` into integers;
- the **FakeSerial** emulator (`mirror_lib.py`), which records the last request
  and a dict of axis positions, applies ABS and REL moves when they are
  written, and answers only when it is read;
- the **per-axis bookkeeping of the mirror window** (`mirror_gui.py`): the
  positions and lower and upper bounds of the eight axes, how requested bounds
  are accepted or replaced, clamped absolute moves, the increment and
  decrement buttons, zeroing, the list of axes selected for optimisation, the
  Stop button and the startup bounds.

The window object owns a stepper controller whose port is the emulator, so the
whole chain (window → controller → emulator) is verified together, as the
program runs when no hardware answers.

Modules, one file each:

- `pytext.dfy` (`PyText`): the Python text built-ins the protocol uses:
  `'{:d}'.format`, `int()`, `str.split`, the UTF-8 byte length.
- `protocol.dfy` (`Protocol`): the request datatype, its wire form, and the
  decoding of status replies.
- `fakedevice.dfy` (`FakeDevice`): the emulator's position update and reply as
  functions, and the `FakeSerial` class that updates its fields in place.
- `controller.dfy` (`Controller`): the `StepperController` class.
- `bounds.dfy` (`Bounds`): the pure per-axis rules the window applies.
- `gui.dfy` (`Gui`): the `MirrorGui` class holding the window's axis state.

Behaviour of the code that the model keeps as written:

- The emulator's status reply is meant to carry the axis's recorded position:
  `read_until` (mirror_lib.py:65-66) formats `self.pos[split[1]]` into it.
  But it looks the axis up by the *string* field of the request in a dict
  whose keys are the *ints* that `write` stores (mirror_lib.py:53-58), so the
  lookup never hits and every status reply is `0:1:0`. The model keeps
  Python's dynamic dict keys (`Key = IntKey | StrKey`) and proves that the
  reply is `0:1:0` whatever moves came before
  (`FakeDevice.StatusReplyIgnoresMoves`); as a consequence every axis reads
  position 0 at startup.
- `reset_pos` (mirror_lib.py:18-19) sends an RST request; the emulator records
  it as the last request and changes no position. `Gui.MirrorGui.Zero` states
  that the emulator's record of the axis is left as it was.
- `optimize` builds a `callback` that returns whether the run was stopped
  (mirror_gui.py:361-362), but never passes it to `minimize`
  (mirror_gui.py:365), so Stop cannot end a run early. The optimiser is not
  part of this model.

## Model

| member | source | states |
|---|---|---|
| PyText.FormatInt | mirror_lib.py:13 | the decimal text of an integer: non-empty, digits only except a leading '-', which appears exactly for negative numbers |
| PyText.ParseInt | mirror_lib.py:16 | int() succeeds exactly when the text without its surrounding whitespace is a decimal literal (digits after an optional '+' or '-'), so empty and blank texts raise ValueError; a negative result comes only from a leading '-' |
| PyText.ParseFormat | mirror_lib.py:50-51 | int() recovers every integer from its '{:d}' text, so the emulator reads back exactly the axis and value the controller wrote |
| PyText.Split | mirror_lib.py:48 | str.split(':') as written: always at least one piece; what the pieces are is stated by SplitPiecesPlain, SplitJoinsBack and SplitJoin |
| PyText.SplitPiecesPlain | mirror_lib.py:48 | no piece str.split(':') yields holds ':' |
| PyText.SplitJoinsBack | mirror_lib.py:48 | joining the pieces str.split(':') yields with ':' gives back the text |
| PyText.SplitJoin | mirror_lib.py:63 | splitting on ':' recovers exactly the pieces that were joined, when no piece holds ':' |
| PyText.Utf8Length | mirror_lib.py:60 | the UTF-8 byte length lies between the character count and four times it, and equals the character count for ASCII text |
| Protocol.Encode | mirror_lib.py:13-34 | the request text each controller operation formats; its fields are stated by EncodeSplits |
| Protocol.EncodeSplits | mirror_lib.py:12-34 | every request the controller builds is ASCII and splits on ':' into exactly its fields (3 for ST?, RST and SENS, 4 for VEL, REL and ABS) |
| Protocol.ParseAll | mirror_lib.py:16 | the list comprehension of int() succeeds iff every field is an integer, and then gives one integer per field, in order |
| Protocol.StatusRoundTrip | mirror_lib.py:16 | a status reply printed as integers joined by ':' decodes to exactly those integers |
| FakeDevice.Apply | mirror_lib.py:52-58 | reference semantics: ABS sets the axis to the target, REL adds the delta to the axis (from 0 when unset), every other request leaves the positions alone, and no other axis changes |
| FakeDevice.WriteEffect | mirror_lib.py:47-58 | write's update of the position dict as written, with int() on the axis and value fields; stated by WriteEffectFrame for every text and by WriteEncoded for every request the controller sends |
| FakeDevice.WriteEffectFrame | mirror_lib.py:46-58 | the position update of a written request: ValueError only for a 4-field STPM request; positions change only for a 4-field STPM ABS or REL request with an integer axis, and only at that axis |
| FakeDevice.WriteEncoded | mirror_lib.py:46-58 | every request the controller can send is applied exactly as the reference semantics says (ABS overwrites, REL adds, 50 then -20 gives 30, other requests change nothing) |
| FakeDevice.ReplyTo | mirror_lib.py:62-74 | read_until's reply as written, from the last request and the positions; stated by StatusReplyIgnoresMoves and ReplyToEncoded |
| FakeDevice.StatusReplyIgnoresMoves | mirror_lib.py:62-68 | with only int keys stored, any 3-field STPM ...:ST? request is answered '0:1:0', whatever moves preceded it |
| FakeDevice.ReplyToEncoded | mirror_lib.py:62-74 | a status request is answered '0:1:0', a sensor request with the sensor value of the current positions, and reset, velocity and move requests with the empty string |
| FakeDevice.IdleStatusDecodes | mirror_lib.py:68 | the fixed reply '0:1:0' decodes to [0, 1, 0] |
| FakeDevice.FakeSerial.constructor | mirror_lib.py:41-44 | a new emulator has no last request and no positions |
| FakeDevice.FakeSerial.Write | mirror_lib.py:46-60 | last_cmd becomes the request; positions follow WriteEffect; the UTF-8 byte length is returned, or ValueError raised with positions unchanged |
| FakeDevice.FakeSerial.ReadUntil | mirror_lib.py:62-74 | the reply is the function of the last request and the positions, and reading changes neither |
| FakeDevice.FakeSerial.Flush | mirror_lib.py:79-80 | flushing changes no emulator state |
| FakeDevice.FakeSerial.Close | mirror_lib.py:76-77 | closing does nothing |
| Controller.StepperController.constructor | mirror_lib.py:8-10 | the controller keeps its port and axis count |
| Controller.DecodeStatus | mirror_lib.py:16 | get_status's [int(i) for i in reply.split(':')]; stated by ParseAll, StatusRoundTrip and StatusExchange |
| Controller.DecodeSensor | mirror_lib.py:37 | get_sensor's float(reply), with the sensor value kept symbolic; a text reply is rejected (see Left out) |
| Controller.StatusExchange | mirror_lib.py:62-68 | a status request leaves the emulator's positions alone, and its reply decodes to [0, 1, 0] whatever the positions are |
| Controller.StepperController.GetStatus | mirror_lib.py:12-16 | writes STPM:<m>:ST?, flushes, reads one reply; the positions are untouched and the result against the emulator is always [0, 1, 0] |
| Controller.StepperController.ResetPos | mirror_lib.py:18-19 | writes STPM:<m>:RST without a flush and never reads; the emulator's positions are unchanged |
| Controller.StepperController.SetVel | mirror_lib.py:21-23 | writes STPM:<m>:VEL:<v> and flushes, never reads; positions unchanged |
| Controller.StepperController.MoveRel | mirror_lib.py:25-27 | writes STPM:<m>:REL:<s> and flushes, never reads; the positions become those of the reference semantics, so the axis moves by s (from 0 when unset) and no other axis changes |
| Controller.StepperController.MoveAbs | mirror_lib.py:29-31 | writes STPM:<m>:ABS:<s> and flushes, never reads; the axis is set to s, no other axis changes |
| Controller.StepperController.GetSensor | mirror_lib.py:33-37 | writes SENS:<c>:ST?, flushes, reads one reply, and returns the sensor value of the positions at that moment |
| Controller.RelativeMovesThenStatus | mirror_lib.py:54-58 | on a fresh emulator, REL 50 then REL -20 leaves the axis at 30 while its status query still answers [0, 1, 0] |
| Bounds.NewMin | mirror_gui.py:248-251 | the stored lower bound is at most the position and the upper bound; it equals the request exactly when the request is at most both; otherwise it is the smaller of the two |
| Bounds.NewMax | mirror_gui.py:260-263 | the stored upper bound is at least the position and the lower bound; it equals the request exactly when the request is at least both; otherwise it is the larger of the two |
| Bounds.Clamp | mirror_gui.py:293 | with lo <= hi the target lies in [lo, hi], is the request when the request is inside, and is the point of [lo, hi] nearest the request; with lo > hi it is hi |
| Bounds.IncrementTarget | mirror_gui.py:319 | the increment target is pos + inc saturated at the upper bound |
| Bounds.DecrementTarget | mirror_gui.py:325 | the decrement target is pos - inc saturated at the lower bound |
| Bounds.StepTargetsStayInBounds | mirror_gui.py:317-326 | for an axis inside its bounds and inc >= 0, the increment target lies between pos and hi and the decrement target between lo and pos, so clamping leaves them unchanged |
| Bounds.ZeroRepairStoresZero | mirror_gui.py:282-289 | for an axis inside its bounds, set_max(0) on a negative upper bound and set_min(0) on a positive lower bound both store 0, giving bounds that hold 0 |
| Bounds.StartupBoundsAsWritten | mirror_gui.py:219-223 | the bounds startup gives an axis read at p, as written, always contain p |
| Bounds.StartupWindow | mirror_gui.py:222-223 | the reference window the as-written and the corrected startup are compared with: 100 steps below and above the position read |
| Bounds.StartupBoundsCorrected | mirror_gui.py:219-223 | startup with set_min(i, pos - 100) run once more after set_max gives every position read exactly the reference window |
| Bounds.StartupAsWrittenMatchesWindow | mirror_gui.py:219-223 | startup as written gives the intended window iff the position read is at most 200; above that the lower bound is 100 |
| Bounds.StartupWindowMissedAt500 | mirror_gui.py:219-223 | an axis read at 500 gets [100, 600] instead of [400, 600] |
| Bounds.CheckedIndices | mirror_gui.py:231-235 | the list holds exactly the checked indices, each once, strictly ascending |
| Gui.MirrorGui.constructor | mirror_gui.py:217-223 | startup on the emulator sends one status query per axis, in axis order (write, flush, read each, the last request being axis 7's), reads every axis as 0 and leaves it inside [-100, 100], the intended window; nothing runs, both buttons are disabled, the step is 1 |
| Gui.ReadPositions | mirror_gui.py:219 | get_status(i)[0] for axes 0 to n - 1: every axis reads 0, the emulator's positions are kept, the last request is axis n - 1's status query, and the trace grows by exactly the write, flush and read of each query in order |
| Gui.StatusReadsPrefix | mirror_gui.py:219 | querying the first m axes gives 3m events, a prefix of the events of querying more axes |
| Gui.StatusReadsAt | mirror_gui.py:219 | events 3j to 3j + 2 of the startup queries are the write, flush and read of axis j's status query |
| Gui.MirrorGui.ApplyStartupBounds | mirror_gui.py:219-223 | from the initial bounds, set_min(i, pos - 100) then set_max(i, pos + 100) on every axis leaves each axis with the as-written startup bounds, which hold its position |
| Gui.MirrorGui.SetOptAxes | mirror_gui.py:231-240 | opt_axes becomes the ascending list of checked axes, and Optimize is enabled iff it is non-empty |
| Gui.MirrorGui.SetMin | mirror_gui.py:243-252 | only axis i's lower bound changes, to NewMin; afterwards it is at most the position and the upper bound, and every axis that was inside its bounds still is |
| Gui.MirrorGui.SetMax | mirror_gui.py:255-264 | only axis i's upper bound changes, to NewMax; afterwards it is at least the position and the lower bound, and every axis that was inside its bounds still is |
| Gui.MirrorGui.SetInc | mirror_gui.py:267-269 | the manual step becomes int() of the menu text, or stays as it was when int() raises |
| Gui.MirrorGui.SetPosition | mirror_gui.py:277-279 | only the position of the given axis changes |
| Gui.MirrorGui.Zero | mirror_gui.py:282-289 | the axis is recorded at 0, its bounds become min(lo, 0) and max(hi, 0), no other axis changes, one RST request is written and the emulator's positions are unchanged |
| Gui.MirrorGui.AbsMove | mirror_gui.py:292-314 | the axis ends at the clamped target and stays inside its bounds; when it was already there nothing is sent and None is returned, otherwise exactly one ABS request is written and flushed, the emulator holds the target and the target is returned |
| Gui.MirrorGui.Increment | mirror_gui.py:317-320 | the axis moves to the clamped increment target; with inc >= 0 that is pos + inc saturated at the upper bound, never below the old position; when the target is the old position nothing is sent and the emulator is untouched, otherwise exactly one ABS request to the target is written and flushed and the emulator records the axis there |
| Gui.MirrorGui.Decrement | mirror_gui.py:323-326 | the axis moves to the clamped decrement target; with inc >= 0 that is pos - inc saturated at the lower bound, never above the old position; when the target is the old position nothing is sent and the emulator is untouched, otherwise exactly one ABS request to the target is written and flushed and the emulator records the axis there |
| Gui.MirrorGui.Stop | mirror_gui.py:369-383 | the running flag ends false; when a run was going on Stop is disabled and Optimize enabled, otherwise nothing changes |
| Gui.RepeatedAbsMove | mirror_gui.py:292-295 | two moves of an axis to the same target send at most one command: the second returns None |
| Gui.StopTwice | mirror_gui.py:369-372 | stopping twice leaves the same state as stopping once |

## Left out

- Window construction and presentation: widgets, layouts, labels, the
  position and bound text fields, the plot and its 3000-sample history, port
  enumeration and the dialog that picks a port, the 100 ms sensor timer and
  `read_sensor`. Only the enabled state of the Optimize and Stop buttons is
  kept, as two booleans; the other buttons' enabling is not modelled.
- `optimize`: it hands the search to scipy's Nelder-Mead and its objective is
  floating point (`round(0.001 * x)`, logarithmic barrier terms).
- The real-hardware branch of `abs_move` (`check_done`): it is timer-driven
  and reads field 3 of a three-field status reply (mirror_gui.py:300). It
  builds its timer as `QtWidgets.QTimer` (mirror_gui.py:305), which PyQt5 does
  not provide because QTimer lives in QtCore, and calls `setSingleShot(100,
  check_done)` (mirror_gui.py:306), though `setSingleShot` takes a single
  bool. Only the branch for the emulated device is modelled, so the
  window's `simulated` flag is not a field of the model.
- The `buttons` argument of `abs_move`, `increment` and `decrement`, which only
  disables and re-enables widgets.
- `set_min` and `set_max` called with no value, which read the value from the
  bound's text field: that text belongs to the window.
- `set_input`, which only selects the sensor channel that `read_sensor` and
  `optimize` sample.
- The synthetic sensor value `exp(-sum(0.0001 * p * p))` and `float()`: the
  sensor value is kept symbolic as the positions it is computed from.
- `Controller.DecodeSensor` treats every text reply as something `float()`
  rejects; this holds for the only text replies the emulator produces (`''`
  and `<n>:1:0`).
- A real serial port, byte decoding on it, `print` and `warnings.warn`: these
  are I/O. Request bytes are modelled as the text whose UTF-8 encoding they
  are, so payloads that are not valid UTF-8 are not represented.
- PyText.ParseInt: accepts a sign, ASCII digits and surrounding ASCII
  whitespace; the underscores between digits, non-ASCII digits and non-ASCII
  whitespace that Python's `int()` also accepts are not modelled.
- Axis indices: the window's methods require an index in 0..7, which is what
  every button and check box passes; Python's negative indexing and IndexError
  are not modelled.
- `FakeSerial.close` does nothing and is modelled as an empty method.

## Findings

| source | as written | input that shows it | evidently intended | confidence | as-written member | corrected member |
|---|---|---|---|---|---|---|
| mirror_gui.py:219-223 | startup calls set_min(i, pos - 100) while the upper bound is still the initial 100, and set_max(i, pos + 100) only afterwards | an axis read at position 500 gets bounds [100, 600] | bounds [pos - 100, pos + 100] | medium; not executed | Bounds.StartupWindowMissedAt500 | Bounds.StartupBoundsCorrected |

The as-written startup and the reference window agree for every position up
to 200 (`Bounds.StartupAsWrittenMatchesWindow`); the corrected startup, which
repeats set_min after set_max, agrees with it for every position
(`Bounds.StartupBoundsCorrected`). The emulator always reports position
0, so `Gui.MirrorGui.constructor` runs the startup code as written and still
meets the intended window, which its postcondition states.
