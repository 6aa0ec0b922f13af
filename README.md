# microrganist pedal translator in Dafny

microrganist turns a three-pedal USB foot pedal into a virtual keyboard. Each
report the pedal sends carries a state byte. Bit 0 is the left pedal, bit 1
the mid pedal and bit 2 the right pedal. The bridge compares that byte with
the byte of the previous report. For every pedal whose bit flipped, it writes
one key event to the virtual keyboard, then one sync. The key codes are left
alt for the left pedal, left control for mid and left shift for right. The
event value is 1 for a press and 0 for a release.

The project models that translator in three modules:

- `decoder.dfy` (module `Decoder`) models the pedal masks and the key
  binding table. `Ops` is the bridge's own XOR/mask/shift arithmetic on a
  `bv8` state byte, and `Decode` turns it into the list of edges. Each edge
  is a key code and a value. `Expected` is an independent reference decoding
  that uses direct masking (a pedal is pressed when its bit is set). The
  lemmas prove that the shift arithmetic agrees with it for every pair of
  bytes.
- `keyboard.dfy` (module `Keyboard`) models the events written to the
  virtual keyboard (`Key(code, value)` for `ui.write`, `Syn` for `ui.syn`).
  `Writes` is what a list of edges writes. `Replay` gives the set of keys a
  keyboard holds down after a list of events. `KeysTrackPedals` proves that
  the keys held after one report are exactly the bound keys of the pedals
  held in that report.
- `poll_loop.dfy` (module `PollLoop`) models the read loop as the class
  `Translator`, with the mutable `previousState` byte and the event log.
  `Outcome` is what one `dev.read` gives back: a report, a timeout
  (`USBTimeoutError`) or any other `USBError`. `Step` handles one read
  outcome. A report that unpacks is decoded, stored and emitted. A timeout or a USB error changes nothing. A report that is
  not exactly two bytes leaves the loop. `Emit` is the `for` loop over the
  three ops. `Run` stands in for the endless `while True` over a finite list
  of read outcomes. `RunFrom` is the specification of a run, written as a
  fold of `Next` over the outcomes. `Valid` is the invariant that the
  virtual keys match the pedals. The constructor establishes it, and `Step`
  and `Run` keep it.

Key codes are the Linux ones from `input-event-codes.h`: `KEY_LEFTCTRL` is
29, `KEY_LEFTSHIFT` is 42 and `KEY_LEFTALT` is 56.

The statement `state, _ = data` raises `ValueError` when a report is not
exactly two bytes. That error is neither a `USBTimeoutError` nor a
`USBError`, so no handler in the loop catches it and it leaves the loop. The
model follows this: such a report is `Fatal`, and a run stops there.

Decoding `prev = 0b010`, `cur = 0b101` gives, in order: left pressed, mid
released, right pressed. That is three edges. `DecodeExamples` proves this
ordering; it is what the code does.

## Model

| member | source | states |
|---|---|---|
| Decoder.KeyMap | microrganist/__init__.py:35-39 | the key binding table: left to alt, mid to control, right to shift; its only callers are pedal masks, and DecodeValuesAreLevels and DecodeExamples pin the codes it gives |
| Decoder.KeyMapInjective | microrganist/__init__.py:35-39 | no two pedals are bound to the same key, so a written key code names exactly one pedal |
| Decoder.Ops | microrganist/__init__.py:57-69 | there is one op per pedal in the order left, mid, right, and each op's changed part is either zero or exactly that pedal's mask |
| Decoder.EdgeOf | microrganist/__init__.py:74-75 | the edge of one op: none when its changed part is 0, otherwise the bound key with the op's level; OpIsPedalEdge ties it to the direct-masking edge of its pedal |
| Decoder.Edges | microrganist/__init__.py:73-75 | the edges of a list of ops in list order; EdgesOfThree splits it op by op, and Translator.Emit is proved to write exactly its events |
| Decoder.Decode | microrganist/__init__.py:57-75 | the edges one report yields against the previous state byte; DecodeIsExpected proves it equal to the direct-masking reference Expected, and the lemmas below state its properties |
| Decoder.EdgesOfThree | microrganist/__init__.py:73-75 | the edges of three ops are the edges of each op in turn |
| Decoder.OpIsPedalEdge | microrganist/__init__.py:59-69 | for every pair of bytes, each pedal's mask-and-shift op gives the same edge as direct masking: an edge exactly when the bit differs, with value 1 exactly when the bit is set in the new state |
| Decoder.DecodeIsExpected | microrganist/__init__.py:57-75 | for every pair of bytes, the bridge's decoding equals the reference decoding, which is the flipped pedals' edges in the order left, mid, right |
| Decoder.DecodeMembers | microrganist/__init__.py:57-75 | an edge is in the decoding if and only if it belongs to a pedal whose bit flipped, and it carries that pedal's bound key and new level |
| Decoder.DecodeEdgeIffFlipped | microrganist/__init__.py:57-76 | a pedal's key is written if and only if the pedal's bit differs between the previous and the new state, and the value written is that pedal's level in the new state |
| Decoder.DecodeValuesAreLevels | microrganist/__init__.py:35-69 | every value written is 0 or 1, and every key written is one of the three bound keys (alt, control, shift) |
| Decoder.DecodeOrdered | microrganist/__init__.py:73-76 | within one report, edges come in ascending pedal order (left, then mid, then right), with at most one edge per pedal |
| Decoder.DecodeSameStateIsEmpty | microrganist/__init__.py:57-74 | decoding a state against itself yields no edge |
| Decoder.DecodeIgnoresOtherBits | microrganist/__init__.py:59-69 | the decoding depends only on bits 0-2 of both bytes, so the other bits never yield an edge |
| Decoder.DecodeSingleFlip | microrganist/__init__.py:57-76 | a report that flips a single pedal, whatever happens to bits 3-7, yields exactly that pedal's edge, with its bound key and new level |
| Decoder.DecodeFromReleased | microrganist/__init__.py:49-69 | against the initial all-released state, every edge is a press, and a pedal's press is reported if and only if the pedal is held, so a pedal held at startup is reported as pressed on the first report |
| Decoder.DecodeExamples | microrganist/__init__.py:30-76 | worked reports: a left press, a left release, all three pressed at once, and 0b010 to 0b101 giving left pressed, mid released, right pressed |
| Keyboard.EdgeWrites | microrganist/__init__.py:76-77 | the events of one edge: its key event, then one sync; WritesOne ties it to Writes |
| Keyboard.Writes | microrganist/__init__.py:73-77 | the events written for a list of edges, in order; WritesShape states its layout and WritesAppend its behaviour on concatenation |
| Keyboard.WritesOne | microrganist/__init__.py:76-77 | one edge writes its key event followed by one sync |
| Keyboard.WritesShape | microrganist/__init__.py:73-77 | a list of edges writes twice as many events; the event at position 2j is edge j's key event, and the event at 2j+1 is a sync |
| Keyboard.WritesAppend | microrganist/__init__.py:73-77 | writing two lists of edges one after the other writes their events one after the other |
| Keyboard.ReplayAppend | microrganist/__init__.py:76-77 | replaying two lists of events one after the other equals replaying the first, then the second |
| Keyboard.HeldKeysMasked | microrganist/__init__.py:59-69 | the keys that should be held for a state byte depend only on its pedal bits |
| Keyboard.ReplayPedalEdge | microrganist/__init__.py:73-77 | writing one pedal's edge sets that pedal's key to the pedal's new position when the bit flipped, and leaves every key unchanged otherwise |
| Keyboard.HeldAfterFlip | microrganist/__init__.py:57-69 | a pedal's new position is its old one, toggled exactly when its bit flipped |
| Keyboard.KeysTrackPedals | microrganist/__init__.py:57-77 | starting from the keys held for the previous state, replaying what one report writes leaves exactly the keys held for the new state |
| PollLoop.NextState | microrganist/__init__.py:56-71 | the stored byte after one outcome: the whole first byte of a two-byte report, otherwise the old one; Translator.Step is proved to store it |
| PollLoop.StepWrites | microrganist/__init__.py:56-82 | the events one outcome writes: the decoded edges of a two-byte report, nothing for a timeout or USB error; StepKeepsKeysInStep and RepeatedReportWritesNothing state its properties |
| PollLoop.Next | microrganist/__init__.py:50-82 | one pass of the loop body on the loop's state: nothing changes once the loop has been left, a bad-length report leaves it, any other outcome stores its state and appends its events; Translator.Step is proved to do exactly this |
| PollLoop.RunFrom | microrganist/__init__.py:50-82 | the loop over a finite list of outcomes, as Next applied to each in turn; Translator.Run is proved to end where it ends, and the lemmas below state its properties |
| PollLoop.RunFromPrefix | microrganist/__init__.py:50-82 | the run of the first i + 1 outcomes is the run of the first i, followed by outcome i |
| PollLoop.FatalIsFinal | microrganist/__init__.py:56 | once a report has left the loop, the outcomes after it change neither the state nor the events written |
| PollLoop.NoFatalRuns | microrganist/__init__.py:50-82 | a list of outcomes none of which is a bad-length report never leaves the loop |
| PollLoop.RunStopsAtFatal | microrganist/__init__.py:56 | the first bad-length report leaves the loop, with the state and events of the outcomes before it |
| PollLoop.RunExtendsWrites | microrganist/__init__.py:73-77 | a run only appends to what has already been written |
| PollLoop.StepKeepsKeysInStep | microrganist/__init__.py:56-82 | each outcome takes the keys held for the previous state to the keys held for the state it stores |
| PollLoop.RepeatedReportWritesNothing | microrganist/__init__.py:56-74 | reading the same report again right after it writes nothing |
| PollLoop.NextKeepsKeysInStep | microrganist/__init__.py:50-82 | one more outcome keeps the virtual keys matching the pedals held in the stored state |
| PollLoop.RunKeepsKeysInStep | microrganist/__init__.py:50-82 | a whole run of outcomes keeps the virtual keys matching the pedals held in the stored state |
| PollLoop.WritesNextOp | microrganist/__init__.py:73-77 | taking one more op writes its key event and a sync if its bit changed, and nothing otherwise |
| PollLoop.Translator.constructor | microrganist/__init__.py:49 | the previous state starts at 0 with nothing written, and the virtual keys already match it |
| PollLoop.Translator.Step | microrganist/__init__.py:51-82 | a two-byte report stores its whole first byte and appends its edges' writes; a timeout or USB error changes nothing; a report of any other length leaves the loop; the keys-match invariant is kept |
| PollLoop.Translator.Emit | microrganist/__init__.py:73-77 | appends to the log, in op order, a key event and a sync for every op whose bit changed, and nothing for the other ops |
| PollLoop.Translator.Run | microrganist/__init__.py:50-82 | handling the outcomes in turn ends where the run specification ends (state, log and whether the loop was left), and the keys-match invariant, if it held before, still holds |

## Left out

- USB device lookup, configuration and interface lookup, and the IN-endpoint
  match (`microrganist/__init__.py:11-27`) are left out, because they are
  calls into pyusb.
- Creating the `UInput` device (`microrganist/__init__.py:41-43`) is left
  out, because it is a call into python-evdev. Its `ui.write` and `ui.syn`
  calls are modelled only as appends to an event log. A write that fails is
  not modelled.
- Kernel-driver detach and interface claim (`microrganist/__init__.py:46-48`)
  are left out, because they manage resources in a foreign library. In the
  source, `claim_interface` runs only inside the `if` at line 48. Release and
  reattach in the `finally` block (lines 84-86) are left out for the same
  reason.
- The 5000 ms read timeout and the endless `while True` are replaced by a
  finite list of read outcomes. A timeout is one of those outcomes.
- The printing of a USB error (line 82) is left out. In the model a USB error
  only continues the loop.
- The virtual keyboard's set of held keys (`Replay`, `HeldKeys`) is a
  specification device that states the tracking property. The source keeps
  no such set.
