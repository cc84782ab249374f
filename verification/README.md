# MIDI Amp Footswitch — Dafny model

This is a model of the firmware of an ATmega8 MIDI footswitch controller. It is
written as pure Dafny functions over an explicit machine state, and the
properties below are proved about that model. The modelled firmware does the
following:

- It reads up to four footswitches, which are active-low inputs on PINB. Each
  one is momentary or latching.
- It applies an exclusivity rule: when two momentary switches are held
  together, every footswitch reads as off.
- It drives one LED per footswitch on PORTC. Pressing a momentary switch
  darkens every momentary LED before lighting its own. A latching switch
  toggles only its own LED.
- It receives MIDI bytes in a 32-slot interrupt-filled ring buffer.
- It parses Control Change messages on a channel chosen with four selector
  pins, PD4..PD7.
- It dispatches each received CC number to the footswitch slot configured for
  it. A momentary slot is always switched on. A latching slot is switched on
  exactly for its `on_cc_val`.

The configuration table is a parameter of every operation. The general
properties hold for any four-slot table. The `Shipped` module states what they
mean for the table in `config.c`:

| slot | switch | kind | CC number | LED |
|---|---|---|---|---|
| 0 | PB3 | momentary | 102 | PC3 |
| 1 | PB2 | momentary | 103 | PC2 |
| 2 | PB1 | momentary | 104 | PC1 |
| 3 | PB0 | latching | 105 | PC0 |

Every slot has on value 0 and off value 127.

## Modules

| module | file | contents |
|---|---|---|
| `Base` | base.dfy | `uint8_t` values, bit positions, `_BV`, and setting or clearing a port bit |
| `Config` | config.dfy | the constants of `config.h`, the `struct cfg_fs` record, and the shipped `g_cfg` table |
| `Switches` | switches.dfy | `is_switch_on` |
| `Output` | output.dfy | `turnOffAllMomentaryPins` and `channel_change` |
| `Dispatch` | dispatch.dfy | `executeMIDIchanges` |
| `Ring` | ring.dfy | the receive ISR, `MIDIgetByte` and `MIDIisReady` on the ring buffer |
| `Parser` | parser.dfy | the Control Change state machine of `MIDIhandling` |
| `Firmware` | firmware.dfy | `set_midi_channel`, `init`, `check_and_update_fs`, `MIDIhandling`, one pass of `run`, and the invariant kept across steps |
| `Shipped` | shipped.dfy | consequences for the shipped table |

Design choices:

- Bytes and port registers are `bv8`.
- The ring's head, tail and counter are integers in 0..255. Their `uint8_t`
  wrap-around is written out as `% 256`.
- All LEDs and switches live on PORTC and PINB, so the register pointers in
  the table are not carried. Each slot keeps only its bit positions.
- Pin reads are parameters. A poll receives the PINB snapshot taken before the
  debounce delay and the one taken after it.

Two consequences of the code as written:

- `MIDI_CH` is the raw selector value 0..15, and the status test compares the
  channel nibble with `MIDI_CH - 1`. So selector 0 listens to nothing, and
  MIDI channel 16 (status 0xBF) is heard for no selector setting
  (`Firmware.ChannelReach`, `Parser.ChannelZeroIsDeaf`).
- CC 103 belongs to slot 1, which is momentary in `config.c`. So CC 103 lights
  PC2 whatever its value, 127 included (`Shipped.ShippedDispatch`).

## Model

| member | source | states |
|---|---|---|
| Base.SetBit | main.c:112 | `port \|= _BV(k)` raises bit k and leaves the other seven bits as they were |
| Base.ClearBit | main.c:116 | `port &= ~_BV(k)` lowers bit k and leaves the other seven bits as they were |
| Config.BufferMaskIsModulo | config.h:50-51 | the buffer size is 32 and the mask is 31, so masking an index one past a ring position is reduction modulo 32, and 31 wraps to 0 |
| Config.CtrlChangeTestsHighNibble | config.h:52 | comparing a byte's high nibble with `MIDI_CTRL_CHANGE` accepts exactly the Control Change status bytes 0xB0..0xBF |
| Config.ShippedTable | config.c:18-95 | the shipped table: slots 0..2 momentary and slot 3 latching, CC numbers 102..105, on/off values 0/127, enabled LEDs on PC3..PC0, CC numbers and LED bits pairwise distinct, and slot 0's LED equal to `DEF_FS_ON` |
| Config.ShippedMomentaryLeds | config.c:18-95 | in the shipped table the momentary LEDs are exactly PC1..PC3, so PC0 is never one of them |
| Switches.CountFromMeaning | main.c:128-140 | the momentary press count is zero exactly when no momentary switch is down, and below two exactly when no two are down together |
| Switches.Scan | main.c:128-141 | the counting loop, with its early `return false`, yields true exactly when the slot's own switch is down and the total count of pressed momentary switches is below two |
| Switches.IsSwitchOn | main.c:126-142 | a slot reads on iff its own active-low input is low and no two momentary switches are down at once; with two momentary switches down, every slot reads off |
| Output.ClearMomentaryFrom | main.c:89-96 | the cleanup loop clears exactly the LED bits of momentary slots and keeps every other bit |
| Output.TurnOffAllMomentaryPins | main.c:85-98 | for a momentary slot, every momentary LED goes dark and all other bits are kept; for a latching slot, PORTC is unchanged |
| Output.ChannelChange | main.c:100-118 | without an LED, nothing changes; otherwise the slot's LED ends equal to `is_on`, and every other bit is kept except that a momentary slot darkens all momentary LEDs, on "on" and on "off" alike |
| Output.LatchingTouchesOwnBitOnly | main.c:100-118 | a latching slot's command touches no bit but its own LED |
| Output.ChannelChangeIdempotent | main.c:100-118 | issuing the same LED command twice has the same effect as issuing it once |
| Dispatch.ExecuteFrom | main.c:262-282 | when no remaining slot answers to the CC number, PORTC is unchanged |
| Dispatch.ExecuteMidiChanges | main.c:259-283 | a CC number no slot answers to leaves PORTC unchanged |
| Dispatch.Command | main.c:266-279 | a matching momentary slot is always commanded on; a matching latching slot is commanded on exactly when the value equals its `on_cc_val` |
| Dispatch.ExecuteFromFrame | main.c:262-282 | for any table, shared CC numbers included, a bit that no matching slot with an LED can move (its own LED, or a momentary LED under a momentary slot's cleanup) keeps its value |
| Dispatch.ExecuteFromLastMatch | main.c:262-282 | for any table, a matching slot with an LED whose bit no later matching slot can move ends showing that slot's command; slots are served in index order, so the last match wins |
| Dispatch.DispatchFrame | main.c:259-283 | `executeMIDIchanges` on any table keeps every bit no matching slot can move, and a matching slot not overridden by a later one shows its command |
| Dispatch.ExecuteFromSingle | main.c:262-282 | when exactly one slot answers to the number, the loop amounts to that one slot's LED command |
| Dispatch.DispatchTouchesOneSlot | main.c:259-283 | with distinct CC numbers, dispatch is exactly the matching slot's command: "on" for a momentary slot, and "value == on_cc_val" for a latching one |
| Dispatch.DispatchLedOutcome | main.c:264-280 | after dispatch, a momentary slot's LED is lit for every value, and a latching slot's LED is lit iff the value equals its `on_cc_val` |
| Dispatch.ChannelChangeIgnoresOffValues | main.c:100-118 | the LED driver never reads `off_cc_val` |
| Dispatch.ExecuteFromIgnoresOffValues | main.c:262-282 | the dispatch loop's result does not depend on any slot's `off_cc_val` |
| Dispatch.OffValueNeverRead | main.c:259-283 | tables differing only in `off_cc_val` give identical dispatch results for every input |
| Ring.MaskedNext | main.c:225 | advancing an index with `& MIDI_RX_BUF_MASK` is the same as advancing modulo 32, and 31 wraps to 0 |
| Ring.IsReady | main.c:250-257 | `MIDIisReady` is true iff some received byte is waiting, which in a consistent ring is iff head and tail differ |
| Ring.ValidMeaning | main.c:228 | a consistent ring holds at most 31 bytes, is ready iff it holds a byte, and trips the overflow test iff it holds 31 |
| Ring.EmptyIsValid | main.c:211-214 | the zeroed statics form a consistent, empty ring that is not ready |
| Ring.Push | main.c:217-238 | on overflow nothing changes; otherwise head advances with wrap, the byte lands at the new head, the counter rises by one as a `uint8_t`, and tail and every other slot are kept |
| Ring.Pop | main.c:240-248 | tail advances with wrap, the byte at the new tail is returned, and the counter falls by one as a `uint8_t`, wrapping from 0 to 255 |
| Ring.PushStores | main.c:228-237 | below capacity, the interrupt stores the byte and the ring stays consistent with one more byte |
| Ring.PushAtCapacity | main.c:228-231 | with 31 bytes waiting, the interrupt's overflow test fires |
| Ring.PushKeepsWaiting | main.c:234-235 | storing a byte overwrites none of the waiting bytes |
| Ring.PushAddsNewest | main.c:234-236 | the stored byte becomes the last byte of the queue |
| Ring.PushQueue | main.c:217-238 | the interrupt keeps the ring consistent and appends the byte to the queue, unless 31 bytes wait, in which case the new byte is lost |
| Ring.PopQueue | main.c:240-248 | reading a ready ring keeps it consistent, returns the oldest byte, and leaves the rest of the queue in order |
| Ring.PopUnderflow | main.c:240-248 | reading an empty ring, which `MIDIgetByte` does not guard against, wraps the counter to 255 and breaks consistency |
| Ring.PushAllQueue | main.c:217-238 | after any burst, the queue is the old queue followed by as many new bytes, in arrival order, as fit in 31 slots |
| Ring.PopNQueue | main.c:240-248 | draining n waiting bytes returns the first n bytes of the queue |
| Ring.FifoRoundTrip | main.c:217-248 | up to 31 bytes received into an empty ring are read back in exactly their arrival order |
| Parser.IsOwnCcStatus | main.c:298-299 | the status test accepts exactly the byte 0xB0 + (MIDI_CH - 1), for MIDI_CH in 1..16, and nothing for MIDI_CH 0 |
| Parser.StatusTestMeaning | main.c:298-299 | the status test accepts exactly the byte 0xB0 + (MIDI_CH - 1) for MIDI_CH in 1..16, and no byte for MIDI_CH 0; the data test accepts exactly 0..127 |
| Parser.Feed | main.c:295-320 | awaiting a status, only this channel's CC status moves on; awaiting a number, a 7-bit byte is kept and any other byte resets; awaiting a value, the parser always resets and dispatches only a 7-bit value, paired with the stored number |
| Parser.StatusForMeaning | main.c:298-299 | the CC status byte built for a channel is 0xB0 + (channel - 1) and passes the status test |
| Parser.FeedOwnStatus | main.c:297-301 | the channel's CC status starts a message |
| Parser.FeedStrayData | main.c:297-301 | a data byte seen while awaiting a status is skipped |
| Parser.FeedNumberAbandoned | main.c:303-310 | a top-bit byte seen while awaiting a number abandons the message |
| Parser.WellFormedMessage | main.c:295-320 | status, number, value on this channel dispatch (number, value) exactly once and leave the parser awaiting a status |
| Parser.Resync | main.c:303-318 | after a message abandoned at its number byte, the next well-formed message is dispatched exactly once |
| Parser.StatusSwallowed | main.c:303-310 | a status byte seen while awaiting a number is dropped, not restarted on, so two back-to-back status bytes and one body dispatch nothing |
| Parser.ChannelZeroIsDeaf | main.c:298-299 | with selector value 0, no byte stream ever dispatches anything |
| Parser.FeedSound | main.c:303-318 | a stored CC number is always 7-bit, and only 7-bit (number, value) pairs reach the dispatcher |
| Firmware.ChannelFrom | main.c:38-45 | after i passes of the loop, selector bit k is set iff pin PD(4+k) reads high, for k < i, and the higher bits are clear |
| Firmware.SetMidiChannel | main.c:27-47 | `MIDI_CH` is the high nibble of PIND, a raw value 0..15 with no +1 |
| Firmware.ChannelReach | main.c:298-299 | selector 0 accepts no status byte, and the channel-16 status 0xBF is accepted for no selector setting |
| Firmware.InitialStates | main.c:156-163 | at start-up a slot is stored on iff it is latching and reads on |
| Firmware.SyncFrom | main.c:166-169 | the synchronisation loop keeps every PORTC bit that is no slot's LED |
| Firmware.SyncFromMeaning | main.c:166-169 | with distinct LEDs and every momentary slot stored off, a latching slot's enabled LED ends showing its state, the momentary LEDs end dark once a momentary slot with an LED has been synchronised, and every other bit keeps its value |
| Firmware.Init | main.c:149-173 | start-up reads the channel from PIND and the latching states from PINB, lights `DEF_FS_ON`, and leaves the ring consistent and empty with the parser awaiting a status |
| Firmware.InitLeds | main.c:149-173 | for any table with distinct LEDs, start-up lights `DEF_FS_ON`; every other latching LED shows the filtered reading, the momentary LEDs are dark whenever some momentary slot has an LED, and the remaining bits keep their reset values |
| Firmware.CheckAndUpdateFs | main.c:175-205 | only the polled slot's state can change. A momentary poll ignores the first sample, commands its second reading when that differs from the stored state, and ends with the stored state unchanged. A latching poll that reads pressed toggles and shows the new state; otherwise nothing changes |
| Firmware.MomentaryPollOnlyTurnsOn | main.c:183-192 | with stored state off, a momentary poll commands "on" exactly when, after the delay, its switch is down and is the only momentary switch down, and otherwise does nothing |
| Firmware.MomentaryIgnoresFirstSample | main.c:181-186 | a momentary poll does not depend on the reading taken before the delay |
| Firmware.LatchingIgnoresSecondSample | main.c:196-203 | a latching poll does not depend on the resample taken after the delay |
| Firmware.LatchingToggles | main.c:196-203 | a pressed latching slot flips its state and its LED follows, and two presses restore the stored state |
| Firmware.PollFrom | main.c:331-333 | after the polling loop, already-polled and momentary slots keep their stored state, and each latching slot still to be polled has flipped exactly when its first snapshot read it on |
| Firmware.Receive | main.c:217-238 | the receive interrupt touches only the ring, and on overflow changes nothing |
| Firmware.ReceiveQueues | main.c:217-238 | a received byte joins the end of the queue, unless 31 bytes wait, in which case the state is unchanged |
| Firmware.MidiHandling | main.c:285-322 | with nothing received, nothing changes, and footswitch states and the channel never change |
| Firmware.MidiHandlingConsumesOldest | main.c:291-320 | one call consumes the oldest received byte, feeds it to the parser, and applies exactly the dispatch the parser completes |
| Firmware.InitEstablishesInv | main.c:149-173 | after start-up the ring is consistent, the parser is sound, the channel is 4-bit, and no momentary slot is stored on |
| Firmware.ReceivePreservesInv | main.c:217-238 | the receive interrupt preserves that invariant |
| Firmware.RunPassPreservesInv | main.c:327-336 | a main-loop pass preserves the invariant, consumes exactly the oldest byte when one is waiting, and otherwise leaves the ring alone |
| Shipped.MomentaryCommand | main.c:100-118 | with the shipped table, a momentary command darkens PC1..PC3 except its own LED, which ends equal to the command, and keeps PC0 and PC4..PC7 |
| Shipped.LatchingCommand | main.c:100-118 | with the shipped table, a latching command moves PC0 alone |
| Shipped.ShippedDispatch | main.c:259-283 | CC 102..104 light their own LED as the only momentary LED, for any value; CC 105 lights PC0 iff the value is 0; any other CC number changes nothing |
| Shipped.ShippedSwitchReading | main.c:126-142 | with the shipped table, a slot reads on iff its own pin is low and fewer than two of PB1..PB3 are low |
| Shipped.ShippedSync | main.c:165-169 | with the shipped table and every momentary slot stored off, the synchronisation loop darkens PC1..PC3, shows the latching state on PC0, and keeps PC4..PC7 |
| Shipped.ShippedInit | main.c:149-173 | with the shipped table, start-up lights PC3, darkens PC2 and PC1, shows the latching reading on PC0, keeps PC4..PC7, and stores only the latching state |

## Left out

- `init_io` and `init_uart` register writes (data-direction registers, pull-ups, the `PORTB` write at main.c:72, UART setup): hardware configuration with no effect on the modelled state. The pull-ups are what make the switches active-low, and the model takes that as given.
- Baud-rate arithmetic (`F_CPU`, `CFG_UART_BAUD_RATE_VAL`): a hardware constant.
- `_delay_ms`, `initial_delay`, `DEB_TIME_DBL` and the 700 ms hold-off after a latching toggle: time is not modelled. The debounce delay appears only as the gap between a poll's two PINB snapshots.
- Concurrency between the receive interrupt and the main loop, including the non-atomic `++MIDIbytes` and `--MIDIbytes`: `Ring.Push` and `Ring.Pop` are atomic steps, and the interrupt is modelled as `Firmware.Receive` between main-loop passes.
- `main`, `sei` and the endless `for (;;)` of `run`: the model covers one pass (`Firmware.RunPass`) and proves the invariant it keeps.
- Register pointers in `struct cfg_fs` and `struct init_ch`: every switch is fixed to PINB, every LED to PORTC and the selector to PIND, as in the shipped table.
- The `volatile char` element type of `MIDIbuffer`: bytes round-trip through it unchanged, so it is modelled as `bv8`.
- `CFG_DEBOUNCE_TIME_MS`: used only for delays.
- Firmware.RunPass: carries no contract of its own. Its properties are stated by `Firmware.RunPassPreservesInv`.
