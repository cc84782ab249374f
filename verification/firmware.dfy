/** The firmware body: start-up, the per-footswitch poll, the receive
    interrupt, `MIDIhandling` and one pass of the main loop, as pure step
    functions over an explicit machine state. Pin reads are parameters: each
    poll gets the PINB snapshot taken before and the one taken after its
    debounce delay; start-up gets one PINB and one PIND snapshot. */
module Firmware {
  import opened Base
  import opened Config
  import opened Switches
  import opened Output
  import opened Ring
  import opened Parser
  import opened Dispatch

  /** `g_fs`: the stored `is_on` of every footswitch. */
  type FsStates = s: seq<bool> | |s| == NbFs witness [false, false, false, false]

  /** Everything the firmware keeps between steps: `g_fs`, the PORTC latch,
      the receive ring, the parser's static variables and `MIDI_CH`. */
  datatype State = State(fs: FsStates, port: bv8, ring: Ring, parser: Parser, ch: bv8)

  // ---------------------------------------------------------------- channel

  /** The first `i` passes of `set_midi_channel`'s reading loop: selector bit
      `k` is set exactly when PIND pin `ChannelPins[k]` reads high. */
  function ChannelFrom(pind: bv8, i: nat): (ch: bv8)
    requires i <= 4
    ensures forall k: BitPos :: k < i ==> (IsSet(ch, k) <==> IsSet(pind, ChannelPins[k]))
    ensures forall k: BitPos :: i <= k ==> !IsSet(ch, k)
    decreases i
  {
    if i == 0 then 0
    else
      var c := ChannelFrom(pind, i - 1);
      if IsSet(pind, ChannelPins[i - 1]) then SetBit(c, i - 1) else c
  }

  /** `set_midi_channel`: `MIDI_CH` is the raw 4-bit selector value read from
      PD4..PD7, 0..15, with no +1. */
  function SetMidiChannel(pind: bv8): (ch: bv8)
    ensures ch == pind >> 4
    ensures ch <= 15
  {
    var c := ChannelFrom(pind, 4);
    forall k: BitPos ensures IsSet(c, k) <==> IsSet(pind >> 4, k) {
      ShiftedBit(pind, k);
    }
    BitsDetermine(c, pind >> 4);
    c
  }

  lemma ShiftedBit(pind: bv8, k: BitPos)
    ensures IsSet(pind >> 4, k) <==> k < 4 && IsSet(pind, k + 4)
  {}

  /** Because `MIDI_CH` is compared minus one, selector value 0 accepts no
      status byte at all, and the status byte of MIDI channel 16 (0xBF) is
      accepted for no selector setting. */
  lemma ChannelReach(pind: bv8, b: bv8)
    ensures SetMidiChannel(pind) == 0 ==> !IsOwnCcStatus(b, SetMidiChannel(pind))
    ensures !IsOwnCcStatus(0xBF, SetMidiChannel(pind))
  {
    StatusTestMeaning(b, SetMidiChannel(pind));
    StatusTestMeaning(0xBF, SetMidiChannel(pind));
  }

  // ---------------------------------------------------------------- start-up

  /** The state-reading loop of `init`: `g_fs` starts zeroed, then each
      latching slot takes its exclusivity-filtered reading. */
  function InitialStates(cfg: Table, pinb: bv8): (fs: FsStates)
    ensures forall i: Slot :: fs[i] <==> !cfg[i].sw.isMomentary && IsSwitchOn(cfg, pinb, i)
  {
    seq(NbFs, i requires 0 <= i < NbFs => if cfg[i].sw.isMomentary then false else IsSwitchOn(cfg, pinb, i))
  }

  /** No slot of the table, with or without an enabled LED, is wired to bit `k`. */
  predicate NoLedAt(cfg: Table, k: BitPos) {
    forall j: Slot :: cfg[j].led.pos != k
  }

  /** The `sync_fs_outputs` loop of `init` from slot `i` on: a PORTC bit that
      is no slot's LED keeps its value. */
  function SyncFrom(cfg: Table, fs: FsStates, port: bv8, i: int): (r: bv8)
    requires 0 <= i <= NbFs
    ensures forall k: BitPos :: NoLedAt(cfg, k) ==> (IsSet(r, k) <==> IsSet(port, k))
    decreases NbFs - i
  {
    if i == NbFs then port else SyncFrom(cfg, fs, ChannelChange(cfg, i, fs[i], port), i + 1)
  }

  /** Some latching slot at index `i` or later has an enabled LED on bit `k`. */
  predicate LatchingLedFrom(cfg: Table, i: int, k: BitPos) {
    exists j: Slot :: i <= j && !cfg[j].sw.isMomentary && cfg[j].led.isEnabled && cfg[j].led.pos == k
  }

  /** Some momentary slot at index `i` or later has an enabled LED, so its
      command runs the momentary cleanup. */
  predicate CleanupFrom(cfg: Table, i: int) {
    exists j: Slot :: i <= j && cfg[j].sw.isMomentary && cfg[j].led.isEnabled
  }

  /** What the synchronisation loop leaves on bit `k`, for a table whose LEDs
      are pairwise distinct and with every momentary slot stored off: a
      latching slot's enabled LED shows that slot's state; a momentary LED is
      dark once some momentary slot with an enabled LED has been synchronised;
      every other bit keeps its value. */
  lemma {:induction false} SyncFromMeaning(cfg: Table, fs: FsStates, port: bv8, i: int, k: BitPos)
    requires 0 <= i <= NbFs && DistinctLeds(cfg)
    requires forall j: Slot :: cfg[j].sw.isMomentary ==> !fs[j]
    ensures var r := SyncFrom(cfg, fs, port, i);
            forall j: Slot :: i <= j && !cfg[j].sw.isMomentary && cfg[j].led.isEnabled && cfg[j].led.pos == k ==>
              (IsSet(r, k) <==> fs[j])
    ensures MomentaryLedAt(cfg, k) && CleanupFrom(cfg, i) ==> !IsSet(SyncFrom(cfg, fs, port, i), k)
    ensures !LatchingLedFrom(cfg, i, k) && !(MomentaryLedAt(cfg, k) && CleanupFrom(cfg, i)) ==>
              (IsSet(SyncFrom(cfg, fs, port, i), k) <==> IsSet(port, k))
    decreases NbFs - i
  {
    if i < NbFs {
      var p := ChannelChange(cfg, i, fs[i], port);
      SyncFromMeaning(cfg, fs, p, i + 1, k);
      assert SyncFrom(cfg, fs, port, i) == SyncFrom(cfg, fs, p, i + 1);
      FromStep(cfg, i, k);
    }
  }

  /** How the two predicates above change when slot `i` is taken off the
      front, and why a momentary LED is never a latching one. */
  lemma FromStep(cfg: Table, i: Slot, k: BitPos)
    requires DistinctLeds(cfg)
    ensures LatchingLedFrom(cfg, i, k) <==>
              LatchingLedFrom(cfg, i + 1, k) || (!cfg[i].sw.isMomentary && cfg[i].led.isEnabled && cfg[i].led.pos == k)
    ensures CleanupFrom(cfg, i) <==> CleanupFrom(cfg, i + 1) || (cfg[i].sw.isMomentary && cfg[i].led.isEnabled)
    ensures MomentaryLedAt(cfg, k) ==> !LatchingLedFrom(cfg, i, k)
  {
    if MomentaryLedAt(cfg, k) {
      var m: Slot :| cfg[m].sw.isMomentary && cfg[m].led.pos == k;
    }
    if LatchingLedFrom(cfg, i + 1, k) {
      var l: Slot :| i + 1 <= l && !cfg[l].sw.isMomentary && cfg[l].led.isEnabled && cfg[l].led.pos == k;
      assert LatchingLedFrom(cfg, i, k);
    }
    if CleanupFrom(cfg, i + 1) {
      var l: Slot :| i + 1 <= l && cfg[l].sw.isMomentary && cfg[l].led.isEnabled;
      assert CleanupFrom(cfg, i);
    }
    if LatchingLedFrom(cfg, i, k) {
      var l: Slot :| i <= l && !cfg[l].sw.isMomentary && cfg[l].led.isEnabled && cfg[l].led.pos == k;
      if l != i { assert LatchingLedFrom(cfg, i + 1, k); }
    }
    if CleanupFrom(cfg, i) {
      var l: Slot :| i <= l && cfg[l].sw.isMomentary && cfg[l].led.isEnabled;
      if l != i { assert CleanupFrom(cfg, i + 1); }
    }
  }

  /** `init`: channel read from PIND, latching states read from PINB, every
      LED synchronised with its state in slot order, then `DEF_FS_ON` forced
      high. The ring and the parser start from their zeroed statics. */
  function Init(cfg: Table, pinb: bv8, pind: bv8, port0: bv8): (st: State)
    ensures st.ch == pind >> 4
    ensures forall i: Slot :: st.fs[i] <==> !cfg[i].sw.isMomentary && IsSwitchOn(cfg, pinb, i)
    ensures IsSet(st.port, DefFsOn)
    ensures Valid(st.ring) && Contents(st.ring) == [] && st.parser.status == CtrlChange
  {
    EmptyIsValid();
    var fs := InitialStates(cfg, pinb);
    var port := SyncFrom(cfg, fs, port0, 0);
    State(fs, SetBit(port, DefFsOn), Empty(), Initial, SetMidiChannel(pind))
  }

  /** Start-up with a table whose LEDs are pairwise distinct: `DEF_FS_ON`
      is lit; apart from it, a latching slot's enabled LED shows that slot's
      reading, the momentary LEDs are dark when some momentary slot has an
      enabled LED, and every other bit keeps its reset value. */
  lemma InitLeds(cfg: Table, pinb: bv8, pind: bv8, port0: bv8, k: BitPos)
    requires DistinctLeds(cfg)
    ensures var st := Init(cfg, pinb, pind, port0);
            && IsSet(st.port, DefFsOn)
            && (k != DefFsOn ==>
                  forall j: Slot :: !cfg[j].sw.isMomentary && cfg[j].led.isEnabled && cfg[j].led.pos == k ==>
                    (IsSet(st.port, k) <==> IsSwitchOn(cfg, pinb, j)))
            && (k != DefFsOn && MomentaryLedAt(cfg, k) && CleanupFrom(cfg, 0) ==> !IsSet(st.port, k))
            && (k != DefFsOn && !LatchingLedFrom(cfg, 0, k) && !(MomentaryLedAt(cfg, k) && CleanupFrom(cfg, 0)) ==>
                  (IsSet(st.port, k) <==> IsSet(port0, k)))
  {
    var fs := InitialStates(cfg, pinb);
    SyncFromMeaning(cfg, fs, port0, 0, k);
  }

  // ---------------------------------------------------------------- polling

  /** `check_and_update_fs(index)` given the snapshot read before (`first`)
      and after (`second`) the debounce delay. Only the polled slot's stored
      state can change. A momentary slot ignores `first`; when its second
      reading differs from the stored state it commands that reading, and its
      stored state, written twice, ends where it started. A latching slot
      reading pressed in `first` toggles and commands the new state, whatever
      `second` says; otherwise nothing happens. */
  function CheckAndUpdateFs(cfg: Table, fs: FsStates, port: bv8, index: Slot, first: bv8, second: bv8): (r: (FsStates, bv8))
    ensures forall j: Slot :: j != index ==> r.0[j] == fs[j]
    ensures cfg[index].sw.isMomentary ==> r.0 == fs
    ensures cfg[index].sw.isMomentary ==>
              r.1 == (if IsSwitchOn(cfg, second, index) != fs[index]
                      then ChannelChange(cfg, index, IsSwitchOn(cfg, second, index), port) else port)
    ensures !cfg[index].sw.isMomentary ==> (r.0[index] <==> fs[index] != IsSwitchOn(cfg, first, index))
    ensures !cfg[index].sw.isMomentary ==>
              r.1 == (if IsSwitchOn(cfg, first, index) then ChannelChange(cfg, index, r.0[index], port) else port)
  {
    var swIsOn := IsSwitchOn(cfg, first, index);
    if cfg[index].sw.isMomentary then
      var again := IsSwitchOn(cfg, second, index);
      if again != fs[index] then
        var fs1 := fs[index := again];
        var port1 := ChannelChange(cfg, index, fs1[index], port);
        (fs1[index := !again], port1)
      else (fs, port)
    else if swIsOn then
      // The resample after the delay is taken and then never used.
      var fs1 := fs[index := !fs[index]];
      (fs1, ChannelChange(cfg, index, fs1[index], port))
    else (fs, port)
  }

  /** A momentary slot whose stored state is off (as every momentary slot's
      is from start-up on) only ever receives "on" from its poll, and
      receives it exactly when its switch is down after the delay and no other
      momentary switch is down with it. */
  lemma MomentaryPollOnlyTurnsOn(cfg: Table, fs: FsStates, port: bv8, index: Slot, first: bv8, second: bv8)
    requires cfg[index].sw.isMomentary && !fs[index]
    ensures CheckAndUpdateFs(cfg, fs, port, index, first, second).1 ==
              (if Pressed(cfg, second, index) && !Ambiguous(cfg, second)
               then ChannelChange(cfg, index, true, port) else port)
  {}

  /** A momentary poll does not depend on the first snapshot. */
  lemma MomentaryIgnoresFirstSample(cfg: Table, fs: FsStates, port: bv8, index: Slot, first: bv8, first': bv8, second: bv8)
    requires cfg[index].sw.isMomentary
    ensures CheckAndUpdateFs(cfg, fs, port, index, first, second) == CheckAndUpdateFs(cfg, fs, port, index, first', second)
  {}

  /** A latching poll does not depend on the second snapshot. */
  lemma LatchingIgnoresSecondSample(cfg: Table, fs: FsStates, port: bv8, index: Slot, first: bv8, second: bv8, second': bv8)
    requires !cfg[index].sw.isMomentary
    ensures CheckAndUpdateFs(cfg, fs, port, index, first, second) == CheckAndUpdateFs(cfg, fs, port, index, first, second')
  {}

  /** A latching slot with an LED that reads pressed flips, and its LED then
      shows the new state; two presses in a row restore the stored state. */
  lemma LatchingToggles(cfg: Table, fs: FsStates, port: bv8, index: Slot, first: bv8, second: bv8)
    requires !cfg[index].sw.isMomentary && cfg[index].led.isEnabled
    requires IsSwitchOn(cfg, first, index)
    ensures var r := CheckAndUpdateFs(cfg, fs, port, index, first, second);
            r.0[index] == !fs[index] && (IsSet(r.1, cfg[index].led.pos) <==> r.0[index])
    ensures var r := CheckAndUpdateFs(cfg, fs, port, index, first, second);
            CheckAndUpdateFs(cfg, r.0, r.1, index, first, second).0 == fs
  {
    var r := CheckAndUpdateFs(cfg, fs, port, index, first, second);
    assert r.0[index := !r.0[index]] == fs;
  }

  /** The polling loop of one main-loop pass from slot `i` on; `samples[i]`
      holds slot `i`'s two snapshots. Slots already polled and momentary
      slots keep their stored state; each latching slot still to be polled
      flips exactly when its first snapshot reads it on. */
  function PollFrom(cfg: Table, fs: FsStates, port: bv8, samples: seq<(bv8, bv8)>, i: int): (r: (FsStates, bv8))
    requires |samples| == NbFs && 0 <= i <= NbFs
    ensures forall j: Slot :: r.0[j] ==
              if j < i || cfg[j].sw.isMomentary then fs[j] else fs[j] != IsSwitchOn(cfg, samples[j].0, j)
    decreases NbFs - i
  {
    if i == NbFs then (fs, port)
    else
      var (fs1, port1) := CheckAndUpdateFs(cfg, fs, port, i, samples[i].0, samples[i].1);
      PollFrom(cfg, fs1, port1, samples, i + 1)
  }

  // ---------------------------------------------------------------- MIDI

  /** The receive interrupt: the byte read from the UART goes into the ring. */
  function Receive(st: State, b: bv8): (st': State)
    ensures st'.fs == st.fs && st'.port == st.port && st'.parser == st.parser && st'.ch == st.ch
    ensures Full(st.ring) ==> st' == st
  {
    st.(ring := Push(st.ring, b))
  }

  /** A received byte joins the end of the queue, unless 31 bytes are
      already waiting, in which case it is lost. */
  lemma ReceiveQueues(st: State, b: bv8)
    requires Valid(st.ring)
    ensures |Contents(st.ring)| < Capacity ==> Contents(Receive(st, b).ring) == Contents(st.ring) + [b]
    ensures |Contents(st.ring)| == Capacity ==> Receive(st, b) == st
  {
    PushQueue(st.ring, b);
    ValidMeaning(st.ring);
  }

  /** `MIDIhandling`: with nothing received, nothing happens; otherwise one
      byte is taken from the ring and fed to the parser, and a completed
      Control Change is handed to the dispatcher. Footswitch states and the
      channel are never touched. */
  function MidiHandling(cfg: Table, st: State): (st': State)
    ensures !IsReady(st.ring) ==> st' == st
    ensures st'.fs == st.fs && st'.ch == st.ch
  {
    if !IsReady(st.ring) then st
    else
      var (b, ring') := Pop(st.ring);
      var (parser', out) := Feed(st.parser, b, st.ch);
      var port' := if out.Some? then ExecuteMidiChanges(cfg, out.value.value, out.value.number, st.port) else st.port;
      st.(ring := ring', parser := parser', port := port')
  }

  /** `MIDIhandling` consumes the oldest received byte, in arrival order, and
      dispatches exactly what the parser completes with it. */
  lemma MidiHandlingConsumesOldest(cfg: Table, st: State)
    requires Valid(st.ring) && IsReady(st.ring)
    ensures var st' := MidiHandling(cfg, st);
            && Valid(st'.ring)
            && Contents(st'.ring) == Contents(st.ring)[1..]
            && st'.parser == Feed(st.parser, Contents(st.ring)[0], st.ch).0
    ensures var out := Feed(st.parser, Contents(st.ring)[0], st.ch).1;
            MidiHandling(cfg, st).port ==
              (if out.Some? then ExecuteMidiChanges(cfg, out.value.value, out.value.number, st.port) else st.port)
  {
    PopQueue(st.ring);
  }

  // ---------------------------------------------------------------- main loop

  /** One pass of `run`'s endless loop: poll slots 0..3 in order, then one
      `MIDIhandling` call. */
  function RunPass(cfg: Table, st: State, samples: seq<(bv8, bv8)>): State
    requires |samples| == NbFs
  {
    var (fs', port') := PollFrom(cfg, st.fs, st.port, samples, 0);
    MidiHandling(cfg, st.(fs := fs', port := port'))
  }

  /** What holds of the state at every step: the ring is consistent, the
      parser holds only a 7-bit number, the channel is a 4-bit value, and no
      momentary slot is stored as on. */
  predicate Inv(cfg: Table, st: State) {
    && Valid(st.ring)
    && Sound(st.parser)
    && st.ch <= 15
    && forall i: Slot :: cfg[i].sw.isMomentary ==> !st.fs[i]
  }

  lemma InitEstablishesInv(cfg: Table, pinb: bv8, pind: bv8, port0: bv8)
    ensures Inv(cfg, Init(cfg, pinb, pind, port0))
  {}

  lemma ReceivePreservesInv(cfg: Table, st: State, b: bv8)
    requires Inv(cfg, st)
    ensures Inv(cfg, Receive(st, b))
  {
    PushQueue(st.ring, b);
  }

  /** A main-loop pass keeps the invariant and consumes exactly the oldest
      received byte when there is one. */
  lemma RunPassPreservesInv(cfg: Table, st: State, samples: seq<(bv8, bv8)>)
    requires Inv(cfg, st) && |samples| == NbFs
    ensures Inv(cfg, RunPass(cfg, st, samples))
    ensures IsReady(st.ring) ==> Contents(RunPass(cfg, st, samples).ring) == Contents(st.ring)[1..]
    ensures !IsReady(st.ring) ==> RunPass(cfg, st, samples).ring == st.ring
  {
    var (fs', port') := PollFrom(cfg, st.fs, st.port, samples, 0);
    var mid := st.(fs := fs', port := port');
    if IsReady(st.ring) {
      MidiHandlingConsumesOldest(cfg, mid);
      FeedSound(st.parser, Contents(st.ring)[0], st.ch);
    }
  }
}
