/** Consequences of the general model for the table as shipped: three
    momentary footswitches on PB3, PB2, PB1 lighting PC3, PC2, PC1 and
    answering to CC 102..104, and one latching footswitch on PB0 lighting PC0
    and answering to CC 105. */
module Shipped {
  import opened Base
  import opened Config
  import opened Switches
  import opened Output
  import opened Dispatch
  import opened Firmware

  /** A momentary command in the shipped table darkens PC1..PC3 and keeps
      PC0 and the unused PC4..PC7; after an "on" exactly one momentary LED,
      the commanded one, is lit. */
  lemma MomentaryCommand(slot: Slot, isOn: bool, port: bv8, k: BitPos)
    requires slot < 3
    ensures var r := ChannelChange(GCfg, slot, isOn, port);
            && (IsSet(r, 3 - slot) <==> isOn)
            && (1 <= k <= 3 && k != 3 - slot ==> !IsSet(r, k))
            && (k == 0 || k >= 4 ==> (IsSet(r, k) <==> IsSet(port, k)))
  {
    ShippedTable();
    ShippedMomentaryLeds(k);
  }

  /** A latching command in the shipped table moves PC0 alone. */
  lemma LatchingCommand(isOn: bool, port: bv8, k: BitPos)
    ensures var r := ChannelChange(GCfg, 3, isOn, port);
            (IsSet(r, 0) <==> isOn) && (k != 0 ==> (IsSet(r, k) <==> IsSet(port, k)))
  {
    ShippedTable();
  }

  /** CC 102..104 light their footswitch's LED, and only it among the
      momentary LEDs, whatever the value; CC 105 lights PC0 for value 0 and
      darkens it for every other value, 127 included; every other CC number
      changes nothing. */
  lemma ShippedDispatch(value: bv8, number: bv8, port: bv8, k: BitPos)
    ensures 102 <= number <= 104 ==>
              var slot := (number - 102) as int;
              var r := ExecuteMidiChanges(GCfg, value, number, port);
              && IsSet(r, 3 - slot)
              && (1 <= k <= 3 && k != 3 - slot ==> !IsSet(r, k))
              && (k == 0 || k >= 4 ==> (IsSet(r, k) <==> IsSet(port, k)))
    ensures number == 105 ==>
              var r := ExecuteMidiChanges(GCfg, value, number, port);
              (IsSet(r, 0) <==> value == 0) && (k != 0 ==> (IsSet(r, k) <==> IsSet(port, k)))
    ensures !(102 <= number <= 105) ==> ExecuteMidiChanges(GCfg, value, number, port) == port
  {
    ShippedTable();
    if 102 <= number <= 105 {
      var slot: Slot := (number - 102) as int;
      assert GCfg[slot].midi.ccNumber == number;
      DispatchTouchesOneSlot(GCfg, value, number, port, slot);
      if slot < 3 {
        MomentaryCommand(slot, true, port, k);
      } else {
        LatchingCommand(value == 0, port, k);
      }
    } else {
      assert NoMatchFrom(GCfg, number, 0);
    }
  }

  /** With two or more of PB1..PB3 low, every footswitch reads off, the
      latching one on PB0 included; otherwise each reads its own pin. */
  lemma ShippedSwitchReading(pinb: bv8, i: Slot)
    ensures var lows := (if IsSet(pinb, 3) then 0 else 1) + (if IsSet(pinb, 2) then 0 else 1) + (if IsSet(pinb, 1) then 0 else 1);
            IsSwitchOn(GCfg, pinb, i) <==> !IsSet(pinb, 3 - i) && lows < 2
  {
    ShippedTable();
    var a, b, c := !IsSet(pinb, 3), !IsSet(pinb, 2), !IsSet(pinb, 1);
    assert PressedMomentary(GCfg, pinb, 0) == a;
    assert PressedMomentary(GCfg, pinb, 1) == b;
    assert PressedMomentary(GCfg, pinb, 2) == c;
    assert !PressedMomentary(GCfg, pinb, 3);
    if a && b { assert Ambiguous(GCfg, pinb) by { assert 0 < 1; } }
    if a && c { assert Ambiguous(GCfg, pinb) by { assert 0 < 2; } }
    if b && c { assert Ambiguous(GCfg, pinb) by { assert 1 < 2; } }
  }

  /** The start-up synchronisation with the shipped table and every
      momentary slot stored off: PC1..PC3 end dark, PC0 shows the latching
      state, and PC4..PC7 are kept. */
  lemma ShippedSync(fs: FsStates, port0: bv8, k: BitPos)
    requires !fs[0] && !fs[1] && !fs[2]
    ensures var p := SyncFrom(GCfg, fs, port0, 0);
            && (1 <= k <= 3 ==> !IsSet(p, k))
            && (k == 0 ==> (IsSet(p, 0) <==> fs[3]))
            && (k >= 4 ==> (IsSet(p, k) <==> IsSet(port0, k)))
  {
    ShippedTable();
    ShippedMomentaryLeds(k);
    assert CleanupFrom(GCfg, 0) by { assert GCfg[0].sw.isMomentary && GCfg[0].led.isEnabled; }
    if k == 0 {
      assert LatchingLedFrom(GCfg, 0, k) by { assert GCfg[3].led.pos == 0; }
    }
    SyncFromMeaning(GCfg, fs, port0, 0, k);
  }

  /** After start-up with the shipped table, slot 0's LED PC3 (the default)
      is lit, PC2 and PC1 are dark, PC0 shows the latching footswitch's
      filtered reading, and PC4..PC7 keep their reset values. */
  lemma ShippedInit(pinb: bv8, pind: bv8, port0: bv8, k: BitPos)
    ensures var st := Init(GCfg, pinb, pind, port0);
            && IsSet(st.port, 3) && !IsSet(st.port, 2) && !IsSet(st.port, 1)
            && (IsSet(st.port, 0) <==> IsSwitchOn(GCfg, pinb, 3))
            && (k >= 4 ==> (IsSet(st.port, k) <==> IsSet(port0, k)))
            && st.fs == [false, false, false, IsSwitchOn(GCfg, pinb, 3)]
  {
    ShippedTable();
    var fs := InitialStates(GCfg, pinb);
    assert fs == [false, false, false, IsSwitchOn(GCfg, pinb, 3)];
    var p := SyncFrom(GCfg, fs, port0, 0);
    assert Init(GCfg, pinb, pind, port0).port == SetBit(p, DefFsOn);
    ShippedSync(fs, port0, k);
    ShippedSync(fs, port0, 0);
    ShippedSync(fs, port0, 1);
    ShippedSync(fs, port0, 2);
  }
}
