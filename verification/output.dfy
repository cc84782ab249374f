/** The output driver: `turnOffAllMomentaryPins` and `channel_change` acting
    on one snapshot of PORTC, which carries every LED of the table. */
module Output {
  import opened Base
  import opened Config

  /** Some momentary slot at index `i` or later drives its LED on bit `k`. */
  predicate MomentaryLedFrom(cfg: Table, i: int, k: BitPos) {
    exists j: Slot :: i <= j && cfg[j].sw.isMomentary && cfg[j].led.pos == k
  }

  /** The cleanup loop from slot `i` on: every momentary slot's LED bit is
      cleared, whether or not that LED is enabled; nothing else moves. */
  function ClearMomentaryFrom(cfg: Table, port: bv8, i: int): (r: bv8)
    requires 0 <= i <= NbFs
    ensures forall k: BitPos :: IsSet(r, k) <==> IsSet(port, k) && !MomentaryLedFrom(cfg, i, k)
    decreases NbFs - i
  {
    if i == NbFs then port
    else
      var p := if cfg[i].sw.isMomentary then ClearBit(port, cfg[i].led.pos) else port;
      ClearMomentaryFrom(cfg, p, i + 1)
  }

  /** `turnOffAllMomentaryPins(cfg)`: for a momentary slot, every momentary
      LED goes dark and every other bit is kept; a latching slot changes nothing. */
  function TurnOffAllMomentaryPins(cfg: Table, slot: Slot, port: bv8): (r: bv8)
    ensures !cfg[slot].sw.isMomentary ==> r == port
    ensures cfg[slot].sw.isMomentary ==>
              forall k: BitPos :: IsSet(r, k) <==> IsSet(port, k) && !MomentaryLedAt(cfg, k)
  {
    if cfg[slot].sw.isMomentary then
      var r := ClearMomentaryFrom(cfg, port, 0);
      assert forall k: BitPos :: MomentaryLedFrom(cfg, 0, k) <==> MomentaryLedAt(cfg, k);
      r
    else port
  }

  /** `channel_change(cfg, is_on)`: a slot without LED changes nothing.
      Otherwise the slot's own LED ends equal to `isOn`; every other bit is
      kept, except that a momentary slot first darkens all momentary LEDs
      (on an "on" and on an "off" command alike). */
  function ChannelChange(cfg: Table, slot: Slot, isOn: bool, port: bv8): (r: bv8)
    ensures !cfg[slot].led.isEnabled ==> r == port
    ensures cfg[slot].led.isEnabled ==> (IsSet(r, cfg[slot].led.pos) <==> isOn)
    ensures cfg[slot].led.isEnabled ==>
              forall k: BitPos :: k != cfg[slot].led.pos ==>
                (IsSet(r, k) <==> IsSet(port, k) && !(cfg[slot].sw.isMomentary && MomentaryLedAt(cfg, k)))
  {
    if !cfg[slot].led.isEnabled then port
    else
      var cleaned := TurnOffAllMomentaryPins(cfg, slot, port);
      var pos := cfg[slot].led.pos;
      if isOn then SetBit(cleaned, pos) else ClearBit(cleaned, pos)
  }

  /** A latching slot's command touches only its own LED bit. */
  lemma LatchingTouchesOwnBitOnly(cfg: Table, slot: Slot, isOn: bool, port: bv8, k: BitPos)
    requires !cfg[slot].sw.isMomentary
    requires k != cfg[slot].led.pos
    ensures IsSet(ChannelChange(cfg, slot, isOn, port), k) == IsSet(port, k)
  {}

  /** Repeating a command changes nothing more: the driver is idempotent. */
  lemma ChannelChangeIdempotent(cfg: Table, slot: Slot, isOn: bool, port: bv8)
    ensures var once := ChannelChange(cfg, slot, isOn, port);
            ChannelChange(cfg, slot, isOn, once) == once
  {
    var once := ChannelChange(cfg, slot, isOn, port);
    var twice := ChannelChange(cfg, slot, isOn, once);
    if cfg[slot].led.isEnabled {
      forall k: BitPos ensures IsSet(twice, k) <==> IsSet(once, k) {
      }
      BitsDetermine(twice, once);
    }
  }
}
