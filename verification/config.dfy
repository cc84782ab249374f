/** Build-time configuration: the constants of `config.h` and the concrete
    four-footswitch table of `config.c`. Register pointers (`ddr`, `pin`,
    `port`) are not carried: every switch is read from PINB and every LED is
    driven on PORTC in the shipped table, and the model fixes those two ports. */
module Config {
  import opened Base

  /** `CFG_NB_FS`: number of footswitches. */
  const NbFs: int := 4

  /** `MIDI_RX_BUF_SIZE` and `MIDI_RX_BUF_MASK`. */
  const RxBufSize: int := 32
  const RxBufMask: u8 := 31

  /** `MIDI_CTRL_CHANGE`: Control Change status with the channel nibble zeroed. */
  const MidiCtrlChange: bv8 := 0xB0

  /** `DEF_FS_ON`: the PORTC bit forced high at the end of start-up (PC3). */
  const DefFsOn: BitPos := 3

  /** `MIDI_ON_CC_VAL` and `MIDI_OFF_CC_VAL`. */
  const MidiOnCcVal: bv8 := 0
  const MidiOffCcVal: bv8 := 127

  /** The PIND positions (PD4..PD7) that carry channel-selector bits 0..3. */
  const ChannelPins: seq<BitPos> := [4, 5, 6, 7]

  /** Index of a footswitch slot, `0 <= i < CFG_NB_FS`. */
  type Slot = i: int | 0 <= i < NbFs

  datatype SwitchCfg = SwitchCfg(isMomentary: bool, pos: BitPos)
  datatype MidiCfg = MidiCfg(ccNumber: bv8, onCcVal: bv8, offCcVal: bv8)
  datatype LedCfg = LedCfg(isEnabled: bool, pos: BitPos)

  /** `struct cfg_fs`: one footswitch's switch, MIDI and LED settings. */
  datatype FsCfg = FsCfg(sw: SwitchCfg, midi: MidiCfg, led: LedCfg)

  /** `g_cfg`: the table as shipped. */
  const GCfg: seq<FsCfg> := [
    FsCfg(SwitchCfg(true, 3),  MidiCfg(102, MidiOnCcVal, MidiOffCcVal), LedCfg(true, 3)),
    FsCfg(SwitchCfg(true, 2),  MidiCfg(103, MidiOnCcVal, MidiOffCcVal), LedCfg(true, 2)),
    FsCfg(SwitchCfg(true, 1),  MidiCfg(104, MidiOnCcVal, MidiOffCcVal), LedCfg(true, 1)),
    FsCfg(SwitchCfg(false, 0), MidiCfg(105, MidiOnCcVal, MidiOffCcVal), LedCfg(true, 0))
  ]

  /** A configuration table has exactly `CFG_NB_FS` entries. */
  type Table = t: seq<FsCfg> | |t| == NbFs witness GCfg

  /** Some momentary slot drives its LED on bit `k` of PORTC. */
  predicate MomentaryLedAt(cfg: Table, k: BitPos) {
    exists j: Slot :: cfg[j].sw.isMomentary && cfg[j].led.pos == k
  }

  /** No two slots answer to the same CC number. */
  predicate DistinctCcNumbers(cfg: Table) {
    forall i: Slot, j: Slot :: i != j ==> cfg[i].midi.ccNumber != cfg[j].midi.ccNumber
  }

  /** No two slots share an LED bit. */
  predicate DistinctLeds(cfg: Table) {
    forall i: Slot, j: Slot :: i != j ==> cfg[i].led.pos != cfg[j].led.pos
  }

  /** The buffer size is a power of two and the mask is one less, so masking
      an index with it is reduction modulo the size: 31 wraps to 0. */
  lemma BufferMaskIsModulo(x: u8)
    requires x <= RxBufSize
    ensures RxBufSize == 32 && RxBufMask == RxBufSize - 1
    ensures ((x as bv8) & (RxBufMask as bv8)) as int == x % RxBufSize
    ensures ((31 + 1) as bv8) & (RxBufMask as bv8) == 0
  {
    MaskIsModulo(x);
  }

  /** With the low nibble of `MIDI_CTRL_CHANGE` zero, masking a byte's high
      nibble and comparing with it accepts exactly the sixteen Control Change
      status bytes 0xB0..0xBF, whatever their channel. */
  lemma CtrlChangeTestsHighNibble(b: bv8)
    ensures MidiCtrlChange & 0x0F == 0
    ensures b & 0xF0 == MidiCtrlChange <==> 0xB0 <= b <= 0xBF
  {
    HighNibbleIsB(b);
  }

  /** The shipped table: slots 0..2 momentary, slot 3 latching; CC numbers
      102..105; on value 0 and off value 127 everywhere; LEDs on PC3, PC2,
      PC1, PC0, all enabled; slot 0's LED is the default-on bit. */
  lemma ShippedTable()
    ensures |GCfg| == NbFs
    ensures forall i: Slot :: GCfg[i].sw.isMomentary <==> i < 3
    ensures GCfg[0].midi.ccNumber == 102 && GCfg[1].midi.ccNumber == 103
    ensures GCfg[2].midi.ccNumber == 104 && GCfg[3].midi.ccNumber == 105
    ensures forall i: Slot :: GCfg[i].midi.onCcVal == 0 && GCfg[i].midi.offCcVal == 127
    ensures forall i: Slot :: GCfg[i].led.isEnabled && GCfg[i].led.pos == 3 - i
    ensures GCfg[0].led.pos == DefFsOn
    ensures DistinctCcNumbers(GCfg) && DistinctLeds(GCfg)
  {}

  /** In the shipped table the momentary LEDs are exactly PC1..PC3, so the
      latching LED PC0 is never among them. */
  lemma ShippedMomentaryLeds(k: BitPos)
    ensures MomentaryLedAt(GCfg, k) <==> 1 <= k <= 3
  {
    if 1 <= k <= 3 {
      var j: Slot := 3 - k;
      assert GCfg[j].sw.isMomentary && GCfg[j].led.pos == k;
    }
  }
}
