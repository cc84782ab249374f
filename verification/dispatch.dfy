/** The MIDI dispatcher, `executeMIDIchanges`: a received (CC number, value)
    pair is applied to every footswitch slot whose CC number matches. */
module Dispatch {
  import opened Base
  import opened Config
  import opened Output

  /** The LED command a matching slot receives: a momentary slot is always
      switched on; a latching slot is on exactly for its `on_cc_val`. The
      slot's `off_cc_val` plays no part. */
  function Command(c: FsCfg, value: bv8): (isOn: bool)
    ensures c.sw.isMomentary ==> isOn
    ensures !c.sw.isMomentary ==> (isOn <==> value == c.midi.onCcVal)
  {
    c.sw.isMomentary || value == c.midi.onCcVal
  }

  /** No slot at index `i` or later answers to CC `number`. */
  predicate NoMatchFrom(cfg: Table, number: bv8, i: int) {
    forall j: Slot :: i <= j ==> cfg[j].midi.ccNumber != number
  }

  /** The dispatcher's loop from slot `i` on. */
  function ExecuteFrom(cfg: Table, value: bv8, number: bv8, port: bv8, i: int): (r: bv8)
    requires 0 <= i <= NbFs
    ensures NoMatchFrom(cfg, number, i) ==> r == port
    decreases NbFs - i
  {
    if i == NbFs then port
    else
      var p := if cfg[i].midi.ccNumber == number then ChannelChange(cfg, i, Command(cfg[i], value), port) else port;
      ExecuteFrom(cfg, value, number, p, i + 1)
  }

  /** `executeMIDIchanges(CCvalue, CCnumber)`: a CC number no slot answers to
      leaves PORTC as it was. */
  function ExecuteMidiChanges(cfg: Table, value: bv8, number: bv8, port: bv8): (r: bv8)
    ensures NoMatchFrom(cfg, number, 0) ==> r == port
  {
    ExecuteFrom(cfg, value, number, port, 0)
  }

  /** Slot `j` answers to CC `number` and has an LED, so dispatch drives it. */
  predicate Commanded(cfg: Table, number: bv8, j: Slot) {
    cfg[j].midi.ccNumber == number && cfg[j].led.isEnabled
  }

  /** A command to slot `j` can move bit `k`: it is the slot's own LED, or a
      momentary LED darkened by a momentary slot's cleanup. */
  predicate Moves(cfg: Table, j: Slot, k: BitPos) {
    cfg[j].led.pos == k || (cfg[j].sw.isMomentary && MomentaryLedAt(cfg, k))
  }

  /** For any table, shared CC numbers included: a bit that no slot
      commanded from `i` on can move keeps its value. */
  lemma {:induction false} ExecuteFromFrame(cfg: Table, value: bv8, number: bv8, port: bv8, i: int, k: BitPos)
    requires 0 <= i <= NbFs
    requires forall j: Slot :: i <= j && Commanded(cfg, number, j) ==> !Moves(cfg, j, k)
    ensures IsSet(ExecuteFrom(cfg, value, number, port, i), k) <==> IsSet(port, k)
    decreases NbFs - i
  {
    if i < NbFs {
      var p := if cfg[i].midi.ccNumber == number then ChannelChange(cfg, i, Command(cfg[i], value), port) else port;
      if Commanded(cfg, number, i) {
        assert !Moves(cfg, i, k);
      }
      assert IsSet(p, k) <==> IsSet(port, k);
      ExecuteFromFrame(cfg, value, number, p, i + 1, k);
    }
  }

  /** For any table, shared CC numbers included: a commanded slot whose LED
      no later commanded slot can move ends with its LED showing its command.
      Slots are served in index order, so with shared numbers the last one
      wins. */
  lemma {:induction false} ExecuteFromLastMatch(cfg: Table, value: bv8, number: bv8, port: bv8, i: int, j: Slot)
    requires 0 <= i <= j && Commanded(cfg, number, j)
    requires forall l: Slot :: j < l && Commanded(cfg, number, l) ==> !Moves(cfg, l, cfg[j].led.pos)
    ensures IsSet(ExecuteFrom(cfg, value, number, port, i), cfg[j].led.pos) <==> Command(cfg[j], value)
    decreases j - i
  {
    var p := if cfg[i].midi.ccNumber == number then ChannelChange(cfg, i, Command(cfg[i], value), port) else port;
    if i < j {
      ExecuteFromLastMatch(cfg, value, number, p, i + 1, j);
    } else {
      ExecuteFromFrame(cfg, value, number, p, j + 1, cfg[j].led.pos);
    }
  }

  /** `executeMIDIchanges` on any table: bits no commanded slot can move are
      kept, and a commanded slot not overridden by a later one shows its
      command. */
  lemma DispatchFrame(cfg: Table, value: bv8, number: bv8, port: bv8, k: BitPos, j: Slot)
    ensures (forall l: Slot :: Commanded(cfg, number, l) ==> !Moves(cfg, l, k)) ==>
              (IsSet(ExecuteMidiChanges(cfg, value, number, port), k) <==> IsSet(port, k))
    ensures Commanded(cfg, number, j) && (forall l: Slot :: j < l && Commanded(cfg, number, l) ==> !Moves(cfg, l, cfg[j].led.pos)) ==>
              (IsSet(ExecuteMidiChanges(cfg, value, number, port), cfg[j].led.pos) <==> Command(cfg[j], value))
  {
    if forall l: Slot :: Commanded(cfg, number, l) ==> !Moves(cfg, l, k) {
      ExecuteFromFrame(cfg, value, number, port, 0, k);
    }
    if Commanded(cfg, number, j) && (forall l: Slot :: j < l && Commanded(cfg, number, l) ==> !Moves(cfg, l, cfg[j].led.pos)) {
      ExecuteFromLastMatch(cfg, value, number, port, 0, j);
    }
  }

  /** When slot `j` is the only one answering to `number`, dispatch is exactly
      one LED command to slot `j`. */
  lemma {:induction false} ExecuteFromSingle(cfg: Table, value: bv8, number: bv8, port: bv8, i: int, j: Slot)
    requires 0 <= i <= j
    requires cfg[j].midi.ccNumber == number
    requires forall k: Slot :: k != j ==> cfg[k].midi.ccNumber != number
    ensures ExecuteFrom(cfg, value, number, port, i) == ChannelChange(cfg, j, Command(cfg[j], value), port)
    decreases NbFs - i
  {
    if i < j {
      ExecuteFromSingle(cfg, value, number, port, i + 1, j);
    } else {
      assert NoMatchFrom(cfg, number, j + 1);
    }
  }

  /** With pairwise distinct CC numbers every dispatch changes at most one
      slot: the matching slot gets its command and nothing else is commanded. */
  lemma DispatchTouchesOneSlot(cfg: Table, value: bv8, number: bv8, port: bv8, j: Slot)
    requires DistinctCcNumbers(cfg)
    requires cfg[j].midi.ccNumber == number
    ensures ExecuteMidiChanges(cfg, value, number, port) == ChannelChange(cfg, j, Command(cfg[j], value), port)
  {
    ExecuteFromSingle(cfg, value, number, port, 0, j);
  }

  /** The dispatched command lights a momentary slot's LED for every value
      and a latching slot's LED exactly for its on value. */
  lemma DispatchLedOutcome(cfg: Table, value: bv8, number: bv8, port: bv8, j: Slot)
    requires DistinctCcNumbers(cfg)
    requires cfg[j].midi.ccNumber == number && cfg[j].led.isEnabled
    ensures var r := ExecuteMidiChanges(cfg, value, number, port);
            cfg[j].sw.isMomentary ==> IsSet(r, cfg[j].led.pos)
    ensures var r := ExecuteMidiChanges(cfg, value, number, port);
            !cfg[j].sw.isMomentary ==> (IsSet(r, cfg[j].led.pos) <==> value == cfg[j].midi.onCcVal)
  {
    DispatchTouchesOneSlot(cfg, value, number, port, j);
  }

  /** Two tables that differ at most in their `off_cc_val` fields. */
  predicate SameButOffValues(cfg: Table, cfg': Table) {
    forall i: Slot ::
      && cfg[i].sw == cfg'[i].sw
      && cfg[i].led == cfg'[i].led
      && cfg[i].midi.ccNumber == cfg'[i].midi.ccNumber
      && cfg[i].midi.onCcVal == cfg'[i].midi.onCcVal
  }

  lemma ChannelChangeIgnoresOffValues(cfg: Table, cfg': Table, slot: Slot, isOn: bool, port: bv8)
    requires SameButOffValues(cfg, cfg')
    ensures ChannelChange(cfg, slot, isOn, port) == ChannelChange(cfg', slot, isOn, port)
  {
    var a, b := ChannelChange(cfg, slot, isOn, port), ChannelChange(cfg', slot, isOn, port);
    forall k: BitPos ensures MomentaryLedAt(cfg, k) <==> MomentaryLedAt(cfg', k) {
      if MomentaryLedAt(cfg, k) {
        var j: Slot :| cfg[j].sw.isMomentary && cfg[j].led.pos == k;
        assert cfg'[j].sw.isMomentary && cfg'[j].led.pos == k;
      }
      if MomentaryLedAt(cfg', k) {
        var j: Slot :| cfg'[j].sw.isMomentary && cfg'[j].led.pos == k;
        assert cfg[j].sw.isMomentary && cfg[j].led.pos == k;
      }
    }
    if cfg[slot].led.isEnabled {
      BitsDetermine(a, b);
    }
  }

  lemma {:induction false} ExecuteFromIgnoresOffValues(cfg: Table, cfg': Table, value: bv8, number: bv8, port: bv8, i: int)
    requires SameButOffValues(cfg, cfg') && 0 <= i <= NbFs
    ensures ExecuteFrom(cfg, value, number, port, i) == ExecuteFrom(cfg', value, number, port, i)
    decreases NbFs - i
  {
    if i < NbFs {
      var c := Command(cfg[i], value);
      assert c == Command(cfg'[i], value);
      ChannelChangeIgnoresOffValues(cfg, cfg', i, c, port);
      var p := if cfg[i].midi.ccNumber == number then ChannelChange(cfg, i, c, port) else port;
      ExecuteFromIgnoresOffValues(cfg, cfg', value, number, p, i + 1);
    }
  }

  /** `off_cc_val` is never read: changing it anywhere in the table changes
      no dispatch outcome. */
  lemma OffValueNeverRead(cfg: Table, cfg': Table, value: bv8, number: bv8, port: bv8)
    requires SameButOffValues(cfg, cfg')
    ensures ExecuteMidiChanges(cfg, value, number, port) == ExecuteMidiChanges(cfg', value, number, port)
  {
    ExecuteFromIgnoresOffValues(cfg, cfg', value, number, port, 0);
  }
}
