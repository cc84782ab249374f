/** Switch sampling with the exclusivity rule (`is_switch_on`). A sample is
    one snapshot of the PINB register; switches are active-low. */
module Switches {
  import opened Base
  import opened Config

  /** The switch of slot `i` is held down: its input bit reads low. */
  predicate Pressed(cfg: Table, pinb: bv8, i: Slot) {
    !IsSet(pinb, cfg[i].sw.pos)
  }

  predicate PressedMomentary(cfg: Table, pinb: bv8, i: Slot) {
    cfg[i].sw.isMomentary && Pressed(cfg, pinb, i)
  }

  /** Two different momentary switches are down in the same snapshot. */
  predicate Ambiguous(cfg: Table, pinb: bv8) {
    exists i: Slot, j: Slot :: i < j && PressedMomentary(cfg, pinb, i) && PressedMomentary(cfg, pinb, j)
  }

  /** Number of pressed momentary switches among slots `i..CFG_NB_FS-1`. */
  function CountFrom(cfg: Table, pinb: bv8, i: int): nat
    requires 0 <= i <= NbFs
    decreases NbFs - i
  {
    if i == NbFs then 0
    else (if PressedMomentary(cfg, pinb, i) then 1 else 0) + CountFrom(cfg, pinb, i + 1)
  }

  /** Fewer than two pressed momentary switches from `i` on means no two of
      them are pressed together; none counted means none pressed. */
  lemma {:induction false} CountFromMeaning(cfg: Table, pinb: bv8, i: int)
    requires 0 <= i <= NbFs
    ensures CountFrom(cfg, pinb, i) == 0 <==>
              forall j: Slot :: i <= j ==> !PressedMomentary(cfg, pinb, j)
    ensures CountFrom(cfg, pinb, i) < 2 <==>
              forall j: Slot, k: Slot :: i <= j < k ==> !(PressedMomentary(cfg, pinb, j) && PressedMomentary(cfg, pinb, k))
    decreases NbFs - i
  {
    if i < NbFs {
      CountFromMeaning(cfg, pinb, i + 1);
      if PressedMomentary(cfg, pinb, i) && CountFrom(cfg, pinb, i + 1) > 0 {
        var k: Slot :| i + 1 <= k && PressedMomentary(cfg, pinb, k);
        assert i < k;
      }
    }
  }

  /** The counting loop of `is_switch_on` from slot `i` on with `sum` pressed
      momentary switches already seen, including its early `return false`
      once the count exceeds one. */
  function Scan(cfg: Table, pinb: bv8, index: Slot, i: int, sum: nat): (r: bool)
    requires 0 <= i <= NbFs
    ensures r <==> Pressed(cfg, pinb, index) && sum + CountFrom(cfg, pinb, i) < 2
    decreases NbFs - i
  {
    if i == NbFs then
      Pressed(cfg, pinb, index) && sum < 2
    else if PressedMomentary(cfg, pinb, i) then
      if sum + 1 > 1 then false else Scan(cfg, pinb, index, i + 1, sum + 1)
    else
      Scan(cfg, pinb, index, i + 1, sum)
  }

  /** `is_switch_on(index)`: the slot reads on exactly when its own switch is
      down and no two momentary switches are down together. With two or more
      momentary switches down, every slot (the latching one included) reads off. */
  function IsSwitchOn(cfg: Table, pinb: bv8, index: Slot): (r: bool)
    ensures r <==> Pressed(cfg, pinb, index) && !Ambiguous(cfg, pinb)
    ensures Ambiguous(cfg, pinb) ==> !r
  {
    CountFromMeaning(cfg, pinb, 0);
    Scan(cfg, pinb, index, 0, 0)
  }
}
