/** The Control Change parser of `MIDIhandling`: a three-state machine fed
    one received byte at a time. It recognises the MIDI 1.0 Control Change
    message, a status byte 0xBn followed by two 7-bit data bytes (controller
    number, controller value), on the configured channel only. */
module Parser {
  import opened Base
  import opened Config

  /** `CTRL_CHANGE` (awaiting a status byte), `CTRL_NUMBER` (awaiting the
      controller number) and `CTRL_VALUE` (awaiting the controller value). */
  datatype Status = CtrlChange | CtrlNumber | CtrlValue

  /** The function-static parser variables `MIDIstatus`, `CCnumber`, `CCvalue`. */
  datatype Parser = Parser(status: Status, ccNumber: bv8, ccValue: bv8)

  /** A complete Control Change: controller number and value. */
  datatype Cc = Cc(number: bv8, value: bv8)

  /** Power-on values of the static variables. */
  const Initial: Parser := Parser(CtrlChange, 0, 0)

  /** The status test: a Control Change whose channel nibble equals
      `MIDI_CH - 1`. The source subtracts in `int`, so `MIDI_CH == 0` asks for
      nibble -1; here the subtraction wraps to 255, which no nibble equals
      either. */
  function IsOwnCcStatus(b: bv8, ch: bv8): (own: bool)
    ensures own <==> 1 <= ch <= 16 && b == MidiCtrlChange + (ch - 1)
  {
    b & 0xF0 == MidiCtrlChange && b & 0x0F == ch - 1
  }

  /** The data-byte test: the top bit is clear. */
  predicate IsDataByte(b: bv8) {
    b & 0x80 == 0
  }

  /** The status test accepts exactly the one Control Change status byte of
      channel selector value `ch`, and none at all for selector value 0. */
  lemma StatusTestMeaning(b: bv8, ch: bv8)
    ensures IsOwnCcStatus(b, ch) <==> 1 <= ch <= 16 && b == MidiCtrlChange + (ch - 1)
    ensures IsDataByte(b) <==> b < 0x80
  {}

  /** One `switch (MIDIstatus)` step on received byte `b`, returning the new
      parser and the Control Change handed to the dispatcher, if any.
      Awaiting a status, only a Control Change on this channel moves on.
      Awaiting a number, a 7-bit byte is kept as the number; any other byte,
      even a matching status, is dropped and the parser goes back to waiting
      for a status. Awaiting a value, the parser always goes back to waiting
      for a status, and dispatches only when the byte is 7-bit. */
  function Feed(p: Parser, b: bv8, ch: bv8): (res: (Parser, Option<Cc>))
    ensures p.status == CtrlChange ==>
              res.1 == None &&
              res.0 == p.(status := if 1 <= ch <= 16 && b == 0xB0 + (ch - 1) then CtrlNumber else CtrlChange)
    ensures p.status == CtrlNumber ==>
              res.1 == None &&
              res.0 == (if b < 0x80 then p.(status := CtrlValue, ccNumber := b) else p.(status := CtrlChange))
    ensures p.status == CtrlValue ==>
              res.0 == (if b < 0x80 then p.(status := CtrlChange, ccValue := b) else p.(status := CtrlChange)) &&
              res.1 == (if b < 0x80 then Some(Cc(p.ccNumber, b)) else None)
  {
    StatusTestMeaning(b, ch);
    match p.status
    case CtrlChange =>
      if IsOwnCcStatus(b, ch) then (p.(status := CtrlNumber), None) else (p, None)
    case CtrlNumber =>
      if IsDataByte(b) then (p.(ccNumber := b, status := CtrlValue), None)
      else (p.(status := CtrlChange), None)
    case CtrlValue =>
      if IsDataByte(b) then (p.(ccValue := b, status := CtrlChange), Some(Cc(p.ccNumber, b)))
      else (p.(status := CtrlChange), None)
  }

  /** Feeding a stream of bytes, one call each, collecting the dispatches. */
  function FeedAll(p: Parser, bs: seq<bv8>, ch: bv8): (Parser, seq<Cc>)
    decreases |bs|
  {
    if bs == [] then (p, [])
    else
      var (p1, out) := Feed(p, bs[0], ch);
      var (p2, rest) := FeedAll(p1, bs[1..], ch);
      (p2, (if out.Some? then [out.value] else []) + rest)
  }

  /** The status byte of a Control Change on channel selector value `ch`. */
  function StatusFor(ch: bv8): bv8
    requires 1 <= ch <= 15
  {
    MidiCtrlChange | (ch - 1)
  }

  lemma StatusForMeaning(ch: bv8)
    requires 1 <= ch <= 15
    ensures StatusFor(ch) == 0xB0 + (ch - 1)
    ensures IsOwnCcStatus(StatusFor(ch), ch)
  {}

  /** Unfolding `FeedAll` by one byte that dispatches nothing. */
  lemma FeedAllQuiet(p: Parser, b: bv8, rest: seq<bv8>, ch: bv8)
    requires Feed(p, b, ch).1 == None
    ensures FeedAll(p, [b] + rest, ch) == FeedAll(Feed(p, b, ch).0, rest, ch)
  {
    assert ([b] + rest)[0] == b && ([b] + rest)[1..] == rest;
    var r := FeedAll(Feed(p, b, ch).0, rest, ch);
    assert [] + r.1 == r.1;
  }

  /** Unfolding `FeedAll` by one byte that completes a message. */
  lemma FeedAllEmit(p: Parser, b: bv8, rest: seq<bv8>, ch: bv8)
    requires Feed(p, b, ch).1.Some?
    ensures var r := FeedAll(Feed(p, b, ch).0, rest, ch);
            FeedAll(p, [b] + rest, ch) == (r.0, [Feed(p, b, ch).1.value] + r.1)
  {
    assert ([b] + rest)[0] == b && ([b] + rest)[1..] == rest;
  }

  /** The channel's status byte, met while waiting for a status, starts a message. */
  lemma FeedOwnStatus(p: Parser, ch: bv8)
    requires p.status == CtrlChange && 1 <= ch <= 15
    ensures Feed(p, StatusFor(ch), ch) == (p.(status := CtrlNumber), None)
  {
    StatusForMeaning(ch);
  }

  /** A data byte met while waiting for a status is skipped. */
  lemma FeedStrayData(p: Parser, b: bv8, ch: bv8)
    requires p.status == CtrlChange && b < 0x80
    ensures Feed(p, b, ch) == (p, None)
  {}

  /** A top-bit byte met while waiting for a number abandons the message. */
  lemma FeedNumberAbandoned(p: Parser, b: bv8, ch: bv8)
    requires p.status == CtrlNumber && b >= 0x80
    ensures Feed(p, b, ch) == (p.(status := CtrlChange), None)
  {}

  /** A well-formed Control Change on this channel, met while waiting for a
      status, is dispatched once and leaves the parser waiting again. */
  lemma WellFormedMessage(p: Parser, ch: bv8, n: bv8, v: bv8, rest: seq<bv8>)
    requires p.status == CtrlChange && 1 <= ch <= 15 && n < 0x80 && v < 0x80
    ensures var q := p.(ccNumber := n, ccValue := v);
            FeedAll(p, [StatusFor(ch), n, v] + rest, ch) ==
              (FeedAll(q, rest, ch).0, [Cc(n, v)] + FeedAll(q, rest, ch).1)
  {
    var s := StatusFor(ch);
    var p1 := p.(status := CtrlNumber);
    var p2 := p1.(status := CtrlValue, ccNumber := n);
    var q := p.(ccNumber := n, ccValue := v);
    FeedOwnStatus(p, ch);
    assert Feed(p1, n, ch) == (p2, None);
    assert Feed(p2, v, ch) == (q, Some(Cc(n, v)));
    FeedAllEmit(p2, v, rest, ch);
    FeedAllQuiet(p1, n, [v] + rest, ch);
    FeedAllQuiet(p, s, [n] + ([v] + rest), ch);
    assert [s, n, v] + rest == [s] + ([n] + ([v] + rest));
  }

  /** Resynchronisation: a message whose number byte has the top bit set is
      abandoned without residue, and the well-formed message after it is
      dispatched exactly once. */
  lemma Resync(p: Parser, ch: bv8)
    requires p.status == CtrlChange && 1 <= ch <= 15
    ensures var s := StatusFor(ch);
            FeedAll(p, [s, 200, 50, s, 10, 64], ch).1 == [Cc(10, 64)]
    ensures var s := StatusFor(ch);
            FeedAll(p, [s, 200, 50, s, 10, 64], ch).0.status == CtrlChange
  {
    var s := StatusFor(ch);
    var p1 := p.(status := CtrlNumber);
    var p2 := p1.(status := CtrlChange);
    FeedOwnStatus(p, ch);
    FeedNumberAbandoned(p1, 200, ch);
    FeedStrayData(p2, 50, ch);
    WellFormedMessage(p2, ch, 10, 64, []);
    assert [s, 10, 64] + [] == [s, 10, 64];
    FeedAllQuiet(p2, 50, [s, 10, 64], ch);
    FeedAllQuiet(p1, 200, [50, s, 10, 64], ch);
    FeedAllQuiet(p, s, [200, 50, s, 10, 64], ch);
    assert [s] + [200, 50, s, 10, 64] == [s, 200, 50, s, 10, 64];
    assert [200] + [50, s, 10, 64] == [200, 50, s, 10, 64];
    assert [50] + [s, 10, 64] == [50, s, 10, 64];
  }

  /** A status byte met while waiting for a controller number is swallowed,
      not taken as the start of a new message: of two back-to-back status
      bytes and one message body, nothing is dispatched. */
  lemma StatusSwallowed(p: Parser, ch: bv8, n: bv8, v: bv8)
    requires p.status == CtrlChange && 1 <= ch <= 15 && n < 0x80 && v < 0x80
    ensures var s := StatusFor(ch);
            FeedAll(p, [s, s, n, v], ch).1 == []
  {
    var s := StatusFor(ch);
    var p1 := p.(status := CtrlNumber);
    var p2 := p1.(status := CtrlChange);
    FeedOwnStatus(p, ch);
    StatusForMeaning(ch);
    FeedNumberAbandoned(p1, s, ch);
    FeedStrayData(p2, n, ch);
    FeedStrayData(p2, v, ch);
    FeedAllQuiet(p2, v, [], ch);
    FeedAllQuiet(p2, n, [v], ch);
    FeedAllQuiet(p1, s, [n, v], ch);
    FeedAllQuiet(p, s, [s, n, v], ch);
    assert [v] + [] == [v] && [n] + [v] == [n, v] && [s] + [n, v] == [s, n, v] && [s] + [s, n, v] == [s, s, n, v];
  }

  /** Channel selector 0 matches no status byte: from waiting for a status,
      any stream dispatches nothing. */
  lemma {:induction false} ChannelZeroIsDeaf(p: Parser, bs: seq<bv8>)
    requires p.status == CtrlChange
    ensures FeedAll(p, bs, 0).1 == []
    ensures FeedAll(p, bs, 0).0.status == CtrlChange
    decreases |bs|
  {
    if bs != [] {
      ChannelZeroIsDeaf(Feed(p, bs[0], 0).0, bs[1..]);
    }
  }

  /** The parser only ever holds a 7-bit controller number while waiting for
      the value, and only 7-bit pairs reach the dispatcher. */
  predicate Sound(p: Parser) {
    p.status == CtrlValue ==> p.ccNumber < 0x80
  }

  lemma FeedSound(p: Parser, b: bv8, ch: bv8)
    requires Sound(p)
    ensures Sound(Feed(p, b, ch).0)
    ensures Feed(p, b, ch).1.Some? ==> Feed(p, b, ch).1.value.number < 0x80 && Feed(p, b, ch).1.value.value < 0x80
  {}
}
