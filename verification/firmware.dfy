/**
 * The SMS-controlled light and resistance monitor (Analog_Sensor.c): the globals the firmware
 * updates in place, the busy-wait delays, the AT command sequences it sends to the GSM modem,
 * the receive interrupt, the start-up sequence and one pass of the `while(1)` loop of `main`.
 *
 * Everything the firmware makes observable goes into `trace`, in order: each byte written to
 * the USART, each value written to PORTB, and each call of the `send_data_url` stub, kept as an
 * abstract push of a payload to an endpoint. Analog samples, the PINB3 level and the bytes the
 * modem sends back are parameters of the operation during which they are read or arrive.
 */
module Firmware {
  import opened CString
  import opened Bits
  import opened Commands

  const BUFFER_SIZE: nat := 100
  const ASCII_SIZE: nat := 8
  /** Position of the storage-register digit in the new-message notification. */
  const REGISTER_DIGIT: nat := 12
  /** Position of 'O' in the reply CR LF 'O' 'K' CR LF to the probe "AT". */
  const PROBE_REPLY_O: nat := 2
  /** Rounds of readings sent once at start-up. */
  const REPORT_ROUNDS: nat := 10

  // PORTB bits.
  const CTRL_1: bv8 := 0x80
  const CTRL_2: bv8 := 0x40
  const RES_SENS_EN: bv8 := 0x02
  const GSM_ON: bv8 := 0x01

  // Iteration counts of the busy-wait delays.
  const DELAY_1S: U32 := 1350000
  const DELAY_2S: U32 := 2700000
  const DELAY_500M: U32 := 670000
  const DELAY_100M: U32 := 135000
  const DELAY_10M: U32 := 15920

  // Endpoint names and payloads handed to the push stub.
  const POLE_1_ID: seq<Byte> := "00000000"
  const POLE_2_ID: seq<Byte> := "00000001"
  const BAD_RES: seq<Byte> := "bad"
  const LIGHT_STATUS: seq<Byte> := "status"

  // Modem commands: ITU-T V.250 and 3GPP TS 27.005 text-mode SMS, plus the vendor bulk delete.
  const AT: seq<Byte> := "AT"
  const TEXT_MODE: seq<Byte> := "AT+CMGF=1"
  const FULL_TEXT: seq<Byte> := "AT+CSDH=1"
  const DELETE_ALL: seq<Byte> := "AT+CMGDA=\"DEL ALL\""
  const NO_ECHO: seq<Byte> := "ATE0"
  const REG_1: seq<Byte> := "AT+CMGR=1"
  const NUM_CMD: seq<Byte> := "AT+CMGS="
  const NUM: seq<Byte> := "\"15412559226\""
  const SOS: seq<Byte> := "SOS"
  const CARR_RTN: Byte := '\r'
  const CTRL_Z: Byte := 26 as char

  datatype Event =
    | Tx(b: Byte)
    | PortWrite(value: bv8)
    | Push(endpoint: string, payload: string)

  function Sent(s: seq<Byte>): seq<Event> {
    seq(|s|, i requires 0 <= i < |s| => Tx(s[i]))
  }

  lemma SentAppend(a: seq<Byte>, b: seq<Byte>)
    ensures Sent(a + b) == Sent(a) + Sent(b)
  {
  }

  /** The bytes of `send_data_sms` in the order the code transmits them. */
  lemma SmsSent(data: Byte)
    ensures Sent(NUM_CMD + NUM + [CARR_RTN, data, CTRL_Z]) ==
      Sent(NUM_CMD) + Sent(NUM) + [Tx(CARR_RTN)] + [Tx(data)] + [Tx(CTRL_Z)]
  {
    SentAppend(NUM_CMD, NUM);
    SentAppend(NUM_CMD + NUM, [CARR_RTN, data, CTRL_Z]);
    assert Sent([CARR_RTN, data, CTRL_Z]) == [Tx(CARR_RTN)] + [Tx(data)] + [Tx(CTRL_Z)];
  }

  /** A command line: the command text followed by the carriage return. */
  function CommandLine(cmd: seq<Byte>): seq<Event> {
    Sent(cmd + [CARR_RTN])
  }

  /** The events that are pushes, in order. */
  function Pushes(events: seq<Event>): (r: seq<Event>)
    ensures |r| <= |events|
    ensures forall e :: e in r ==> e in events && e.Push?
  {
    if events == [] then []
    else (if events[0].Push? then [events[0]] else []) + Pushes(events[1..])
  }

  lemma {:induction false} PushesAppend(a: seq<Event>, b: seq<Event>)
    ensures Pushes(a + b) == Pushes(a) + Pushes(b)
  {
    if a != [] {
      var h := if a[0].Push? then [a[0]] else [];
      assert (a + b)[0] == a[0];
      assert (a + b)[1..] == a[1..] + b;
      PushesAppend(a[1..], b);
      calc {
        Pushes(a + b);
        h + Pushes(a[1..] + b);
        h + (Pushes(a[1..]) + Pushes(b));
        (h + Pushes(a[1..])) + Pushes(b);
        Pushes(a) + Pushes(b);
      }
    } else {
      assert a + b == b;
    }
  }

  lemma {:induction false} SentHasNoPush(s: seq<Byte>)
    ensures Pushes(Sent(s)) == []
  {
    if s != [] {
      assert Sent(s) == [Tx(s[0])] + Sent(s[1..]);
      PushesAppend([Tx(s[0])], Sent(s[1..]));
      SentHasNoPush(s[1..]);
    }
  }

  // ---------------------------------------------------------------------------------------
  // The receive buffer

  /** `buf` after `bytes` have been stored from position `start` on; positions past the end are lost. */
  function Fill(buf: seq<Byte>, start: nat, bytes: seq<Byte>): (r: seq<Byte>)
    ensures |r| == |buf|
  {
    seq(|buf|, p requires 0 <= p < |buf| =>
      if start <= p < start + |bytes| then bytes[p - start] else buf[p])
  }

  lemma FillSnoc(buf: seq<Byte>, start: nat, bytes: seq<Byte>, b: Byte)
    ensures Fill(buf, start, bytes + [b]) ==
      if start + |bytes| < |buf| then Fill(buf, start, bytes)[start + |bytes| := b]
      else Fill(buf, start, bytes)
  {
  }

  /** The new-message notification the dispatcher waits for: 15 to 19 bytes, register digit '1'. */
  predicate Notified(ind: int, registerDigit: Byte) {
    14 < ind < 20 && registerDigit == '1'
  }

  /** The receive interrupt as written: a store at `ind` with no bound, None where it leaves the buffer. */
  function IsrAsWritten(buf: seq<Byte>, ind: U8, b: Byte): (r: Option<(seq<Byte>, U8)>)
    ensures r.None? <==> ind >= |buf|
    ensures r.Some? ==> |r.value.0| == |buf| && r.value.0[ind] == b
    ensures r.Some? ==> r.value.1 == (ind + 1) % 256
    ensures r.Some? ==> forall p :: 0 <= p < |buf| && p != ind ==> r.value.0[p] == buf[p]
  {
    if ind < |buf| then Some((buf[ind := b], (ind + 1) % 256)) else None
  }

  /** A run of bytes through the unbounded interrupt, None once one store is out of bounds. */
  function ArriveAsWritten(buf: seq<Byte>, ind: U8, bytes: seq<Byte>): (r: Option<(seq<Byte>, U8)>)
    ensures r.Some? ==> |r.value.0| == |buf|
    ensures ind <= |buf| < 0x100 ==> (r.None? <==> ind + |bytes| > |buf|)
    ensures r.Some? && ind + |bytes| < 0x100 ==> r.value.1 == ind + |bytes|
    decreases |bytes|
  {
    if bytes == [] then Some((buf, ind))
    else match IsrAsWritten(buf, ind, bytes[0])
      case None => None
      case Some(next) => ArriveAsWritten(next.0, next.1, bytes[1..])
  }

  /** Inside the buffer the unbounded interrupt stores exactly what the bounded one does. */
  lemma {:induction false} ArriveAsWrittenInBounds(buf: seq<Byte>, ind: U8, bytes: seq<Byte>)
    requires |buf| == BUFFER_SIZE && ind + |bytes| <= BUFFER_SIZE
    ensures ArriveAsWritten(buf, ind, bytes) == Some((Fill(buf, ind, bytes), ind + |bytes|))
    decreases |bytes|
  {
    if bytes != [] {
      var buf' := buf[ind := bytes[0]];
      var next: U8 := ind + 1;
      assert IsrAsWritten(buf, ind, bytes[0]) == Some((buf', next));
      ArriveAsWrittenInBounds(buf', next, bytes[1..]);
      assert Fill(buf', next, bytes[1..]) == Fill(buf, ind, bytes);
      assert ArriveAsWritten(buf, ind, bytes) == ArriveAsWritten(buf', next, bytes[1..]);
    } else {
      assert Fill(buf, ind, bytes) == buf;
    }
  }

  /** More bytes than the buffer has room for make the unbounded interrupt write outside it. */
  lemma {:induction false} ArriveAsWrittenOverruns(buf: seq<Byte>, ind: U8, bytes: seq<Byte>)
    requires |buf| == BUFFER_SIZE && ind <= BUFFER_SIZE && ind + |bytes| > BUFFER_SIZE
    ensures ArriveAsWritten(buf, ind, bytes).None?
    decreases |bytes|
  {
    if ind < BUFFER_SIZE {
      ArriveAsWrittenOverruns(buf[ind := bytes[0]], ind + 1, bytes[1..]);
    }
  }

  // ---------------------------------------------------------------------------------------
  // Port bits and the dispatcher's actions

  function LightMask(pole: Pole): bv8 {
    if pole == Pole1 then CTRL_1 else CTRL_2
  }

  /** `PORTB |= mask` or `PORTB &= ~mask`. */
  function Switched(p: bv8, mask: bv8, on: bool): bv8 {
    if on then p | mask else p & !mask
  }

  function PoleId(pole: Pole): seq<Byte> {
    if pole == Pole1 then POLE_1_ID else POLE_2_ID
  }

  function StatusText(pole: Pole, on: bool): string {
    (if pole == Pole1 then "1" else "2") + (if on then " ON" else " OFF")
  }

  /** One light switched and reported. */
  function LightEvents(pole: Pole, on: bool, p: bv8): seq<Event> {
    [PortWrite(Switched(p, LightMask(pole), on)), Push(LIGHT_STATUS, StatusText(pole, on))]
  }

  /**
   * The firmware as written, or with `bin_ascii` and `get_ctrl` corrected (and the start-up
   * round given one text per pole). The operations that use either take the build as a parameter.
   */
  datatype Build = AsWritten | Corrected

  /** The text `bin_ascii` leaves for a sample: "00000000" as written, the sample's bits once corrected. */
  function Ascii(build: Build, sample: U8): (t: seq<char>)
    ensures |t| == ASCII_SIZE
    ensures build.AsWritten? ==> t == ALL_ZERO
    ensures build.Corrected? ==> Decode(t) == sample
  {
    RoundTrip(sample);
    if build.AsWritten? then ALL_ZERO else Encode(sample)
  }

  /**
   * The character the dispatcher reads at `get_ctrl`'s result, `stray` standing for the byte
   * read outside the buffer; None where the corrected search finds no place.
   */
  function CommandWord(build: Build, buf: seq<Byte>, stray: Byte): (r: Option<Byte>)
    ensures build.AsWritten? ==> r.Some?
    ensures build.Corrected? ==> (r.Some? <==> GetCtrl(buf).Some?)
    ensures GetCtrl(buf).Some? ==> r == Some(buf[GetCtrl(buf).value])
    ensures build.AsWritten? && GetCtrlAsWritten(buf).FromNull? ==> r == Some(stray)
  {
    if build.AsWritten? then Some(CommandWordAsWritten(buf, stray))
    else match GetCtrl(buf)
      case None => None
      case Some(place) => Some(buf[place])
  }

  /** The command the dispatcher acts on: the character read, if it passes the range test. */
  function CommandOf(build: Build, buf: seq<Byte>, stray: Byte): (r: Option<Action>)
    ensures r.Some? ==> !r.value.Sos?
  {
    var w := CommandWord(build, buf, stray);
    if w.Some? && TokenInRange(w.value) then Some(ActionOf(w.value)) else None
  }

  /** The dispatcher's command is the unguarded extraction as written and the guarded one once corrected. */
  lemma CommandOfBuild(build: Build, buf: seq<Byte>, stray: Byte)
    ensures build.AsWritten? ==> CommandOf(build, buf, stray) == CommandAsWritten(buf, stray)
    ensures build.Corrected? ==> CommandOf(build, buf, stray) == Command(buf)
  {
  }

  /** One pole's sample converted and reported. */
  function ReadingEvents(build: Build, pole: Pole, sample: U8): seq<Event> {
    [Push(PoleId(pole), Ascii(build, sample))]
  }

  /** PORTB after an arm of the switch ran on `p`. */
  function ActionPort(a: Action, p: bv8): bv8 {
    match a
    case LightCtrl(pole, on) => Switched(p, LightMask(pole), on)
    case LightsCtrl(on) => Switched(Switched(p, CTRL_1, on), CTRL_2, on)
    case _ => p
  }

  /** What an arm of the switch makes observable, given PORTB and the two samples it would read. */
  function ActionEvents(build: Build, a: Action, p: bv8, s1: U8, s2: U8): seq<Event> {
    match a
    case LightCtrl(pole, on) => LightEvents(pole, on, p)
    case LightsCtrl(on) => LightEvents(Pole1, on, p) + LightEvents(Pole2, on, Switched(p, CTRL_1, on))
    case ResRequest(pole) => ReadingEvents(build, pole, if pole == Pole1 then s1 else s2)
    case ResRequestBoth => ReadingEvents(build, Pole1, s1) + ReadingEvents(build, Pole2, s2)
    case Sos => Sent(SOS)
  }

  /** `data_ascii` after an arm of the switch. */
  function ActionAscii(build: Build, a: Action, s1: U8, s2: U8, before: seq<char>): seq<char> {
    match a
    case ResRequest(pole) => Ascii(build, if pole == Pole1 then s1 else s2)
    case ResRequestBoth => Ascii(build, s2)
    case _ => before
  }

  // What each arm of the switch amounts to, one lemma per arm, for the proof of `Act`.

  lemma LightCtrlArm(build: Build, pole: Pole, on: bool, p: bv8, s1: U8, s2: U8, before: seq<char>)
    ensures ActionPort(LightCtrl(pole, on), p) == Switched(p, LightMask(pole), on)
    ensures ActionEvents(build, LightCtrl(pole, on), p, s1, s2) == LightEvents(pole, on, p)
    ensures ActionAscii(build, LightCtrl(pole, on), s1, s2, before) == before
  {
  }

  lemma LightsCtrlArm(build: Build, on: bool, p: bv8, s1: U8, s2: U8, before: seq<char>)
    ensures ActionEvents(build, LightsCtrl(on), p, s1, s2) ==
      LightEvents(Pole1, on, p) + LightEvents(Pole2, on, Switched(p, CTRL_1, on))
    ensures ActionAscii(build, LightsCtrl(on), s1, s2, before) == before
  {
  }

  lemma ResRequestArm(build: Build, pole: Pole, p: bv8, s1: U8, s2: U8, before: seq<char>)
    ensures ActionPort(ResRequest(pole), p) == p
    ensures ActionEvents(build, ResRequest(pole), p, s1, s2) == ReadingEvents(build, pole, if pole == Pole1 then s1 else s2)
    ensures ActionAscii(build, ResRequest(pole), s1, s2, before) == Ascii(build, if pole == Pole1 then s1 else s2)
  {
  }

  lemma ResRequestBothArm(build: Build, p: bv8, s1: U8, s2: U8, before: seq<char>)
    ensures ActionPort(ResRequestBoth, p) == p
    ensures ActionEvents(build, ResRequestBoth, p, s1, s2) == ReadingEvents(build, Pole1, s1) + ReadingEvents(build, Pole2, s2)
    ensures ActionAscii(build, ResRequestBoth, s1, s2, before) == Ascii(build, s2)
  {
  }

  lemma SosArm(build: Build, p: bv8, s1: U8, s2: U8, before: seq<char>)
    ensures ActionPort(Sos, p) == p
    ensures ActionEvents(build, Sos, p, s1, s2) == Sent(SOS)
    ensures ActionAscii(build, Sos, s1, s2, before) == before
  {
  }

  /** A light command changes its own PORTB bit, to the commanded level, and no other bit. */
  lemma LightCtrlTouchesOnlyItsBit(pole: Pole, on: bool, p: bv8)
    ensures var q := ActionPort(LightCtrl(pole, on), p);
      q & !LightMask(pole) == p & !LightMask(pole) && (q & LightMask(pole) != 0 <==> on)
  {
  }

  /** The two-light commands set both light bits to the commanded level and no other bit. */
  lemma LightsCtrlTouchesOnlyLightBits(on: bool, p: bv8)
    ensures var q := ActionPort(LightsCtrl(on), p);
      q & !(CTRL_1 | CTRL_2) == p & !(CTRL_1 | CTRL_2) &&
      (q & CTRL_1 != 0 <==> on) && (q & CTRL_2 != 0 <==> on)
  {
  }

  /** Resistance requests leave PORTB alone. */
  lemma ResRequestsKeepPort(a: Action, p: bv8)
    requires a.ResRequest? || a.ResRequestBoth?
    ensures ActionPort(a, p) == p
  {
  }

  lemma PushesOfPair(e: Event, f: Event)
    ensures Pushes([e, f]) == (if e.Push? then [e] else []) + (if f.Push? then [f] else [])
  {
    assert [e, f][1..] == [f];
  }

  /** A light arm pushes its status once, after the PORTB write. */
  lemma LightEventsPush(pole: Pole, on: bool, p: bv8)
    ensures Pushes(LightEvents(pole, on, p)) == [Push(LIGHT_STATUS, StatusText(pole, on))]
  {
    PushesOfPair(PortWrite(Switched(p, LightMask(pole), on)), Push(LIGHT_STATUS, StatusText(pole, on)));
  }

  /** A single-light command pushes its status once. */
  lemma LightCtrlPushesStatus(build: Build, pole: Pole, on: bool, p: bv8, s1: U8, s2: U8)
    ensures Pushes(ActionEvents(build, LightCtrl(pole, on), p, s1, s2)) == [Push(LIGHT_STATUS, StatusText(pole, on))]
  {
    LightEventsPush(pole, on, p);
  }

  /** The two-light commands push twice, pole 1 before pole 2, never one merged status. */
  lemma LightsCtrlPushesInOrder(build: Build, on: bool, p: bv8, s1: U8, s2: U8)
    ensures Pushes(ActionEvents(build, LightsCtrl(on), p, s1, s2)) ==
      [Push(LIGHT_STATUS, StatusText(Pole1, on)), Push(LIGHT_STATUS, StatusText(Pole2, on))]
  {
    var first, second := LightEvents(Pole1, on, p), LightEvents(Pole2, on, Switched(p, CTRL_1, on));
    assert ActionEvents(build, LightsCtrl(on), p, s1, s2) == first + second;
    LightEventsPush(Pole1, on, p);
    LightEventsPush(Pole2, on, Switched(p, CTRL_1, on));
    PushesAppend(first, second);
  }

  /**
   * A single-pole resistance request pushes one text to that pole's endpoint: "00000000" as
   * written, that pole's sample once `bin_ascii` is corrected.
   */
  lemma ResRequestPushesReading(build: Build, pole: Pole, p: bv8, s1: U8, s2: U8)
    ensures var sample := if pole == Pole1 then s1 else s2;
      Pushes(ActionEvents(build, ResRequest(pole), p, s1, s2)) == [Push(PoleId(pole), Ascii(build, sample))] &&
      (build.AsWritten? ==> Pushes(ActionEvents(build, ResRequest(pole), p, s1, s2)) == [Push(PoleId(pole), ALL_ZERO)]) &&
      (build.Corrected? ==> Decode(Pushes(ActionEvents(build, ResRequest(pole), p, s1, s2))[0].payload) == sample)
  {
  }

  /** The combined resistance request pushes two texts, pole 1 first, each to its own endpoint. */
  lemma ResRequestBothPushesInOrder(build: Build, p: bv8, s1: U8, s2: U8)
    ensures Pushes(ActionEvents(build, ResRequestBoth, p, s1, s2)) ==
      [Push(POLE_1_ID, Ascii(build, s1)), Push(POLE_2_ID, Ascii(build, s2))]
    ensures build.AsWritten? ==>
      Pushes(ActionEvents(build, ResRequestBoth, p, s1, s2)) == [Push(POLE_1_ID, ALL_ZERO), Push(POLE_2_ID, ALL_ZERO)]
  {
    PushesOfPair(Push(POLE_1_ID, Ascii(build, s1)), Push(POLE_2_ID, Ascii(build, s2)));
  }

  /** As written, what an arm of the switch makes observable does not depend on the samples at all. */
  lemma AsWrittenArmsIgnoreSamples(a: Action, p: bv8, s1: U8, s2: U8, t1: U8, t2: U8)
    ensures ActionEvents(AsWritten, a, p, s1, s2) == ActionEvents(AsWritten, a, p, t1, t2)
    ensures ActionAscii(AsWritten, a, s1, s2, ALL_ZERO) == ALL_ZERO
  {
  }

  /** Once corrected, the combined request's pushes determine both samples. */
  lemma CorrectedReadingsDetermineSamples(p: bv8, s1: U8, s2: U8, t1: U8, t2: U8)
    requires ActionEvents(Corrected, ResRequestBoth, p, s1, s2) == ActionEvents(Corrected, ResRequestBoth, p, t1, t2)
    ensures s1 == t1 && s2 == t2
  {
    assert ActionEvents(Corrected, ResRequestBoth, p, s1, s2)[0].payload == Encode(s1);
    assert ActionEvents(Corrected, ResRequestBoth, p, t1, t2)[0].payload == Encode(t1);
    assert ActionEvents(Corrected, ResRequestBoth, p, s1, s2)[1].payload == Encode(s2);
    assert ActionEvents(Corrected, ResRequestBoth, p, t1, t2)[1].payload == Encode(t2);
    RoundTrip(s1);
    RoundTrip(t1);
    RoundTrip(s2);
    RoundTrip(t2);
  }

  /** The distress arm only transmits; it pushes nothing. */
  lemma SosDoesNotPush(build: Build, p: bv8, s1: U8, s2: U8)
    ensures Pushes(ActionEvents(build, Sos, p, s1, s2)) == []
    ensures ActionEvents(build, Sos, p, s1, s2) == Sent(SOS)
  {
    SentHasNoPush(SOS);
  }

  // ---------------------------------------------------------------------------------------
  // The over-voltage check

  /** PORTB after the check: the resistor-sense enable driven high (sensing off) on a fault. */
  function FaultPort(pinB3: bool, p: bv8): bv8 {
    if pinB3 then p | RES_SENS_EN else p
  }

  /** The check as written, run on every pass with no memory of earlier faults. */
  function FaultEvents(pinB3: bool, p: bv8): seq<Event> {
    if pinB3 then [PortWrite(p | RES_SENS_EN), Push(BAD_RES, POLE_1_ID)] else []
  }

  lemma FaultEventsPushes(pinB3: bool, p: bv8)
    ensures Pushes(FaultEvents(pinB3, p)) == if pinB3 then [Push(BAD_RES, POLE_1_ID)] else []
  {
    if pinB3 {
      PushesOfPair(PortWrite(p | RES_SENS_EN), Push(BAD_RES, POLE_1_ID));
    }
  }

  /** The check on successive passes, `pinB3s` the input level on each. */
  function FaultPasses(pinB3s: seq<bool>, p: bv8): seq<Event>
    decreases |pinB3s|
  {
    if pinB3s == [] then []
    else FaultEvents(pinB3s[0], p) + FaultPasses(pinB3s[1..], FaultPort(pinB3s[0], p))
  }

  /** Without a latch, every pass that reads the input high pushes the "bad" notice again. */
  lemma {:induction false} FaultReportedOnEveryPass(pinB3s: seq<bool>, p: bv8)
    ensures |Pushes(FaultPasses(pinB3s, p))| == multiset(pinB3s)[true]
    decreases |pinB3s|
  {
    if pinB3s != [] {
      var first, rest := FaultEvents(pinB3s[0], p), FaultPasses(pinB3s[1..], FaultPort(pinB3s[0], p));
      assert FaultPasses(pinB3s, p) == first + rest;
      FaultReportedOnEveryPass(pinB3s[1..], FaultPort(pinB3s[0], p));
      FaultEventsPushes(pinB3s[0], p);
      PushesAppend(first, rest);
      assert pinB3s == [pinB3s[0]] + pinB3s[1..];
      assert multiset(pinB3s)[true] == multiset([pinB3s[0]])[true] + multiset(pinB3s[1..])[true];
    }
  }

  /** The only thing the check ever pushes is the "bad" notice for pole 1. */
  lemma {:induction false} FaultPassesPushOnlyBad(pinB3s: seq<bool>, p: bv8)
    ensures forall e :: e in Pushes(FaultPasses(pinB3s, p)) ==> e == Push(BAD_RES, POLE_1_ID)
    decreases |pinB3s|
  {
    if pinB3s != [] {
      var first, rest := FaultEvents(pinB3s[0], p), FaultPasses(pinB3s[1..], FaultPort(pinB3s[0], p));
      assert FaultPasses(pinB3s, p) == first + rest;
      FaultPassesPushOnlyBad(pinB3s[1..], FaultPort(pinB3s[0], p));
      FaultEventsPushes(pinB3s[0], p);
      PushesAppend(first, rest);
    }
  }

  /** A one-shot check: the first fault reports and sets the latch; a set latch silences the check. */
  function FaultCheckLatched(pinB3: bool, latched: bool, p: bv8): (r: (seq<Event>, bool))
    ensures r.1 == (latched || pinB3)
    ensures latched ==> r.0 == []
    ensures !latched ==> r.0 == FaultEvents(pinB3, p)
  {
    if pinB3 && !latched then (FaultEvents(true, p), true) else ([], latched)
  }

  /** The one-shot check on successive passes. */
  function LatchedPasses(pinB3s: seq<bool>, latched: bool, p: bv8): seq<Event>
    decreases |pinB3s|
  {
    if pinB3s == [] then []
    else
      var r := FaultCheckLatched(pinB3s[0], latched, p);
      r.0 + LatchedPasses(pinB3s[1..], r.1, if r.0 == [] then p else FaultPort(true, p))
  }

  /** Once latched, no pass pushes anything or writes PORTB. */
  lemma {:induction false} LatchedPassesQuiet(pinB3s: seq<bool>, p: bv8)
    ensures LatchedPasses(pinB3s, true, p) == []
    decreases |pinB3s|
  {
    if pinB3s != [] {
      LatchedPassesQuiet(pinB3s[1..], p);
    }
  }

  /** From an unlatched start the "bad" notice is pushed once if any pass sees a fault, else never. */
  lemma {:induction false} LatchedPassesReportOnce(pinB3s: seq<bool>, p: bv8)
    ensures Pushes(LatchedPasses(pinB3s, false, p)) == if true in pinB3s then [Push(BAD_RES, POLE_1_ID)] else []
    decreases |pinB3s|
  {
    if pinB3s != [] {
      assert pinB3s == [pinB3s[0]] + pinB3s[1..];
      if pinB3s[0] {
        LatchedPassesQuiet(pinB3s[1..], FaultPort(true, p));
        FaultEventsPushes(true, p);
        assert LatchedPasses(pinB3s, false, p) == FaultEvents(true, p) + [];
      } else {
        LatchedPassesReportOnce(pinB3s[1..], p);
        assert true in pinB3s <==> true in pinB3s[1..];
        assert FaultCheckLatched(false, false, p) == ([], false);
        assert LatchedPasses(pinB3s, false, p) == LatchedPasses(pinB3s[1..], false, p);
      }
    }
  }

  // ---------------------------------------------------------------------------------------
  // Start-up readings

  /** One round of the start-up loop, each pole's text converted from its own sample. */
  function ReportEvents(build: Build, pinB3: bool, p: bv8, s1: U8, s2: U8): seq<Event> {
    FaultEvents(pinB3, p) + [Push(POLE_1_ID, Ascii(build, s1)), Push(POLE_2_ID, Ascii(build, s2))]
  }

  /**
   * The round in the order the code has it: both conversions first, then two pushes naming the
   * one `data_ascii`, which by then holds pole 2's text.
   */
  function ReportEventsAliased(build: Build, pinB3: bool, p: bv8, s1: U8, s2: U8): seq<Event> {
    FaultEvents(pinB3, p) + [Push(POLE_1_ID, Ascii(build, s2)), Push(POLE_2_ID, Ascii(build, s2))]
  }

  /** As written the aliasing is invisible: every text is "00000000" whichever buffer it names. */
  lemma AliasingLatent(pinB3: bool, p: bv8, s1: U8, s2: U8)
    ensures ReportEventsAliased(AsWritten, pinB3, p, s1, s2) == ReportEvents(AsWritten, pinB3, p, s1, s2)
  {
  }

  /** With `bin_ascii` corrected but the aliasing kept, pole 1's reading is lost unless it equals pole 2's. */
  lemma AliasingLosesPole1(pinB3: bool, p: bv8, s1: U8, s2: U8)
    requires s1 != s2
    ensures ReportEventsAliased(Corrected, pinB3, p, s1, s2) != ReportEvents(Corrected, pinB3, p, s1, s2)
    ensures Push(POLE_1_ID, Ascii(Corrected, s1)) !in ReportEventsAliased(Corrected, pinB3, p, s1, s2)
  {
    if Encode(s1) == Encode(s2) {
      EncodeInjective(s1, s2);
    }
    var k := |FaultEvents(pinB3, p)|;
    assert ReportEvents(Corrected, pinB3, p, s1, s2)[k] != ReportEventsAliased(Corrected, pinB3, p, s1, s2)[k];
  }

  /** What one round of the start-up loop reads: the over-voltage input and the two samples. */
  datatype RoundInputs = RoundInputs(pinB3: bool, s1: U8, s2: U8)

  function PortAfterRounds(rounds: seq<RoundInputs>, p: bv8): bv8 {
    if rounds == [] then p
    else FaultPort(rounds[|rounds| - 1].pinB3, PortAfterRounds(rounds[..|rounds| - 1], p))
  }

  function RoundEvents(build: Build, r: RoundInputs, p: bv8): seq<Event> {
    ReportEvents(build, r.pinB3, p, r.s1, r.s2)
  }

  /** All rounds of the start-up loop, in order. */
  function Reports(build: Build, rounds: seq<RoundInputs>, p: bv8): seq<Event> {
    if rounds == [] then []
    else
      var k := |rounds| - 1;
      Reports(build, rounds[..k], p) + RoundEvents(build, rounds[k], PortAfterRounds(rounds[..k], p))
  }

  lemma PortAfterRoundsSnoc(rounds: seq<RoundInputs>, p: bv8, i: nat)
    requires i < |rounds|
    ensures PortAfterRounds(rounds[..i + 1], p) == FaultPort(rounds[i].pinB3, PortAfterRounds(rounds[..i], p))
  {
    assert rounds[..i + 1][..i] == rounds[..i];
  }

  /** One more round appended to a trace of the earlier rounds gives the trace of one more round. */
  lemma ReportsSnoc(build: Build, rounds: seq<RoundInputs>, p: bv8, i: nat, t0: seq<Event>, t: seq<Event>)
    requires i < |rounds|
    requires t == t0 + Reports(build, rounds[..i], p) + RoundEvents(build, rounds[i], PortAfterRounds(rounds[..i], p))
    ensures t == t0 + Reports(build, rounds[..i + 1], p)
  {
    var done, next := Reports(build, rounds[..i], p), RoundEvents(build, rounds[i], PortAfterRounds(rounds[..i], p));
    var longer := rounds[..i + 1];
    assert |longer| - 1 == i && longer[..i] == rounds[..i] && longer[i] == rounds[i];
    assert Reports(build, longer, p) == done + next;
    assert t0 + done + next == t0 + (done + next);
  }

  /**
   * Every round pushes one text to each pole's endpoint: "00000000" as written, and once
   * corrected the text of that round's sample for that pole.
   */
  lemma {:induction false} ReportsCarryEverySample(build: Build, rounds: seq<RoundInputs>, p: bv8, k: nat)
    requires k < |rounds|
    ensures Push(POLE_1_ID, Ascii(build, rounds[k].s1)) in Reports(build, rounds, p)
    ensures Push(POLE_2_ID, Ascii(build, rounds[k].s2)) in Reports(build, rounds, p)
  {
    var n := |rounds| - 1;
    if k < n {
      ReportsCarryEverySample(build, rounds[..n], p, k);
    }
  }

  /** What the modem sends during each wait of the start-up sequence, in order. */
  datatype StartupReplies = StartupReplies(
    probe: seq<Byte>, notices: seq<Byte>, echo: seq<Byte>, mode: seq<Byte>, fullText: seq<Byte>, delete: seq<Byte>)

  // ---------------------------------------------------------------------------------------
  // The firmware's global state

  class Controller {
    /** `data_received`: bytes stored by the receive interrupt. */
    const dataReceived: array<Byte>
    /** `data_ascii`: the text form of the last converted sample, no terminator. */
    const dataAscii: array<char>
    /** `ind`: the next position the receive interrupt writes. */
    var ind: U8
    /** `count`: the shared busy-wait counter. */
    var count: U32
    var portB: bv8
    var trace: seq<Event>

    ghost predicate Valid()
      reads this
    {
      dataReceived.Length == BUFFER_SIZE && dataAscii.Length == ASCII_SIZE && ind <= BUFFER_SIZE
    }

    /** The zero-initialised globals, and PORTB as `init_dio` leaves it: GSM key and sense enable high. */
    constructor ()
      ensures Valid() && fresh(dataReceived) && fresh(dataAscii)
      ensures forall p :: 0 <= p < BUFFER_SIZE ==> dataReceived[p] == NUL
      ensures forall i :: 0 <= i < ASCII_SIZE ==> dataAscii[i] == NUL
      ensures ind == 0 && count == 0 && trace == []
      ensures portB == GSM_ON | RES_SENS_EN
    {
      dataReceived := new Byte[BUFFER_SIZE](_ => NUL);
      dataAscii := new char[ASCII_SIZE](_ => '\0');
      ind, count, trace := 0, 0, [];
      portB := GSM_ON | RES_SENS_EN;
    }

    /** `delay_1s` ... `delay_10m`: count up to the bound, then clear the counter. */
    method Delay(limit: U32)
      modifies this`count
      ensures count == 0
    {
      while count < limit
        decreases limit - count
      {
        count := count + 1;
      }
      count := 0;
    }

    /** `Tx_USART`: the wait for an empty transmit register is not modelled. */
    method TxByte(b: Byte)
      modifies this`trace
      ensures trace == old(trace) + [Tx(b)]
    {
      trace := trace + [Tx(b)];
    }

    /** `Tx_USART_ram_data`: transmits the bytes before the first NUL, in order. */
    method TxRamData(str: seq<Byte>)
      requires NUL in str
      modifies this`trace
      ensures trace == old(trace) + Sent(CStr(str))
    {
      var i := 0;
      while str[i] != NUL
        invariant 0 <= i <= FirstNul(str)
        invariant trace == old(trace) + Sent(str[..i])
        decreases FirstNul(str) - i
      {
        TxByte(str[i]);
        SentAppend(str[..i], [str[i]]);
        assert str[..i + 1] == str[..i] + [str[i]];
        i := i + 1;
      }
    }

    /** Sends a string constant, which the C array terminates with NUL. */
    method TxString(s: seq<Byte>)
      requires NUL !in s
      modifies this`trace
      ensures trace == old(trace) + Sent(s)
    {
      CStrTerminated(s);
      TxRamData(s + [NUL]);
    }

    method WritePortB(v: bv8)
      modifies this`portB, this`trace
      ensures portB == v && trace == old(trace) + [PortWrite(v)]
    {
      portB := v;
      trace := trace + [PortWrite(v)];
    }

    /** `send_data_url`: an empty function in the firmware, kept as an abstract push. */
    method SendDataUrl(endpoint: string, payload: string)
      modifies this`trace
      ensures trace == old(trace) + [Push(endpoint, payload)]
    {
      trace := trace + [Push(endpoint, payload)];
    }

    /**
     * `ISR(USART1_RX_vect)`: stores the received byte at `ind` and advances `ind`. The firmware
     * has no bound check; this handler drops the byte once the buffer is full.
     */
    method RxInterrupt(b: Byte)
      requires Valid()
      modifies this`ind, dataReceived
      ensures Valid()
      ensures old(ind) < BUFFER_SIZE ==> ind == old(ind) + 1 && dataReceived[..] == old(dataReceived[..])[old(ind) := b]
      ensures old(ind) == BUFFER_SIZE ==> ind == old(ind) && dataReceived[..] == old(dataReceived[..])
    {
      if ind < BUFFER_SIZE {
        dataReceived[ind] := b;
        ind := ind + 1;
      }
    }

    /** A run of received bytes, one interrupt each. */
    method Receive(bytes: seq<Byte>)
      requires Valid()
      modifies this`ind, dataReceived
      ensures Valid()
      ensures dataReceived[..] == Fill(old(dataReceived[..]), old(ind), bytes)
      ensures ind == Min(old(ind) + |bytes|, BUFFER_SIZE)
    {
      var j := 0;
      while j < |bytes|
        invariant 0 <= j <= |bytes|
        invariant Valid()
        invariant ind == Min(old(ind) + j, BUFFER_SIZE)
        invariant dataReceived[..] == Fill(old(dataReceived[..]), old(ind), bytes[..j])
      {
        FillSnoc(old(dataReceived[..]), old(ind), bytes[..j], bytes[j]);
        assert bytes[..j + 1] == bytes[..j] + [bytes[j]];
        RxInterrupt(bytes[j]);
        j := j + 1;
      }
      assert bytes[..j] == bytes;
    }

    /**
     * `on_gsm`: holds the modem's power key low, releases it, and waits; `notices`, the power-on
     * and message notifications the modem sends meanwhile, are stored from `ind` on and then
     * forgotten.
     */
    method OnGsm(notices: seq<Byte>)
      requires Valid()
      modifies this`portB, this`trace, this`count, this`ind, dataReceived
      ensures Valid()
      ensures portB == old(portB) | GSM_ON
      ensures trace == old(trace) + [PortWrite(old(portB) & !GSM_ON), PortWrite(old(portB) | GSM_ON)]
      ensures dataReceived[..] == Fill(old(dataReceived[..]), old(ind), notices)
      ensures ind == 0 && count == 0
    {
      PulseKey();
      Receive(notices);
      ind := 0;
    }

    /** The key-pin pulse of `on_gsm` and the waits after it, before the notifications are stored. */
    method PulseKey()
      modifies this`portB, this`trace, this`count
      ensures portB == old(portB) | GSM_ON
      ensures trace == old(trace) + [PortWrite(old(portB) & !GSM_ON), PortWrite(old(portB) | GSM_ON)]
      ensures count == 0
    {
      WritePortB(portB & !GSM_ON);
      Delay(DELAY_2S);
      Delay(DELAY_500M);
      WritePortB(portB | GSM_ON);
      Delay(DELAY_2S);
      Delay(DELAY_2S);
      Delay(DELAY_2S);
      Delay(DELAY_2S);
    }

    /**
     * `echo_off`: "ATE0" (section 6.2.4 of ITU-T V.250) and carriage return; the modem's `reply`
     * is stored from `ind` on during the waits, then `ind` is cleared.
     */
    method EchoOff(reply: seq<Byte>)
      requires Valid()
      modifies this`trace, this`count, this`ind, dataReceived
      ensures Valid()
      ensures trace == old(trace) + CommandLine(NO_ECHO)
      ensures dataReceived[..] == Fill(old(dataReceived[..]), old(ind), reply)
      ensures ind == 0 && count == 0
    {
      TxString(NO_ECHO);
      Delay(DELAY_10M);
      TxByte(CARR_RTN);
      SentAppend(NO_ECHO, [CARR_RTN]);
      Delay(DELAY_500M);
      Receive(reply);
      ind := 0;
    }

    /**
     * `send_data_sms`: "AT+CMGS=" with the quoted number, CR, one data byte, Ctrl-Z; `reply`, the
     * prompt and the result code the modem sends during the waits, is stored from `ind` on.
     */
    method SendDataSms(data: Byte, reply: seq<Byte>)
      requires Valid()
      modifies this`trace, this`count, this`ind, dataReceived
      ensures Valid()
      ensures trace == old(trace) + Sent(NUM_CMD + NUM + [CARR_RTN, data, CTRL_Z])
      ensures dataReceived[..] == Fill(old(dataReceived[..]), old(ind), reply)
      ensures ind == 0 && count == 0
    {
      TransmitSms(data);
      Receive(reply);
      ind := 0;
    }

    /** The transmissions and waits of `send_data_sms`, before its reply is stored. */
    method TransmitSms(data: Byte)
      modifies this`trace, this`count
      ensures trace == old(trace) + Sent(NUM_CMD + NUM + [CARR_RTN, data, CTRL_Z])
      ensures count == 0
    {
      SmsSent(data);
      TxString(NUM_CMD);
      TxString(NUM);
      TxByte(CARR_RTN);
      Delay(DELAY_10M);
      TxByte(data);
      Delay(DELAY_10M);
      TxByte(CTRL_Z);
      Delay(DELAY_1S);
    }

    /** A command line: the command text from RAM, then `Tx_USART(carr_rtn)`. */
    method SendLine(cmd: seq<Byte>)
      requires NUL !in cmd
      modifies this`trace
      ensures trace == old(trace) + CommandLine(cmd)
    {
      TxString(cmd);
      TxByte(CARR_RTN);
      SentAppend(cmd, [CARR_RTN]);
    }

    /**
     * `set_Textmode`: "AT+CMGF=1" then "AT+CSDH=1", each ended by CR and followed by a wait in
     * which its reply is stored from position 0; the second reply's bytes stay counted in `ind`.
     */
    method SetTextMode(modeReply: seq<Byte>, fullTextReply: seq<Byte>)
      requires Valid()
      modifies this`trace, this`count, this`ind, dataReceived
      ensures Valid()
      ensures trace == old(trace) + CommandLine(TEXT_MODE) + CommandLine(FULL_TEXT)
      ensures dataReceived[..] == Fill(Fill(old(dataReceived[..]), 0, modeReply), 0, fullTextReply)
      ensures ind == Min(|fullTextReply|, BUFFER_SIZE) && count == 0
    {
      ind := 0;
      SendLine(TEXT_MODE);
      Delay(DELAY_100M);
      Receive(modeReply);
      ind := 0;
      SendLine(FULL_TEXT);
      Delay(DELAY_100M);
      Receive(fullTextReply);
    }

    /**
     * `pwr_chkGSM`: clears `ind`, sends "AT" and CR and, after the wait during which `reply`
     * arrives, answers whether byte 2 of the buffer is 'O'. A reply shorter than three bytes
     * leaves that test to whatever byte 2 held before.
     */
    method PowerCheck(reply: seq<Byte>) returns (on: bool)
      requires Valid()
      modifies this`trace, this`count, this`ind, dataReceived
      ensures Valid()
      ensures dataReceived[..] == Fill(old(dataReceived[..]), 0, reply)
      ensures on <==> dataReceived[PROBE_REPLY_O] == 'O'
      ensures |reply| <= PROBE_REPLY_O ==> (on <==> old(dataReceived[PROBE_REPLY_O]) == 'O')
      ensures ind == if on then 0 else Min(|reply|, BUFFER_SIZE)
      ensures trace == old(trace) + CommandLine(AT)
      ensures count == 0
    {
      ind := 0;
      SendLine(AT);
      Delay(DELAY_1S);
      Receive(reply);
      on := dataReceived[PROBE_REPLY_O] == 'O';
      if on {
        ind := 0;
      }
    }

    /**
     * `delete_sms`: clears `ind`, sends the bulk delete and CR, and waits; `reply` is stored from
     * position 0 and its bytes stay counted in `ind`.
     */
    method DeleteSms(reply: seq<Byte>)
      requires Valid()
      modifies this`trace, this`count, this`ind, dataReceived
      ensures Valid()
      ensures trace == old(trace) + CommandLine(DELETE_ALL)
      ensures dataReceived[..] == Fill(old(dataReceived[..]), 0, reply)
      ensures ind == Min(|reply|, BUFFER_SIZE) && count == 0
    {
      ind := 0;
      SendLine(DELETE_ALL);
      Delay(DELAY_2S);
      Delay(DELAY_2S);
      Receive(reply);
    }

    /** `read_SMS`: empties the string in the buffer and asks for message 1 (section 3.4.3 of 3GPP TS 27.005). */
    method ReadSms()
      requires Valid()
      modifies this`trace, this`ind, dataReceived
      ensures Valid()
      ensures dataReceived[..] == old(dataReceived[..])[0 := NUL]
      ensures trace == old(trace) + CommandLine(REG_1)
      ensures ind == 0
    {
      ind := 0;
      dataReceived[0] := NUL;
      SendLine(REG_1);
    }

    /** `bin_ascii` as intended: position i of `data_ascii` is '1' exactly when bit i is set. */
    method BinAscii(data: U8)
      requires Valid()
      modifies dataAscii
      ensures dataAscii[..] == Encode(data)
    {
      for i := 0 to ASCII_SIZE
        invariant forall j :: 0 <= j < i ==> dataAscii[j] == Encode(data)[j]
      {
        var temp := (data / Pow2(i)) % 2;
        if temp == 1 {
          dataAscii[i] := '1';
        } else {
          dataAscii[i] := '0';
        }
        LsbFirstAt(data, 8, i);
      }
    }

    /** `bin_ascii` as written: the unconditional store of '0' follows the conditional '1'. */
    method BinAsciiAsWritten(data: U8)
      requires Valid()
      modifies dataAscii
      ensures dataAscii[..] == ALL_ZERO
    {
      for i := 0 to ASCII_SIZE
        invariant forall j :: 0 <= j < i ==> dataAscii[j] == '0'
      {
        var temp := (data / Pow2(i)) % 2;
        if temp == 1 {
          dataAscii[i] := '1';
        }
        dataAscii[i] := '0';
      }
    }

    /** The build's `bin_ascii`. */
    method Convert(build: Build, data: U8)
      requires Valid()
      modifies dataAscii
      ensures dataAscii[..] == Ascii(build, data)
    {
      if build.AsWritten? {
        BinAsciiAsWritten(data);
      } else {
        BinAscii(data);
      }
    }

    /** A light arm of the switch: PORTB, the status push, `ind` cleared. */
    method SwitchLight(pole: Pole, on: bool)
      modifies this`portB, this`trace, this`ind
      ensures portB == Switched(old(portB), LightMask(pole), on)
      ensures trace == old(trace) + LightEvents(pole, on, old(portB))
      ensures ind == 0
    {
      WritePortB(Switched(portB, LightMask(pole), on));
      SendDataUrl(LIGHT_STATUS, StatusText(pole, on));
      ind := 0;
    }

    /** A resistance arm of the switch: convert the pole's sample, push `data_ascii`, `ind` cleared. */
    method ReportReading(build: Build, pole: Pole, sample: U8)
      requires Valid()
      modifies this`trace, this`ind, dataAscii
      ensures trace == old(trace) + ReadingEvents(build, pole, sample)
      ensures dataAscii[..] == Ascii(build, sample)
      ensures ind == 0
    {
      Convert(build, sample);
      SendDataUrl(PoleId(pole), dataAscii[..]);
      ind := 0;
    }

    /** The two-light arms: pole 1, then pole 2. */
    method SwitchLights(on: bool)
      modifies this`portB, this`trace, this`ind
      ensures portB == ActionPort(LightsCtrl(on), old(portB))
      ensures trace == old(trace) + (LightEvents(Pole1, on, old(portB)) + LightEvents(Pole2, on, Switched(old(portB), CTRL_1, on)))
      ensures ind == 0
    {
      SwitchLight(Pole1, on);
      SwitchLight(Pole2, on);
      assert old(trace) + LightEvents(Pole1, on, old(portB)) + LightEvents(Pole2, on, Switched(old(portB), CTRL_1, on)) ==
        old(trace) + (LightEvents(Pole1, on, old(portB)) + LightEvents(Pole2, on, Switched(old(portB), CTRL_1, on)));
    }

    /** The combined resistance arm: pole 1's reading, then pole 2's. */
    method ReportReadings(build: Build, s1: U8, s2: U8)
      requires Valid()
      modifies this`trace, this`ind, dataAscii
      ensures trace == old(trace) + (ReadingEvents(build, Pole1, s1) + ReadingEvents(build, Pole2, s2))
      ensures dataAscii[..] == Ascii(build, s2)
      ensures ind == 0
    {
      ReportReading(build, Pole1, s1);
      ReportReading(build, Pole2, s2);
      assert old(trace) + ReadingEvents(build, Pole1, s1) + ReadingEvents(build, Pole2, s2) ==
        old(trace) + (ReadingEvents(build, Pole1, s1) + ReadingEvents(build, Pole2, s2));
    }

    /** The body of the dispatcher's switch for one arm. */
    method Act(build: Build, a: Action, s1: U8, s2: U8)
      requires Valid()
      modifies this`portB, this`trace, this`ind, dataAscii
      ensures Valid()
      ensures portB == ActionPort(a, old(portB))
      ensures trace == old(trace) + ActionEvents(build, a, old(portB), s1, s2)
      ensures dataAscii[..] == ActionAscii(build, a, s1, s2, old(dataAscii[..]))
      ensures ind == if a.Sos? then old(ind) else 0
    {
      match a
      case LightCtrl(pole, on) =>
        LightCtrlArm(build, pole, on, portB, s1, s2, dataAscii[..]);
        SwitchLight(pole, on);
      case LightsCtrl(on) =>
        assert ActionPort(a, portB) == ActionPort(LightsCtrl(on), portB);
        LightsCtrlArm(build, on, portB, s1, s2, dataAscii[..]);
        SwitchLights(on);
      case ResRequest(pole) =>
        ResRequestArm(build, pole, portB, s1, s2, dataAscii[..]);
        ReportReading(build, pole, if pole == Pole1 then s1 else s2);
      case ResRequestBoth =>
        ResRequestBothArm(build, portB, s1, s2, dataAscii[..]);
        ReportReadings(build, s1, s2);
      case Sos =>
        SosArm(build, portB, s1, s2, dataAscii[..]);
        TxString(SOS);
    }

    /** The over-voltage check: input high means sensing off and a "bad" push for pole 1. */
    method FaultCheck(pinB3: bool)
      modifies this`portB, this`trace
      ensures portB == FaultPort(pinB3, old(portB))
      ensures trace == old(trace) + FaultEvents(pinB3, old(portB))
    {
      if pinB3 {
        WritePortB(portB | RES_SENS_EN);
        SendDataUrl(BAD_RES, POLE_1_ID);
      }
    }

    /**
     * The tail of the loop body once the reply is in the buffer: `get_ctrl`, the range test, and
     * for a command in range the bulk delete (its reply `deleteReply`) followed by the arm of the
     * switch. `stray` is the byte the unguarded `get_ctrl` reads where its pointer leaves the buffer.
     */
    method Dispatch(build: Build, deleteReply: seq<Byte>, stray: Byte, s1: U8, s2: U8)
      requires Valid()
      modifies this`portB, this`trace, this`ind, this`count, dataReceived, dataAscii
      ensures Valid()
      ensures CommandOf(build, old(dataReceived[..]), stray).None? ==>
        && dataReceived[..] == old(dataReceived[..]) && dataAscii[..] == old(dataAscii[..])
        && portB == old(portB) && ind == old(ind) && count == old(count) && trace == old(trace)
      ensures var cmd := CommandOf(build, old(dataReceived[..]), stray);
        cmd.Some? ==>
        && dataReceived[..] == Fill(old(dataReceived[..]), 0, deleteReply)
        && dataAscii[..] == ActionAscii(build, cmd.value, s1, s2, old(dataAscii[..]))
        && portB == ActionPort(cmd.value, old(portB)) && ind == 0 && count == 0
        && trace == old(trace) + CommandLine(DELETE_ALL) + ActionEvents(build, cmd.value, old(portB), s1, s2)
    {
      var cmdWord := CommandWord(build, dataReceived[..], stray);
      if cmdWord.Some? && TokenInRange(cmdWord.value) {
        DeleteSms(deleteReply);
        Act(build, ActionOf(cmdWord.value), s1, s2);
      }
    }

    /** The notification branch: `read_SMS`, `ind` cleared, the reply arriving, then the dispatch. */
    method HandleNotification(build: Build, reply: seq<Byte>, deleteReply: seq<Byte>, stray: Byte, s1: U8, s2: U8)
      requires Valid()
      modifies this`portB, this`trace, this`ind, this`count, dataReceived, dataAscii
      ensures Valid()
      ensures var rx := Fill(old(dataReceived[..])[0 := NUL], 0, reply);
        CommandOf(build, rx, stray).None? ==>
        && dataReceived[..] == rx && dataAscii[..] == old(dataAscii[..])
        && portB == old(portB) && ind == Min(|reply|, BUFFER_SIZE) && count == old(count)
        && trace == old(trace) + CommandLine(REG_1)
      ensures var rx := Fill(old(dataReceived[..])[0 := NUL], 0, reply);
        var cmd := CommandOf(build, rx, stray);
        cmd.Some? ==>
        && dataReceived[..] == Fill(rx, 0, deleteReply)
        && dataAscii[..] == ActionAscii(build, cmd.value, s1, s2, old(dataAscii[..]))
        && portB == ActionPort(cmd.value, old(portB)) && ind == 0 && count == 0
        && trace == old(trace) + CommandLine(REG_1) + CommandLine(DELETE_ALL) + ActionEvents(build, cmd.value, old(portB), s1, s2)
    {
      ReadSms();
      ind := 0;
      Receive(reply);
      Dispatch(build, deleteReply, stray, s1, s2);
    }

    /**
     * One pass of the `while(1)` loop of `main`. `pinB3` is the level of the over-voltage input,
     * `reply` the bytes the interrupt stores between `ind = 0` and `get_ctrl`, `deleteReply` those
     * it stores during the bulk delete, `stray` the byte the unguarded `get_ctrl` reads outside the
     * buffer, and `s1`, `s2` the samples the ADC would return for poles 1 and 2. Outside the
     * notification window only the over-voltage check runs.
     */
    method Poll(build: Build, pinB3: bool, reply: seq<Byte>, deleteReply: seq<Byte>, stray: Byte, s1: U8, s2: U8)
      requires Valid()
      modifies this`portB, this`trace, this`ind, this`count, dataReceived, dataAscii
      ensures Valid()
      ensures !Notified(old(ind), old(dataReceived[REGISTER_DIGIT])) ==>
        && dataReceived[..] == old(dataReceived[..]) && dataAscii[..] == old(dataAscii[..])
        && portB == FaultPort(pinB3, old(portB)) && ind == old(ind) && count == old(count)
        && trace == old(trace) + FaultEvents(pinB3, old(portB))
      ensures var rx := Fill(old(dataReceived[..])[0 := NUL], 0, reply);
        Notified(old(ind), old(dataReceived[REGISTER_DIGIT])) && CommandOf(build, rx, stray).None? ==>
        && dataReceived[..] == rx && dataAscii[..] == old(dataAscii[..])
        && portB == FaultPort(pinB3, old(portB)) && ind == Min(|reply|, BUFFER_SIZE) && count == old(count)
        && trace == old(trace) + FaultEvents(pinB3, old(portB)) + CommandLine(REG_1)
      ensures var rx := Fill(old(dataReceived[..])[0 := NUL], 0, reply);
        var cmd := CommandOf(build, rx, stray);
        var p := FaultPort(pinB3, old(portB));
        Notified(old(ind), old(dataReceived[REGISTER_DIGIT])) && cmd.Some? ==>
        && dataReceived[..] == Fill(rx, 0, deleteReply)
        && dataAscii[..] == ActionAscii(build, cmd.value, s1, s2, old(dataAscii[..]))
        && portB == ActionPort(cmd.value, p) && ind == 0 && count == 0
        && trace == old(trace) + FaultEvents(pinB3, old(portB)) + CommandLine(REG_1) + CommandLine(DELETE_ALL) +
          ActionEvents(build, cmd.value, p, s1, s2)
    {
      FaultCheck(pinB3);
      if 14 < ind < 20 {
        var cmdReg := dataReceived[REGISTER_DIGIT];
        if cmdReg == '1' {
          HandleNotification(build, reply, deleteReply, stray, s1, s2);
        }
      }
    }

    /**
     * The power-up step of `main`: the probe and, when it fails, the power-on pulse; then echo
     * off. `probe`, `notices` and `echo` are what the modem sends during the three waits.
     */
    method PowerUp(probe: seq<Byte>, notices: seq<Byte>, echo: seq<Byte>) returns (wasOn: bool)
      requires Valid()
      modifies this`portB, this`trace, this`ind, this`count, dataReceived
      ensures Valid()
      ensures var probed := Fill(old(dataReceived[..]), 0, probe);
        && (wasOn <==> probed[PROBE_REPLY_O] == 'O')
        && dataReceived[..] ==
          Fill(if wasOn then probed else Fill(probed, Min(|probe|, BUFFER_SIZE), notices), 0, echo)
      ensures portB == if wasOn then old(portB) else old(portB) | GSM_ON
      ensures trace == old(trace) + CommandLine(AT) +
        (if wasOn then [] else [PortWrite(old(portB) & !GSM_ON), PortWrite(old(portB) | GSM_ON)]) +
        CommandLine(NO_ECHO)
      ensures ind == 0 && count == 0
    {
      wasOn := PowerCheck(probe);
      if !wasOn {
        OnGsm(notices);
        EchoOff(echo);
        ind := 0;
      } else {
        EchoOff(echo);
        assert old(trace) + CommandLine(AT) + [] == old(trace) + CommandLine(AT);
      }
    }

    /**
     * `main` from the buffer reset to the bulk delete: power-up, text mode, and the deletion of
     * stored messages. Each field of `replies` is what the modem sends during one of the waits.
     */
    method Startup(replies: StartupReplies) returns (wasOn: bool)
      requires Valid()
      modifies this`portB, this`trace, this`ind, this`count, dataReceived
      ensures Valid()
      ensures var probed := Fill(old(dataReceived[..])[0 := NUL], 0, replies.probe);
        var powered := if wasOn then probed else Fill(probed, Min(|replies.probe|, BUFFER_SIZE), replies.notices);
        && (wasOn <==> probed[PROBE_REPLY_O] == 'O')
        && dataReceived[..] == Fill(Fill(Fill(Fill(powered, 0, replies.echo), 0, replies.mode), 0, replies.fullText), 0, replies.delete)
      ensures portB == if wasOn then old(portB) else old(portB) | GSM_ON
      ensures trace == old(trace) + CommandLine(AT) +
        (if wasOn then [] else [PortWrite(old(portB) & !GSM_ON), PortWrite(old(portB) | GSM_ON)]) +
        CommandLine(NO_ECHO) + CommandLine(TEXT_MODE) + CommandLine(FULL_TEXT) + CommandLine(DELETE_ALL)
      ensures ind == 0 && count == 0
    {
      dataReceived[0] := NUL;
      assert dataReceived[..] == old(dataReceived[..])[0 := NUL];
      wasOn := PowerUp(replies.probe, replies.notices, replies.echo);
      SetTextMode(replies.mode, replies.fullText);
      DeleteSms(replies.delete);
      ind := 0;
    }

    /** One round of the start-up readings, each pole's text pushed before the next conversion. */
    method ReportRound(build: Build, pinB3: bool, s1: U8, s2: U8)
      requires Valid()
      modifies this`portB, this`trace, dataAscii
      ensures portB == FaultPort(pinB3, old(portB))
      ensures trace == old(trace) + ReportEvents(build, pinB3, old(portB), s1, s2)
      ensures dataAscii[..] == Ascii(build, s2)
    {
      FaultCheck(pinB3);
      Convert(build, s1);
      SendDataUrl(POLE_1_ID, dataAscii[..]);
      Convert(build, s2);
      SendDataUrl(POLE_2_ID, dataAscii[..]);
    }

    /** The round in the code's order: both conversions first, then two pushes of the one shared buffer. */
    method ReportRoundAliased(build: Build, pinB3: bool, s1: U8, s2: U8)
      requires Valid()
      modifies this`portB, this`trace, dataAscii
      ensures portB == FaultPort(pinB3, old(portB))
      ensures trace == old(trace) + ReportEventsAliased(build, pinB3, old(portB), s1, s2)
      ensures dataAscii[..] == Ascii(build, s2)
    {
      FaultCheck(pinB3);
      Convert(build, s1);
      var data1 := dataAscii;
      Convert(build, s2);
      var data2 := dataAscii;
      SendDataUrl(POLE_1_ID, data1[..]);
      SendDataUrl(POLE_2_ID, data2[..]);
    }

    /**
     * One round of the start-up loop in the given build: as written, the code's aliased round with
     * its all-zero texts; corrected, one text per pole.
     */
    method StartupRound(build: Build, r: RoundInputs)
      requires Valid()
      modifies this`portB, this`trace, dataAscii
      ensures portB == FaultPort(r.pinB3, old(portB))
      ensures trace == old(trace) + RoundEvents(build, r, old(portB))
      ensures dataAscii[..] == Ascii(build, r.s2)
    {
      if build.AsWritten? {
        AliasingLatent(r.pinB3, portB, r.s1, r.s2);
        ReportRoundAliased(build, r.pinB3, r.s1, r.s2);
      } else {
        ReportRound(build, r.pinB3, r.s1, r.s2);
      }
    }

    /** The ten rounds of readings `main` sends after start-up. */
    method InitialReport(build: Build, rounds: seq<RoundInputs>)
      requires Valid()
      requires |rounds| == REPORT_ROUNDS
      modifies this`portB, this`trace, dataAscii
      ensures portB == PortAfterRounds(rounds, old(portB))
      ensures trace == old(trace) + Reports(build, rounds, old(portB))
      ensures dataAscii[..] == Ascii(build, rounds[|rounds| - 1].s2)
    {
      ghost var p0, t0 := portB, trace;
      ghost var lastText := dataAscii[..];
      var i := 0;
      while i < |rounds|
        invariant 0 <= i <= |rounds|
        invariant portB == PortAfterRounds(rounds[..i], p0)
        invariant trace == t0 + Reports(build, rounds[..i], p0)
        invariant dataAscii[..] == lastText
        invariant i > 0 ==> lastText == Ascii(build, rounds[i - 1].s2)
      {
        StartupRound(build, rounds[i]);
        lastText := Ascii(build, rounds[i].s2);
        PortAfterRoundsSnoc(rounds, p0, i);
        ReportsSnoc(build, rounds, p0, i, t0, trace);
        i := i + 1;
      }
      assert rounds[..i] == rounds;
    }
  }
}
