/**
 * The command vocabulary of the SMS dispatcher and the extraction of the command character
 * from the reply to `AT+CMGR=1` (section 3.4.3 of 3GPP TS 27.005): in text mode with full
 * headers the character four places after the last comma of the reply.
 */
module Commands {
  import opened CString

  // Control characters, 'A' to 'I'. Another firmware revision uses other values, so these
  // are configuration rather than protocol constants.
  const LIGHT_1_CTRL_ON: Byte := 'A'
  const LIGHT_1_CTRL_OFF: Byte := 'B'
  const LIGHT_2_CTRL_ON: Byte := 'C'
  const LIGHT_2_CTRL_OFF: Byte := 'D'
  const LIGHTS_ON: Byte := 'E'
  const LIGHTS_OFF: Byte := 'F'
  const LIGHT_1_RES_REQ: Byte := 'G'
  const LIGHT_2_RES_REQ: Byte := 'H'
  const LIGHTS_RES_REQ: Byte := 'I'

  const COMMA: Byte := ','
  /** Distance from the last comma of the reply to the command character. */
  const TOKEN_OFFSET: nat := 4

  datatype Pole = Pole1 | Pole2

  /** One arm of the dispatcher's switch. */
  datatype Action =
    | LightCtrl(pole: Pole, on: bool)
    | LightsCtrl(on: bool)
    | ResRequest(pole: Pole)
    | ResRequestBoth
    | Sos

  /** The nine command characters the switch has a case for. */
  const COMMAND_CHARS: set<Byte> := {
    LIGHT_1_CTRL_ON, LIGHT_1_CTRL_OFF, LIGHT_2_CTRL_ON, LIGHT_2_CTRL_OFF, LIGHTS_ON,
    LIGHTS_OFF, LIGHT_1_RES_REQ, LIGHT_2_RES_REQ, LIGHTS_RES_REQ}

  /**
   * The range test in front of the switch: `cmd_word > 64 && cmd_word < 74`, which admits
   * exactly the nine command characters.
   */
  predicate TokenInRange(t: Byte): (r: bool)
    ensures r <==> t in COMMAND_CHARS
  {
    64 < t as int < 74
  }

  /** The character whose `case` selects an arm other than `default`. */
  function CommandChar(a: Action): (t: Byte)
    requires !a.Sos?
  {
    match a
    case LightCtrl(Pole1, on) => if on then LIGHT_1_CTRL_ON else LIGHT_1_CTRL_OFF
    case LightCtrl(Pole2, on) => if on then LIGHT_2_CTRL_ON else LIGHT_2_CTRL_OFF
    case LightsCtrl(on) => if on then LIGHTS_ON else LIGHTS_OFF
    case ResRequest(Pole1) => LIGHT_1_RES_REQ
    case ResRequest(Pole2) => LIGHT_2_RES_REQ
    case ResRequestBoth => LIGHTS_RES_REQ
  }

  /**
   * The switch on the command character; anything else reaches `default`. Each command
   * character selects the arm whose `case` label it is.
   */
  function ActionOf(t: Byte): (a: Action)
    ensures t in COMMAND_CHARS ==> !a.Sos? && CommandChar(a) == t
    ensures t !in COMMAND_CHARS ==> a.Sos?
  {
    if t == LIGHT_1_CTRL_OFF then LightCtrl(Pole1, false)
    else if t == LIGHT_1_CTRL_ON then LightCtrl(Pole1, true)
    else if t == LIGHT_2_CTRL_OFF then LightCtrl(Pole2, false)
    else if t == LIGHT_2_CTRL_ON then LightCtrl(Pole2, true)
    else if t == LIGHTS_OFF then LightsCtrl(false)
    else if t == LIGHTS_ON then LightsCtrl(true)
    else if t == LIGHT_1_RES_REQ then ResRequest(Pole1)
    else if t == LIGHT_2_RES_REQ then ResRequest(Pole2)
    else if t == LIGHTS_RES_REQ then ResRequestBoth
    else Sos
  }

  /** The switch reaches `default` exactly for the characters the range test already rejects. */
  lemma DefaultOnlyOutOfRange(t: Byte)
    ensures ActionOf(t).Sos? <==> !TokenInRange(t)
  {
  }

  /** Every arm other than `default` is selected by its own `case` label. */
  lemma CaseLabelSelectsArm(a: Action)
    requires !a.Sos?
    ensures CommandChar(a) in COMMAND_CHARS && ActionOf(CommandChar(a)) == a
  {
  }

  /** Different characters in range select different arms: each command has one action. */
  lemma ActionOfInjective(t: Byte, u: Byte)
    requires TokenInRange(t) && TokenInRange(u) && t != u
    ensures ActionOf(t) != ActionOf(u)
  {
  }

  /** A comma sits far enough from the end of the string for a command character to follow it. */
  ghost predicate CommaBeforeToken(buf: seq<Byte>) {
    (exists i :: 0 <= i < CLen(buf) - TOKEN_OFFSET && buf[i] == COMMA) &&
    (forall j :: CLen(buf) - TOKEN_OFFSET <= j < CLen(buf) && 0 <= j ==> buf[j] != COMMA)
  }

  lemma LastCommaBeforeToken(buf: seq<Byte>)
    ensures var c := LastIndex(buf[..CLen(buf)], COMMA);
      0 <= c && c + TOKEN_OFFSET < CLen(buf) <==> CommaBeforeToken(buf)
  {
    var n := CLen(buf);
    var s := buf[..n];
    var c := LastIndex(s, COMMA);
    if 0 <= c && c + TOKEN_OFFSET < n {
      assert buf[c] == COMMA;
      forall j | n - TOKEN_OFFSET <= j < n && 0 <= j
        ensures buf[j] != COMMA
      {
        assert s[c + 1..][j - c - 1] == buf[j];
      }
    }
    if CommaBeforeToken(buf) {
      var i :| 0 <= i < n - TOKEN_OFFSET && buf[i] == COMMA;
      assert s[i] == COMMA;
      assert buf[c] == COMMA;
    }
  }

  /**
   * `get_ctrl`, guarded: the index four past the last comma of the string held in the
   * buffer, when that index still lies inside the string; None where the unguarded code
   * would dereference NULL + 4 or read past the terminator.
   */
  function GetCtrl(buf: seq<Byte>): (r: Option<nat>)
    ensures r.Some? ==> TOKEN_OFFSET <= r.value < CLen(buf)
    ensures r.Some? ==> buf[r.value - TOKEN_OFFSET] == COMMA
    ensures r.Some? ==> COMMA !in buf[r.value - TOKEN_OFFSET + 1..CLen(buf)]
    ensures r.Some? <==> CommaBeforeToken(buf)
  {
    var n := CLen(buf);
    var c := LastIndex(buf[..n], COMMA);
    LastCommaBeforeToken(buf);
    if 0 <= c && c + TOKEN_OFFSET < n then
      assert buf[..n][c + 1..] == buf[c + 1..n];
      Some(c + TOKEN_OFFSET)
    else
      None
  }

  /** A `char *`: a position in `data_received`, or an offset from the NULL pointer. */
  datatype Place = InBuffer(index: int) | FromNull(offset: int)

  /** `get_ctrl` as written: `strrchr(data_received, ',') + 4`, with no check of the result. */
  function GetCtrlAsWritten(buf: seq<Byte>): (p: Place)
    ensures p.FromNull? <==> COMMA !in buf[..CLen(buf)]
    ensures p.FromNull? ==> p.offset == TOKEN_OFFSET
    ensures p.InBuffer? ==> TOKEN_OFFSET <= p.index < CLen(buf) + TOKEN_OFFSET
    ensures p.InBuffer? ==> buf[p.index - TOKEN_OFFSET] == COMMA
    ensures p.InBuffer? ==> COMMA !in buf[p.index - TOKEN_OFFSET + 1..CLen(buf)]
  {
    var n := CLen(buf);
    var c := LastIndex(buf[..n], COMMA);
    if c == -1 then FromNull(TOKEN_OFFSET)
    else
      assert buf[..n][c + 1..] == buf[c + 1..n];
      InBuffer(c + TOKEN_OFFSET)
  }

  /** The guard changes nothing where the unguarded pointer lands inside the string. */
  lemma GetCtrlRefinesAsWritten(buf: seq<Byte>, p: nat)
    ensures GetCtrl(buf) == Some(p) <==> GetCtrlAsWritten(buf) == InBuffer(p) && p < CLen(buf)
  {
  }

  /**
   * `read_SMS` empties the string and `get_ctrl` runs straight after it: with no reply in the
   * buffer yet, the unguarded pointer is NULL + 4, and the guarded search finds nothing.
   */
  lemma GetCtrlOnEmptiedBuffer(buf: seq<Byte>)
    requires |buf| > 0 && buf[0] == NUL
    ensures GetCtrlAsWritten(buf) == FromNull(TOKEN_OFFSET)
    ensures GetCtrl(buf) == None
  {
    assert CLen(buf) == 0;
  }

  /**
   * The character `*get_ctrl()` reads as written: the byte at the returned position while that
   * lies inside the buffer, and `stray`, a byte of memory outside `data_received`, where the
   * pointer is NULL + 4 or past the buffer's end. Past the terminator but inside the buffer it
   * is whatever an earlier reply left there.
   */
  function CommandWordAsWritten(buf: seq<Byte>, stray: Byte): (w: Byte)
    ensures GetCtrlAsWritten(buf).FromNull? ==> w == stray
    ensures GetCtrl(buf).Some? ==> w == buf[GetCtrl(buf).value]
    ensures GetCtrlAsWritten(buf).InBuffer? && GetCtrlAsWritten(buf).index < |buf| ==>
      w == buf[GetCtrlAsWritten(buf).index]
    ensures GetCtrlAsWritten(buf).InBuffer? && GetCtrlAsWritten(buf).index >= |buf| ==> w == stray
  {
    match GetCtrlAsWritten(buf)
    case FromNull(_) => stray
    case InBuffer(i) => if i < |buf| then buf[i] else stray
  }

  /** The command the unguarded code acts on: the character it reads, if that passes the range test. */
  function CommandAsWritten(buf: seq<Byte>, stray: Byte): (r: Option<Action>)
    ensures r.Some? ==> !r.value.Sos?
    ensures r.Some? <==> TokenInRange(CommandWordAsWritten(buf, stray))
  {
    var w := CommandWordAsWritten(buf, stray);
    if TokenInRange(w) then Some(ActionOf(w)) else None
  }

  /** The command a reply carries: its extracted character, if that passes the range test. */
  function Command(buf: seq<Byte>): (r: Option<Action>)
    ensures r.Some? ==> !r.value.Sos?
    ensures r.Some? <==> GetCtrl(buf).Some? && TokenInRange(buf[GetCtrl(buf).value])
  {
    match GetCtrl(buf)
    case None => None
    case Some(p) => if TokenInRange(buf[p]) then Some(ActionOf(buf[p])) else None
  }

  /**
   * The dispatch without the range test in front of the switch: every character found in the
   * reply reaches the switch, and one outside 'A' to 'I' is answered by the `default` arm.
   */
  function CommandWithDistress(buf: seq<Byte>): (r: Option<Action>)
    ensures r.Some? <==> GetCtrl(buf).Some?
    ensures r.Some? ==> (r.value.Sos? <==> !TokenInRange(buf[GetCtrl(buf).value]))
  {
    match GetCtrl(buf)
    case None => None
    case Some(p) => Some(ActionOf(buf[p]))
  }

  /**
   * Dropping the range test changes the dispatch only where the range test drops the character:
   * there the variant answers with the distress arm instead of doing nothing.
   */
  lemma DistressOnlyWhereCommandDrops(buf: seq<Byte>)
    ensures Command(buf).Some? ==> CommandWithDistress(buf) == Command(buf)
    ensures CommandWithDistress(buf) == Some(Sos) <==> GetCtrl(buf).Some? && Command(buf).None?
  {
    match GetCtrl(buf)
    case None =>
    case Some(p) => DefaultOnlyOutOfRange(buf[p]);
  }

  /** Where the guarded search finds a command character, the unguarded code acts on the same one. */
  lemma CommandAgreesWhenGuarded(buf: seq<Byte>, stray: Byte)
    requires GetCtrl(buf).Some?
    ensures CommandAsWritten(buf, stray) == Command(buf)
  {
  }

  /**
   * With the string emptied and nothing received, the unguarded code's command is decided by the
   * stray byte at NULL + 4 alone, while the guarded search yields none.
   */
  lemma EmptiedBufferActsOnStray(buf: seq<Byte>, stray: Byte)
    requires |buf| > 0 && buf[0] == NUL
    ensures CommandAsWritten(buf, stray) == (if TokenInRange(stray) then Some(ActionOf(stray)) else None)
    ensures Command(buf) == None
  {
    GetCtrlOnEmptiedBuffer(buf);
  }

  /**
   * A comma among the last four characters of the string: the guarded search yields none, but the
   * unguarded code reads the byte four places on, beyond the terminator, and acts on it if it is
   * in range.
   */
  lemma LateCommaActsOnStaleByte(buf: seq<Byte>, stray: Byte, c: nat)
    requires c < CLen(buf) && buf[c] == COMMA && COMMA !in buf[c + 1..CLen(buf)]
    requires CLen(buf) <= c + TOKEN_OFFSET < |buf|
    ensures Command(buf) == None
    ensures CommandWordAsWritten(buf, stray) == buf[c + TOKEN_OFFSET]
  {
    var n := CLen(buf);
    var s := buf[..n];
    assert s[c] == COMMA;
    assert s[c + 1..] == buf[c + 1..n];
  }
}
