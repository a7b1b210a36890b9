/** Bytes, NUL-terminated strings and the libc searches the firmware relies on. */
module CString {

  /** A C `char` of the AVR target: one byte. */
  type Byte = c: char | c as int < 256 witness '\0'

  type U8 = x: int | 0 <= x < 0x100
  type U16 = x: int | 0 <= x < 0x1_0000
  type U32 = x: int | 0 <= x < 0x1_0000_0000

  const NUL: Byte := '\0'

  datatype Option<T> = None | Some(value: T)

  function Min(a: int, b: int): int { if a < b then a else b }

  /** Index of the terminator of the string that starts at `s[0]`. */
  function FirstNul(s: seq<Byte>): (k: nat)
    requires NUL in s
    ensures k < |s| && s[k] == NUL
    ensures NUL !in s[..k]
  {
    if s[0] == NUL then 0
    else
      assert NUL in s[1..];
      1 + FirstNul(s[1..])
  }

  /** The characters before the first NUL: what a loop `while (*p != '\0')` visits. */
  function CStr(s: seq<Byte>): seq<Byte>
    requires NUL in s
  {
    s[..FirstNul(s)]
  }

  /** Length of the string held in a fixed buffer; a buffer with no NUL is read up to its end. */
  function CLen(buf: seq<Byte>): (n: nat)
    ensures n <= |buf|
    ensures NUL !in buf[..n]
    ensures n < |buf| ==> buf[n] == NUL
  {
    if NUL in buf then FirstNul(buf) else |buf|
  }

  /** A literal written without NUL and then terminated reads back as itself. */
  lemma {:induction false} CStrTerminated(s: seq<Byte>)
    requires NUL !in s
    ensures NUL in s + [NUL] && CStr(s + [NUL]) == s
  {
    if s != [] {
      assert (s + [NUL])[1..] == s[1..] + [NUL];
      CStrTerminated(s[1..]);
    }
  }

  /** `strrchr`: the position of the last `c` in `s`, or -1 where the C library returns NULL. */
  function LastIndex(s: seq<Byte>, c: Byte): (r: int)
    ensures -1 <= r < |s|
    ensures r >= 0 ==> s[r] == c && c !in s[r + 1..]
    ensures r == -1 <==> c !in s
    decreases |s|
  {
    if |s| == 0 then -1
    else if s[|s| - 1] == c then |s| - 1
    else
      assert s == s[..|s| - 1] + [s[|s| - 1]];
      LastIndex(s[..|s| - 1], c)
  }
}
