/**
 * Shared vocabulary of the door-controller firmware model: fixed-width
 * integers, optional values, ESP-IDF error codes, C-string buffers, the
 * printf conversions the firmware uses, and the bounded FreeRTOS queue
 * every task reads its commands from.
 */
module Base {

  newtype uint8 = x: int | 0 <= x < 0x100
  newtype uint32 = x: int | 0 <= x < 0x1_0000_0000
  type Bytes = seq<uint8>

  /** A GPIO input level as `gpio_get_level` returns it. */
  type Level = x: int | 0 <= x <= 1

  datatype Option<T> = None | Some(value: T)

  /** The `esp_err_t` results the core returns; `Code` is any other number. */
  datatype EspErr =
    | Ok | Fail | NoMem | InvalidArg | InvalidState | NotFound | NotSupported
    | NvsNotFound | Code(n: int)

  // ---------------------------------------------------------------------
  // C strings held in fixed buffers
  // ---------------------------------------------------------------------

  /** The C string a buffer holds: everything before its first NUL. */
  function CStr<T(==)>(s: seq<T>, nul: T): (r: seq<T>)
    ensures r <= s && nul !in r
    ensures |r| < |s| ==> s[|r|] == nul
  {
    if s == [] || s[0] == nul then [] else [s[0]] + CStr(s[1..], nul)
  }

  /** A buffer with no NUL in it holds itself as its C string. */
  lemma CStrNoNul<T>(s: seq<T>, nul: T)
    requires nul !in s
    ensures CStr(s, nul) == s
  {
    var r := CStr(s, nul);
    if |r| < |s| {
      assert false;
    }
  }

  /** A buffer read up to its terminator: the text before it, whatever follows. */
  lemma CStrTerminated<T>(s: seq<T>, nul: T, rest: seq<T>)
    requires nul !in s
    ensures CStr(s + [nul] + rest, nul) == s
  {
    var b := s + [nul] + rest;
    var r := CStr(b, nul);
    assert b[..|s|] == s;
    assert b[|s|] == nul;
    if |r| < |s| {
      assert false;
    }
    if |r| > |s| {
      assert false;
    }
  }

  /** The bytes `strncpy(dst, src, n)` leaves in an `n`-byte buffer. */
  function Strncpy(src: string, n: nat): (r: string)
    ensures |r| == n
  {
    if |src| < n then src + seq(n - |src|, _ => '\0') else src[..n]
  }

  /** The copy is NUL-terminated exactly when the source fits, and then holds the source. */
  lemma StrncpyTerminated(src: string, n: nat)
    requires '\0' !in src
    ensures '\0' in Strncpy(src, n) <==> |src| < n
    ensures |src| < n ==> CStr(Strncpy(src, n), '\0') == src
    ensures |src| >= n ==> CStr(Strncpy(src, n), '\0') == src[..n]
  {
    var r := Strncpy(src, n);
    if |src| < n {
      assert r[|src|] == '\0';
      assert r == src + ['\0'] + seq(n - |src| - 1, _ => '\0');
      CStrTerminated(src, '\0', seq(n - |src| - 1, _ => '\0'));
    } else {
      assert forall i :: 0 <= i < n ==> r[i] == src[i];
      CStrNoNul(r, '\0');
    }
  }

  /** The string `snprintf(buf, size, ...)` leaves when the full output is `s`. */
  function Snprintf(s: string, size: nat): (r: string)
    requires size > 0
    ensures |r| < size && r <= s
    ensures |s| < size ==> r == s
  {
    if |s| < size then s else s[..size - 1]
  }

  /** Character `i` of a C string, NUL past its end. */
  function At(s: string, i: nat): char
  {
    if i < |s| then s[i] else '\0'
  }

  function Tail(s: string): string
  {
    if s == [] then [] else s[1..]
  }

  /** `strncmp(a, b, n) == 0` on two C strings. */
  predicate StrnEq(a: string, b: string, n: nat)
    decreases n
  {
    n == 0 || (At(a, 0) == At(b, 0) && (At(a, 0) == '\0' || StrnEq(Tail(a), Tail(b), n - 1)))
  }

  function Min(a: int, b: int): int { if a < b then a else b }

  /**
   * For strings without NULs, `strncmp(a, b, n) == 0` holds exactly when the
   * first `n` characters (or fewer, if a string is shorter) agree and both
   * strings end, or both continue, at the same place within the window.
   */
  lemma {:induction false} StrnEqIff(a: string, b: string, n: nat)
    requires '\0' !in a && '\0' !in b
    ensures StrnEq(a, b, n) <==> (Min(n, |a|) == Min(n, |b|) && a[..Min(n, |a|)] == b[..Min(n, |b|)])
    decreases n
  {
    if n == 0 {
    } else if a == [] || b == [] {
      if a != [] { assert At(a, 0) == a[0] != '\0'; }
      if b != [] { assert At(b, 0) == b[0] != '\0'; }
    } else {
      assert At(a, 0) == a[0] && At(b, 0) == b[0];
      assert a[0] != '\0';
      StrnEqIff(a[1..], b[1..], n - 1);
      var k, l := Min(n, |a|), Min(n, |b|);
      assert a[..k] == [a[0]] + a[1..][..k - 1];
      assert b[..l] == [b[0]] + b[1..][..l - 1];
      if k == l && a[..k] == b[..l] {
        assert a[0] == a[..k][0] == b[..l][0] == b[0];
        assert a[1..][..k - 1] == a[..k][1..] == b[..l][1..] == b[1..][..l - 1];
      }
    }
  }

  // ---------------------------------------------------------------------
  // printf conversions: %x, %02x, %02X, %d, %u
  // ---------------------------------------------------------------------

  function HexDigit(d: nat, upper: bool): (c: char)
    requires d < 16
  {
    if d < 10 then ('0' as int + d) as char
    else if upper then ('A' as int + d - 10) as char
    else ('a' as int + d - 10) as char
  }

  /** The value of a hexadecimal digit of either case, -1 for anything else. */
  function HexValue(c: char): int
  {
    if '0' <= c <= '9' then c as int - '0' as int
    else if 'a' <= c <= 'f' then c as int - 'a' as int + 10
    else if 'A' <= c <= 'F' then c as int - 'A' as int + 10
    else -1
  }

  predicate IsLowerHex(c: char) { '0' <= c <= '9' || 'a' <= c <= 'f' }

  /** `"%02x"` (or `"%02X"`) of one byte. */
  function Hex2(b: uint8, upper: bool): (r: string)
    ensures |r| == 2
    ensures HexValue(r[0]) * 16 + HexValue(r[1]) == b as int
    ensures !upper ==> IsLowerHex(r[0]) && IsLowerHex(r[1])
    ensures '\0' !in r
  {
    [HexDigit(b as int / 16, upper), HexDigit(b as int % 16, upper)]
  }

  /** The bytes written one after another as `"%02x"`. */
  function HexOf(bs: Bytes): (r: string)
    ensures |r| == 2 * |bs|
  {
    if bs == [] then [] else Hex2(bs[0], false) + HexOf(bs[1..])
  }

  lemma {:induction false} HexOfAt(bs: Bytes, i: nat)
    requires i < |bs|
    ensures HexOf(bs)[2 * i..2 * i + 2] == Hex2(bs[i], false)
  {
    if i > 0 {
      HexOfAt(bs[1..], i - 1);
      assert HexOf(bs) == Hex2(bs[0], false) + HexOf(bs[1..]);
      assert HexOf(bs)[2 * i..2 * i + 2] == HexOf(bs[1..])[2 * (i - 1)..2 * (i - 1) + 2];
    }
  }

  /** Every character of a rendered hex string is a lower-case hex digit. */
  lemma {:induction false} HexOfDigits(bs: Bytes)
    ensures forall i :: 0 <= i < |HexOf(bs)| ==> IsLowerHex(HexOf(bs)[i])
    ensures '\0' !in HexOf(bs)
  {
    if bs != [] {
      HexOfDigits(bs[1..]);
      var h := Hex2(bs[0], false);
      assert HexOf(bs) == h + HexOf(bs[1..]);
      forall i | 0 <= i < |HexOf(bs)| ensures IsLowerHex(HexOf(bs)[i]) {
        if i >= 2 { assert HexOf(bs)[i] == HexOf(bs[1..])[i - 2]; }
      }
    }
  }

  /** Reads a string of hex digit pairs back into bytes. */
  function UnHex(s: string): Bytes
    requires |s| % 2 == 0
  {
    if s == [] then []
    else
      var v := HexValue(s[0]) * 16 + HexValue(s[1]);
      [if 0 <= v < 256 then v as uint8 else 0] + UnHex(s[2..])
  }

  /** Reading the rendered hex back gives the original bytes. */
  lemma {:induction false} UnHexHexOf(bs: Bytes)
    ensures UnHex(HexOf(bs)) == bs
  {
    if bs != [] {
      var h := HexOf(bs);
      assert h == Hex2(bs[0], false) + HexOf(bs[1..]);
      assert h[2..] == HexOf(bs[1..]);
      UnHexHexOf(bs[1..]);
    }
  }

  /** Two byte strings with the same hex rendering are equal. */
  lemma HexOfInjective(a: Bytes, b: Bytes)
    requires HexOf(a) == HexOf(b)
    ensures a == b
  {
    UnHexHexOf(a);
    UnHexHexOf(b);
  }

  function DecDigit(d: nat): char
    requires d < 10
  {
    ('0' as int + d) as char
  }

  predicate IsDigit(c: char) { '0' <= c <= '9' }

  /** The value of a string of decimal digits, read left to right. */
  function DecValue(s: string): nat
  {
    if s == [] then 0
    else DecValue(s[..|s| - 1]) * 10 + (if IsDigit(s[|s| - 1]) then s[|s| - 1] as int - '0' as int else 0)
  }

  /** `"%u"` of a natural number: its shortest decimal digits. */
  function DecDigits(n: nat): (r: string)
    ensures |r| >= 1 && forall i :: 0 <= i < |r| ==> IsDigit(r[i])
    ensures DecValue(r) == n
    ensures n >= 10 ==> r[0] != '0'
  {
    if n < 10 then [DecDigit(n)]
    else
      var r := DecDigits(n / 10) + [DecDigit(n % 10)];
      assert r[..|r| - 1] == DecDigits(n / 10);
      r
  }

  /** `"%d"` of an integer. */
  function DecInt(n: int): (r: string)
    ensures n >= 0 ==> r == DecDigits(n)
    ensures n < 0 ==> r == ['-'] + DecDigits(-n)
  {
    if n < 0 then ['-'] + DecDigits(-n) else DecDigits(n)
  }

  function Pow10(k: nat): (p: nat)
    ensures p >= 1
  {
    if k == 0 then 1 else 10 * Pow10(k - 1)
  }

  /**
   * `"%<w>.<w>u"` of a number with at most `width` digits: exactly `width`
   * decimal digits, leading zeros kept.
   */
  function ZeroPadDec(n: nat, width: nat): (r: string)
    requires n < Pow10(width)
    ensures |r| == width && forall i :: 0 <= i < |r| ==> IsDigit(r[i])
    ensures DecValue(r) == n
  {
    if width == 0 then []
    else
      var r := ZeroPadDec(n / 10, width - 1) + [DecDigit(n % 10)];
      assert r[..|r| - 1] == ZeroPadDec(n / 10, width - 1);
      r
  }

  // ---------------------------------------------------------------------
  // The bounded FreeRTOS queue every task reads its commands from
  // ---------------------------------------------------------------------

  /** What a queue holds after offering it `x`: a full queue refuses it. */
  function Offered<T>(q: seq<T>, capacity: nat, x: T): seq<T>
  {
    if |q| < capacity then q + [x] else q
  }

  /**
   * A FreeRTOS queue of fixed depth.  A sender that finds it full fails;
   * a receiver that finds it empty gets nothing.
   */
  class Mailbox<T> {
    const capacity: nat
    var items: seq<T>

    ghost predicate Valid()
      reads this
    {
      |items| <= capacity
    }

    constructor (capacity: nat)
      ensures Valid() && this.capacity == capacity && items == []
    {
      this.capacity := capacity;
      items := [];
    }

    /** `xQueueSend(q, &x, timeout)`: pdTRUE when the item was queued. */
    method Send(x: T) returns (ok: bool)
      requires Valid()
      modifies this
      ensures Valid()
      ensures ok == (|old(items)| < capacity)
      ensures items == Offered(old(items), capacity, x)
    {
      ok := |items| < capacity;
      if ok {
        items := items + [x];
      }
    }

    /** `xQueueReceive(q, &x, timeout)`: the oldest item, if there is one. */
    method Receive() returns (m: Option<T>)
      requires Valid()
      modifies this
      ensures Valid()
      ensures old(items) == [] ==> m == None && items == []
      ensures old(items) != [] ==> m == Some(old(items)[0]) && items == old(items)[1..]
    {
      if items == [] {
        m := None;
      } else {
        m := Some(items[0]);
        items := items[1..];
      }
    }
  }
}
