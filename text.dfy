/** The Python text built-ins that the middleware's field derivation relies on:
    `str.split(sep)[0]`, `int(str)`, `bytes.decode("utf-8")` and `str(bytes)`.
    Each is a total function; where Python raises, the result is `None`. */
module Text {
  import opened Wrappers
  import opened Arith

  type byte = b: int | 0 <= b < 256

  // ---------------------------------------------------------------------------
  // Splitting at the first separator

  /** `s.split(sep)[0]`: the text before the first `sep`, or all of `s`. */
  function Before(s: string, sep: char): (r: string)
    ensures r <= s
    ensures sep !in r
    ensures |r| < |s| ==> s[|r|] == sep
  {
    if s == [] || s[0] == sep then [] else [s[0]] + Before(s[1..], sep)
  }

  /** The text after the first `sep`, or empty when there is none. */
  function After(s: string, sep: char): (r: string)
    ensures sep in s ==> s == Before(s, sep) + [sep] + r
    ensures sep !in s ==> r == [] && Before(s, sep) == s
  {
    var p := Before(s, sep);
    if |p| < |s| then s[|p| + 1..] else []
  }

  /** Joining two pieces at a separator that the first one lacks is undone by
      `Before` and `After`. */
  lemma {:induction false} SplitJoin(a: string, b: string, sep: char)
    requires sep !in a
    ensures Before(a + [sep] + b, sep) == a
    ensures After(a + [sep] + b, sep) == b
  {
    var s := a + [sep] + b;
    assert s[|a|] == sep;
    assert forall i :: 0 <= i < |a| ==> s[i] == a[i];
  }

  // ---------------------------------------------------------------------------
  // int(str), base 10

  /** The characters `int()` skips around its digits: the ASCII white space
      `\t \n \v \f \r` and space, and the non-ASCII characters for which
      `str.isspace()` holds. The ASCII separators U+001C to U+001F pass
      `str.isspace()` but are not skipped, so `int()` rejects them. */
  predicate IsSpace(c: char) {
    var n := c as int;
    || 0x09 <= n <= 0x0D || n == 0x20 || n == 0x85 || n == 0xA0
    || n == 0x1680 || 0x2000 <= n <= 0x200A || n == 0x2028 || n == 0x2029
    || n == 0x202F || n == 0x205F || n == 0x3000
  }

  function TrimStart(s: string): (r: string)
    ensures |r| <= |s| && r == s[|s| - |r|..]
    ensures forall i :: 0 <= i < |s| - |r| ==> IsSpace(s[i])
    ensures r != [] ==> !IsSpace(r[0])
  {
    if s != [] && IsSpace(s[0]) then TrimStart(s[1..]) else s
  }

  function TrimEnd(s: string): (r: string)
    ensures r <= s
    ensures forall i :: |r| <= i < |s| ==> IsSpace(s[i])
    ensures r != [] ==> !IsSpace(r[|r| - 1])
  {
    if s != [] && IsSpace(s[|s| - 1]) then TrimEnd(s[..|s| - 1]) else s
  }

  /** The trimming `int()` applies before it reads the sign and digits. */
  function Strip(s: string): string {
    TrimEnd(TrimStart(s))
  }

  predicate IsDigit(c: char) {
    '0' <= c <= '9'
  }

  /** The digit part `int()` accepts: digits, with single underscores between
      two digits. */
  predicate DigitGroups(s: string) {
    && |s| > 0
    && IsDigit(s[0])
    && IsDigit(s[|s| - 1])
    && (forall i :: 0 <= i < |s| ==> IsDigit(s[i]) || s[i] == '_')
    && (forall i :: 0 <= i < |s| - 1 && s[i] == '_' ==> IsDigit(s[i + 1]))
  }

  function DigitsValue(s: string): nat
    requires forall i :: 0 <= i < |s| ==> IsDigit(s[i]) || s[i] == '_'
  {
    if s == [] then 0
    else if s[|s| - 1] == '_' then DigitsValue(s[..|s| - 1])
    else
      var last := s[|s| - 1];
      assert IsDigit(last);
      DigitsValue(s[..|s| - 1]) * 10 + (last as int - '0' as int)
  }

  /** `int(s)`: surrounding white space is stripped, then an optional sign and
      the digit groups; anything else makes Python raise `ValueError`, here
      `None`. */
  function ParseInt(s: string): Option<int> {
    ParseSigned(Strip(s))
  }

  /** An optional sign, then the digit groups. */
  function ParseSigned(t: string): Option<int> {
    if t != [] && (t[0] == '-' || t[0] == '+') then
      if DigitGroups(t[1..]) then
        var v: int := DigitsValue(t[1..]);
        Some(if t[0] == '-' then -v else v)
      else None
    else if DigitGroups(t) then Some(DigitsValue(t))
    else None
  }

  function DigitChar(d: int): char
    requires 0 <= d < 10
  {
    ('0' as int + d) as char
  }

  /** The canonical decimal rendering of `n` (`str(n)`). */
  function ShowNat(n: nat): (r: string)
    ensures |r| > 0
    ensures forall i :: 0 <= i < |r| ==> IsDigit(r[i])
  {
    if n < 10 then [DigitChar(n)] else ShowNat(n / 10) + [DigitChar(n % 10)]
  }

  function ShowInt(n: int): string {
    if n < 0 then "-" + ShowNat(-n) else ShowNat(n)
  }

  lemma {:induction false} ShowNatValue(n: nat)
    ensures DigitGroups(ShowNat(n))
    ensures DigitsValue(ShowNat(n)) == n
  {
    var s := ShowNat(n);
    if n >= 10 {
      ShowNatValue(n / 10);
      assert s[..|s| - 1] == ShowNat(n / 10);
    }
  }

  /** `int(str(n)) == n`, also with white space around the text. */
  lemma ParseShowRoundTrip(n: int, pre: string, post: string)
    requires forall i :: 0 <= i < |pre| ==> IsSpace(pre[i])
    requires forall i :: 0 <= i < |post| ==> IsSpace(post[i])
    ensures ParseInt(pre + ShowInt(n) + post) == Some(n)
  {
    var t := ShowInt(n);
    ShowIntShape(n);
    StripPadded(pre, t, post);
    ParseSignedShow(n);
  }

  lemma ShowIntShape(n: int)
    ensures var t := ShowInt(n); t != [] && !IsSpace(t[0]) && !IsSpace(t[|t| - 1])
  {
    var t := ShowInt(n);
    if n < 0 {
      var d := ShowNat(-n);
      assert t[0] == '-' && t[|t| - 1] == d[|d| - 1];
      assert IsDigit(d[|d| - 1]);
    } else {
      assert IsDigit(t[0]) && IsDigit(t[|t| - 1]);
    }
  }

  lemma ParseSignedShow(n: int)
    ensures ParseSigned(ShowInt(n)) == Some(n)
  {
    var m: nat := if n < 0 then -n else n;
    var d := ShowNat(m);
    ShowNatValue(m);
    if n < 0 {
      assert ShowInt(n)[1..] == d;
    } else {
      assert !IsDigit('-') && !IsDigit('+');
      assert d[0] != '-' && d[0] != '+' by { assert IsDigit(d[0]); }
    }
  }

  lemma StripPadded(pre: string, core: string, post: string)
    requires forall i :: 0 <= i < |pre| ==> IsSpace(pre[i])
    requires forall i :: 0 <= i < |post| ==> IsSpace(post[i])
    requires core != [] && !IsSpace(core[0]) && !IsSpace(core[|core| - 1])
    ensures Strip(pre + core + post) == core
  {
    assert pre + core + post == pre + (core + post);
    TrimStartPadded(pre, core + post);
    TrimEndPadded(core, post);
  }

  lemma {:induction false} TrimStartPadded(pre: string, s: string)
    requires forall i :: 0 <= i < |pre| ==> IsSpace(pre[i])
    requires s != [] && !IsSpace(s[0])
    ensures TrimStart(pre + s) == s
  {
    var t := pre + s;
    if pre != [] {
      assert t[0] == pre[0] && IsSpace(t[0]);
      assert t[1..] == pre[1..] + s;
      assert forall i :: 0 <= i < |pre[1..]| ==> pre[1..][i] == pre[i + 1];
      TrimStartPadded(pre[1..], s);
      assert TrimStart(t) == TrimStart(t[1..]);
    } else {
      assert t == s;
    }
  }

  lemma {:induction false} TrimEndPadded(s: string, post: string)
    requires forall i :: 0 <= i < |post| ==> IsSpace(post[i])
    requires s != [] && !IsSpace(s[|s| - 1])
    ensures TrimEnd(s + post) == s
  {
    if post != [] {
      var shorter := post[..|post| - 1];
      assert (s + post)[..|s + post| - 1] == s + shorter;
      TrimEndPadded(s, shorter);
    }
  }

  // ---------------------------------------------------------------------------
  // UTF-8 (the well-formed byte sequences of Table 3-7 of the Unicode Standard)

  function EncodeChar(c: char): (b: seq<byte>)
    ensures 1 <= |b| <= 4
  {
    var n := c as int;
    if n < 0x80 then [n]
    else if n < 0x800 then [0xC0 + n / 64, 0x80 + n % 64]
    else if n < 0x10000 then [0xE0 + n / 4096, 0x80 + (n / 64) % 64, 0x80 + n % 64]
    else [0xF0 + n / 0x40000, 0x80 + (n / 4096) % 64, 0x80 + (n / 64) % 64, 0x80 + n % 64]
  }

  /** `s.encode("utf-8")` */
  function Encode(s: string): seq<byte> {
    if s == [] then [] else EncodeChar(s[0]) + Encode(s[1..])
  }

  predicate IsContinuation(x: byte) {
    0x80 <= x <= 0xBF
  }

  /** The first character of `b` and the number of bytes that encode it, or
      `None` when `b` does not start with a well-formed sequence. */
  function DecodeChar(b: seq<byte>): (r: Option<(char, nat)>)
    requires b != []
    ensures r.Some? ==> 1 <= r.value.1 <= |b| && EncodeChar(r.value.0) == b[..r.value.1]
  {
    var b0 := b[0];
    var b1 := if |b| > 1 then b[1] else 0;
    var b2 := if |b| > 2 then b[2] else 0;
    var b3 := if |b| > 3 then b[3] else 0;
    if b0 < 0x80 then
      Some((b0 as char, 1))
    else if 0xC2 <= b0 <= 0xDF then
      if |b| >= 2 && IsContinuation(b1) then
        assert b[..2] == [b0, b1];
        Some((Assemble2(b0, b1), 2))
      else None
    else if 0xE0 <= b0 <= 0xEF then
      if && |b| >= 3 && IsContinuation(b1) && IsContinuation(b2)
         && (b0 != 0xE0 || b1 >= 0xA0) && (b0 != 0xED || b1 <= 0x9F)
      then
        assert b[..3] == [b0, b1, b2];
        Some((Assemble3(b0, b1, b2), 3))
      else None
    else if 0xF0 <= b0 <= 0xF4 then
      if && |b| >= 4 && IsContinuation(b1) && IsContinuation(b2) && IsContinuation(b3)
         && (b0 != 0xF0 || b1 >= 0x90) && (b0 != 0xF4 || b1 <= 0x8F)
      then
        assert b[..4] == [b0, b1, b2, b3];
        Some((Assemble4(b0, b1, b2, b3), 4))
      else None
    else None
  }

  /** The character of a well-formed two-byte sequence. */
  function Assemble2(b0: byte, b1: byte): (c: char)
    requires 0xC2 <= b0 <= 0xDF && IsContinuation(b1)
    ensures EncodeChar(c) == [b0, b1]
  {
    var n := (b0 - 0xC0) * 64 + (b1 - 0x80);
    DivModUnique(n, 64, b0 - 0xC0, b1 - 0x80);
    n as char
  }

  /** The character of a well-formed three-byte sequence (no surrogates, no
      overlong forms). */
  function Assemble3(b0: byte, b1: byte, b2: byte): (c: char)
    requires 0xE0 <= b0 <= 0xEF && IsContinuation(b1) && IsContinuation(b2)
    requires (b0 != 0xE0 || b1 >= 0xA0) && (b0 != 0xED || b1 <= 0x9F)
    ensures EncodeChar(c) == [b0, b1, b2]
  {
    var x0: int, x1: int, x2: int := b0 - 0xE0, b1 - 0x80, b2 - 0x80;
    var hi := x0 * 64 + x1;
    var n := hi * 64 + x2;
    DivModUnique(n, 64, hi, x2);
    DivModUnique(hi, 64, x0, x1);
    DivModUnique(n, 4096, x0, x1 * 64 + x2);
    n as char
  }

  /** The character of a well-formed four-byte sequence (at most U+10FFFF, no
      overlong forms). */
  function Assemble4(b0: byte, b1: byte, b2: byte, b3: byte): (c: char)
    requires 0xF0 <= b0 <= 0xF4 && IsContinuation(b1) && IsContinuation(b2) && IsContinuation(b3)
    requires (b0 != 0xF0 || b1 >= 0x90) && (b0 != 0xF4 || b1 <= 0x8F)
    ensures EncodeChar(c) == [b0, b1, b2, b3]
  {
    var x0: int, x1: int, x2: int, x3: int := b0 - 0xF0, b1 - 0x80, b2 - 0x80, b3 - 0x80;
    var top := x0 * 64 + x1;
    var hi := top * 64 + x2;
    var n := hi * 64 + x3;
    DivModUnique(n, 64, hi, x3);
    DivModUnique(hi, 64, top, x2);
    DivModUnique(top, 64, x0, x1);
    DivModUnique(n, 4096, top, x2 * 64 + x3);
    DivModUnique(n, 0x40000, x0, (x1 * 64 + x2) * 64 + x3);
    n as char
  }

  /** `b.decode("utf-8")`: `None` where Python raises `UnicodeDecodeError`.
      What it returns encodes back to `b`. */
  function Decode(b: seq<byte>): (r: Option<string>)
    ensures r.Some? ==> Encode(r.value) == b
    decreases |b|
  {
    if b == [] then Some([])
    else match DecodeChar(b)
      case None => None
      case Some((c, k)) =>
        match Decode(b[k..])
        case None => None
        case Some(rest) =>
          EncodeJoin(b, c, k, rest);
          Some([c] + rest)
  }

  lemma EncodeJoin(b: seq<byte>, c: char, k: nat, rest: string)
    requires k <= |b| && EncodeChar(c) == b[..k] && Encode(rest) == b[k..]
    ensures Encode([c] + rest) == b
  {
    EncodeCons(c, rest);
    assert b == b[..k] + b[k..];
  }

  lemma EncodeCons(c: char, s: string)
    ensures Encode([c] + s) == EncodeChar(c) + Encode(s)
  {
    assert ([c] + s)[1..] == s;
  }

  lemma DecodeCharOfEncoding(c: char, rest: seq<byte>)
    ensures EncodeChar(c) + rest != []
    ensures DecodeChar(EncodeChar(c) + rest) == Some((c, |EncodeChar(c)|))
  {
    var n := c as int;
    if n < 0x80 {
    } else if n < 0x800 {
      DecodeTwo(c, rest);
    } else if n < 0x10000 {
      DecodeThree(c, rest);
    } else {
      DecodeFour(c, rest);
    }
  }

  lemma DecodeTwo(c: char, rest: seq<byte>)
    requires 0x80 <= c as int < 0x800
    ensures DecodeChar(EncodeChar(c) + rest) == Some((c, 2))
  {
    var n := c as int;
    var hi, lo := n / 64, n % 64;
    assert hi * 64 + lo == n;
    var b := EncodeChar(c) + rest;
    assert b[0] == 0xC0 + hi && b[1] == 0x80 + lo;
  }

  lemma DecodeThree(c: char, rest: seq<byte>)
    requires 0x800 <= c as int < 0x10000
    ensures DecodeChar(EncodeChar(c) + rest) == Some((c, 3))
  {
    var n := c as int;
    var x, y, z := n / 4096, (n / 64) % 64, n % 64;
    assert n / 64 == x * 64 + y;
    assert x * 4096 + y * 64 + z == n;
    var b := EncodeChar(c) + rest;
    assert b[0] == 0xE0 + x && b[1] == 0x80 + y && b[2] == 0x80 + z;
  }

  lemma DecodeFour(c: char, rest: seq<byte>)
    requires 0x10000 <= c as int
    ensures DecodeChar(EncodeChar(c) + rest) == Some((c, 4))
  {
    var n := c as int;
    var w, x, y, z := n / 0x40000, (n / 4096) % 64, (n / 64) % 64, n % 64;
    assert n / 4096 == w * 64 + x;
    assert n / 64 == (n / 4096) * 64 + y;
    assert w * 0x40000 + x * 4096 + y * 64 + z == n;
    var b := EncodeChar(c) + rest;
    assert b[0] == 0xF0 + w && b[1] == 0x80 + x && b[2] == 0x80 + y && b[3] == 0x80 + z;
  }

  /** Decoding undoes encoding: every string survives the round trip. */
  lemma {:induction false} DecodeEncode(s: string)
    ensures Decode(Encode(s)) == Some(s)
  {
    if s != [] {
      var e := EncodeChar(s[0]);
      DecodeCharOfEncoding(s[0], Encode(s[1..]));
      assert (e + Encode(s[1..]))[|e|..] == Encode(s[1..]);
      DecodeEncode(s[1..]);
      assert [s[0]] + s[1..] == s;
    }
  }

  // ---------------------------------------------------------------------------
  // str(bytes): the `b'...'` literal form

  function HexDigit(d: int): (c: char)
    requires 0 <= d < 16
  {
    if d < 10 then ('0' as int + d) as char else ('a' as int + d - 10) as char
  }

  /** The quote `repr` chooses: double quotes only when the bytes hold a single
      quote and no double quote. */
  function ReprQuote(b: seq<byte>): char {
    if 0x27 in b && 0x22 !in b then '"' else '\''
  }

  function EscapeByte(x: byte, quote: char): string {
    if x == quote as int || x == 0x5C then ['\\', x as char]
    else if x == 0x09 then "\\t"
    else if x == 0x0A then "\\n"
    else if x == 0x0D then "\\r"
    else if x < 0x20 || x >= 0x7F then ['\\', 'x', HexDigit(x / 16), HexDigit(x % 16)]
    else [x as char]
  }

  function EscapeAll(b: seq<byte>, quote: char): string {
    if b == [] then [] else EscapeByte(b[0], quote) + EscapeAll(b[1..], quote)
  }

  predicate Printable(s: string) {
    forall i :: 0 <= i < |s| ==> ' ' <= s[i] <= '~'
  }

  /** `str(b)` for a bytes value: printable ASCII, `b` and a quote, the
      escaped bytes, the same quote. */
  function BytesRepr(b: seq<byte>): (r: string)
    ensures |r| >= 3 && r[0] == 'b' && r[1] == r[|r| - 1] && (r[1] == '\'' || r[1] == '"')
    ensures Printable(r)
  {
    var q := ReprQuote(b);
    EscapeAllPrintable(b, q);
    ['b', q] + EscapeAll(b, q) + [q]
  }

  lemma {:induction false} EscapeAllPrintable(b: seq<byte>, quote: char)
    requires quote == '\'' || quote == '"'
    ensures Printable(EscapeAll(b, quote))
  {
    if b != [] {
      EscapeAllPrintable(b[1..], quote);
    }
  }

  function HexValue(c: char): Option<int> {
    if '0' <= c <= '9' then Some(c as int - '0' as int)
    else if 'a' <= c <= 'f' then Some(c as int - 'a' as int + 10)
    else None
  }

  /** Reads the escaped body of a bytes literal back, as Python's parser does
      for the escapes `repr` produces. */
  function Unescape(s: string): Option<seq<byte>> {
    if s == [] then Some([])
    else if s[0] != '\\' then
      if s[0] as int < 0x80 then
        match Unescape(s[1..])
        case None => None
        case Some(rest) => Some([s[0] as int] + rest)
      else None
    else if |s| < 2 then None
    else if s[1] == 'x' then
      if |s| < 4 then None
      else match (HexValue(s[2]), HexValue(s[3]))
        case (Some(h), Some(l)) =>
          (match Unescape(s[4..])
           case None => None
           case Some(rest) => Some([h * 16 + l] + rest))
        case _ => None
    else
      var x: Option<byte> :=
        if s[1] == 't' then Some(0x09)
        else if s[1] == 'n' then Some(0x0A)
        else if s[1] == 'r' then Some(0x0D)
        else if s[1] == '\\' || s[1] == '\'' || s[1] == '"' then Some(s[1] as int)
        else None;
      match x
      case None => None
      case Some(v) =>
        match Unescape(s[2..])
        case None => None
        case Some(rest) => Some([v] + rest)
  }

  lemma UnescapeByte(x: byte, quote: char, rest: string, tail: seq<byte>)
    requires quote == '\'' || quote == '"'
    requires Unescape(rest) == Some(tail)
    ensures Unescape(EscapeByte(x, quote) + rest) == Some([x] + tail)
  {
    var e := EscapeByte(x, quote);
    var s := e + rest;
    assert s[|e|..] == rest;
    if x < 0x20 || x >= 0x7F {
      if x != 0x09 && x != 0x0A && x != 0x0D && x != 0x5C {
        assert x / 16 * 16 + x % 16 == x;
      }
    }
  }

  /** The body of `str(b)` reads back to `b`: the repr loses nothing. */
  lemma {:induction false} UnescapeEscapeAll(b: seq<byte>, quote: char)
    requires quote == '\'' || quote == '"'
    ensures Unescape(EscapeAll(b, quote)) == Some(b)
  {
    if b != [] {
      var rest := EscapeAll(b[1..], quote);
      UnescapeEscapeAll(b[1..], quote);
      UnescapeByte(b[0], quote, rest, b[1..]);
      assert EscapeAll(b, quote) == EscapeByte(b[0], quote) + rest;
      assert [b[0]] + b[1..] == b;
    }
  }

  lemma BytesReprRoundTrip(b: seq<byte>)
    ensures var r := BytesRepr(b); Unescape(r[2..|r| - 1]) == Some(b)
  {
    var q := ReprQuote(b);
    var r := BytesRepr(b);
    assert r[2..|r| - 1] == EscapeAll(b, q);
    UnescapeEscapeAll(b, q);
  }
}
