/** Hand-written emission of JSON-RPC errors: itoa into a fixed buffer, string escaping with a
    fast and a slow path, and the error object built from both; with a reader for each. */
module ErrorCodec {
  import opened Wrappers

  type Byte = b: int | 0 <= b < 256

  type Bytes = seq<Byte>

  const MIN_INT := -0x8000_0000_0000_0000
  const MAX_INT := 0x7fff_ffff_ffff_ffff

  /** A Go int on a 64-bit platform. */
  type Int = i: int | MIN_INT <= i <= MAX_INT

  /** Negation wraps around at the minimum. */
  function Negate(i: Int): Int { if i == MIN_INT then MIN_INT else -i }

  const QUOTE: Byte := 34
  const COMMA: Byte := 44
  const MINUS: Byte := 45
  const SLASH: Byte := 47
  const ZERO: Byte := 48
  const BACKSLASH: Byte := 92
  const LETTER_A: Byte := 97
  const LETTER_U: Byte := 117
  const CLOSE: Byte := 125

  function Ascii(s: string): Bytes
    requires forall i :: 0 <= i < |s| ==> s[i] as int < 128
  {
    seq(|s|, i requires 0 <= i < |s| => (s[i] as int) as Byte)
  }

  // ---------------------------------------------------------------------------------------
  // Integers
  // ---------------------------------------------------------------------------------------

  /** The decimal digits of n, none for zero. */
  function Decimal(n: nat): Bytes {
    if n == 0 then [] else Decimal(n / 10) + [ZERO + n % 10]
  }

  function Itoa(i: Int): Bytes {
    if i == 0 then [ZERO]
    else if i > 0 then Decimal(i)
    else if Negate(i) > 0 then [MINUS] + Decimal(Negate(i))
    else [MINUS]
  }

  function Pow10(k: nat): nat { if k == 0 then 1 else 10 * Pow10(k - 1) }

  lemma Pow10Of19()
    ensures Pow10(19) == 10_000_000_000_000_000_000
  {
    assert Pow10(4) == 10_000;
    assert Pow10(8) == 100_000_000 by { assert Pow10(6) == 1_000_000; }
    assert Pow10(12) == 1_000_000_000_000 by { assert Pow10(10) == 10_000_000_000; }
    assert Pow10(16) == 10_000_000_000_000_000 by { assert Pow10(14) == 100_000_000_000_000; }
    assert Pow10(18) == 1_000_000_000_000_000_000;
  }

  lemma OneDigitLess(i: nat, k: nat)
    requires 0 < i < Pow10(k)
    ensures k > 0 && i / 10 < Pow10(k - 1)
  {}

  /** The loop of itoa: digits from the end of the buffer backwards, none for what is not positive. */
  method FillDigits(b: array<Byte>, n: Int) returns (pos: nat)
    requires b.Length == 20
    modifies b
    ensures 1 <= pos <= 20 && b[pos..] == Decimal(if n > 0 then n else 0)
  {
    pos := 20;
    var i := n;
    ghost var magnitude := if n > 0 then n else 0;
    Pow10Of19();
    assert b[20..] == [];
    while i > 0
      invariant 1 <= pos <= 20 && (i < 0 ==> n < 0)
      invariant i > 0 ==> i < Pow10(pos - 1)
      invariant Decimal(if i > 0 then i else 0) + b[pos..] == Decimal(magnitude)
      decreases i
    {
      ghost var done := b[pos..];
      pos := pos - 1;
      b[pos] := ZERO + i % 10;
      assert b[pos..] == [ZERO + i % 10] + done;
      assert Decimal(i) + done == Decimal(i / 10) + b[pos..];
      OneDigitLess(i, pos);
      i := i / 10;
    }
  }

  /** The buffer of 20 bytes is filled backwards and is always large enough. */
  method ItoaBuffer(n: Int) returns (s: Bytes)
    ensures s == Itoa(n)
  {
    if n == 0 {
      return [ZERO];
    }
    var i := n;
    var b := new Byte[20];
    var neg := i < 0;
    if neg {
      i := Negate(i);
    }
    var pos := FillDigits(b, i);
    if neg {
      ghost var digits := b[pos..];
      pos := pos - 1;
      b[pos] := MINUS;
      assert b[pos..] == [MINUS] + digits;
    }
    return b[pos..];
  }

  predicate IsDigit(b: Byte) { ZERO <= b <= ZERO + 9 }

  predicate AllDigits(s: Bytes) {
    forall i :: 0 <= i < |s| ==> IsDigit(s[i])
  }

  function Value(digits: Bytes): nat
    requires AllDigits(digits)
  {
    if digits == [] then 0 else 10 * Value(digits[..|digits| - 1]) + (digits[|digits| - 1] - ZERO)
  }

  /** A JSON integer: an optional minus, then digits with no leading zero (section 6 of RFC 8259). */
  function ParseInt(s: Bytes): Option<int> {
    var digits := if s != [] && s[0] == MINUS then s[1..] else s;
    if digits == [] || !AllDigits(digits) || (digits[0] == ZERO && |digits| > 1) then None
    else
      var magnitude: int := Value(digits);
      Some(if s[0] == MINUS then -magnitude else magnitude)
  }

  lemma {:induction false} DecimalDigits(n: nat)
    ensures AllDigits(Decimal(n))
    ensures n > 0 ==> Decimal(n) != [] && Decimal(n)[0] != ZERO
    decreases n
  {
    if n >= 10 {
      DecimalDigits(n / 10);
      assert Decimal(n)[0] == Decimal(n / 10)[0];
    } else if n > 0 {
      assert Decimal(n) == [ZERO + n];
    }
  }

  lemma ValueOfAppend(front: Bytes, last: Byte)
    requires AllDigits(front) && IsDigit(last)
    ensures AllDigits(front + [last]) && Value(front + [last]) == 10 * Value(front) + (last - ZERO)
  {
    assert (front + [last])[..|front|] == front;
  }

  lemma {:induction false} DecimalValue(n: nat)
    ensures AllDigits(Decimal(n)) && Value(Decimal(n)) == n
    decreases n
  {
    if n > 0 {
      DecimalValue(n / 10);
      ValueOfAppend(Decimal(n / 10), ZERO + n % 10);
    }
  }

  lemma DecimalFacts(n: nat)
    requires n > 0
    ensures Decimal(n) != [] && Decimal(n)[0] != ZERO && AllDigits(Decimal(n)) && Value(Decimal(n)) == n
  {
    DecimalDigits(n);
    DecimalValue(n);
  }

  lemma PositiveParsesBack(n: nat)
    requires n > 0
    ensures ParseInt(Decimal(n)) == Some(n)
  {
    DecimalFacts(n);
    assert IsDigit(Decimal(n)[0]);
  }

  lemma NegativeParsesBack(n: nat)
    requires n > 0
    ensures var i: int := n; ParseInt([MINUS] + Decimal(n)) == Some(-i)
  {
    DecimalFacts(n);
    assert ([MINUS] + Decimal(n))[1..] == Decimal(n);
  }

  /** itoa is inverted by the reader of JSON integers for every code but the minimum, whose
      negation wraps around: it prints a lone minus, which is no number at all. */
  lemma ItoaParsesBack(i: Int)
    ensures ParseInt(Itoa(i)) == Some(i) <==> i != MIN_INT
    ensures i == MIN_INT ==> Itoa(i) == [MINUS] && ParseInt(Itoa(i)) == None
  {
    if i == MIN_INT {
      assert [MINUS][1..] == [];
    } else if i > 0 {
      PositiveParsesBack(i);
    } else if i < 0 {
      NegativeParsesBack(Negate(i));
    } else {
      assert Value([ZERO]) == 0 by { assert [ZERO][..0] == []; }
    }
  }

  lemma ItoaIsShort(i: Int)
    ensures 1 <= |Itoa(i)| <= 20
  {
    Pow10Of19();
    if i > 0 {
      DecimalLength(i, 19);
    } else if Negate(i) > 0 {
      DecimalLength(Negate(i), 19);
    }
  }

  lemma {:induction false} DecimalLength(n: nat, k: nat)
    requires n < Pow10(k)
    ensures |Decimal(n)| <= k && (n > 0 ==> |Decimal(n)| > 0)
    decreases k
  {
    if n > 0 {
      DecimalLength(n / 10, k - 1);
    }
  }

  lemma ItoaHasNoComma(i: Int)
    ensures COMMA !in Itoa(i)
  {
    if i > 0 {
      DecimalFacts(i);
    } else if Negate(i) > 0 {
      DecimalFacts(Negate(i));
    }
  }

  // ---------------------------------------------------------------------------------------
  // Strings
  // ---------------------------------------------------------------------------------------

  predicate NeedsEscape(c: Byte) { c == QUOTE || c == BACKSLASH || c < 0x20 }

  function HexDigit(n: Byte): Byte
    requires n < 16
  {
    if n < 10 then ZERO + n else LETTER_A + n - 10
  }

  function EscapeByte(c: Byte): Bytes {
    if c == QUOTE then [BACKSLASH, QUOTE]
    else if c == BACKSLASH then [BACKSLASH, BACKSLASH]
    else if c == 10 then [BACKSLASH, 110]
    else if c == 13 then [BACKSLASH, 114]
    else if c == 9 then [BACKSLASH, 116]
    else if c < 0x20 then [BACKSLASH, LETTER_U, ZERO, ZERO, HexDigit(c / 16), HexDigit(c % 16)]
    else [c]
  }

  function Escaped(s: Bytes): Bytes {
    FlatMap(EscapeByte, s)
  }

  /** The images of all bytes, one after the other. */
  function FlatMap(f: Byte -> Bytes, s: Bytes): Bytes {
    if s == [] then [] else FlatMap(f, s[..|s| - 1]) + f(s[|s| - 1])
  }

  lemma {:induction false} NothingToEscape(s: Bytes)
    requires forall i :: 0 <= i < |s| ==> !NeedsEscape(s[i])
    ensures Escaped(s) == s
  {
    if s != [] {
      NothingToEscape(s[..|s| - 1]);
      assert s == s[..|s| - 1] + [s[|s| - 1]];
    }
  }

  /** escapeString: the fast path returns the string itself, the slow path builds the escapes. */
  method EscapeString(s: Bytes) returns (r: Bytes)
    ensures r == Escaped(s)
  {
    var needsEscape := false;
    for i := 0 to |s|
      invariant !needsEscape && forall k :: 0 <= k < i ==> !NeedsEscape(s[k])
    {
      if s[i] == QUOTE || s[i] == BACKSLASH || s[i] < 0x20 {
        needsEscape := true;
        break;
      }
    }
    if !needsEscape {
      NothingToEscape(s);
      return s;
    }
    r := [];
    for i := 0 to |s|
      invariant r == Escaped(s[..i])
    {
      assert s[..i + 1][..i] == s[..i];
      var c := s[i];
      if c == QUOTE {
        r := r + [BACKSLASH, QUOTE];
      } else if c == BACKSLASH {
        r := r + [BACKSLASH, BACKSLASH];
      } else if c == 10 {
        r := r + [BACKSLASH, 110];
      } else if c == 13 {
        r := r + [BACKSLASH, 114];
      } else if c == 9 {
        r := r + [BACKSLASH, 116];
      } else if c < 0x20 {
        r := r + ([BACKSLASH, LETTER_U, ZERO, ZERO] + [HexDigit(c / 16)] + [HexDigit(c % 16)]);
      } else {
        r := r + [c];
      }
    }
    assert s[..|s|] == s;
  }

  // --- A reader of JSON string bodies, section 7 of RFC 8259 ---

  function HexValue(b: Byte): Option<nat> {
    if ZERO <= b <= ZERO + 9 then Some(b - ZERO)
    else if LETTER_A <= b <= LETTER_A + 5 then Some(b - LETTER_A + 10)
    else if 65 <= b <= 70 then Some(b - 65 + 10)
    else None
  }

  /** The UTF-16 code unit after a \u. */
  function CodeUnit(s: Bytes): Option<nat>
    requires |s| >= 4
  {
    match (HexValue(s[0]), HexValue(s[1]), HexValue(s[2]), HexValue(s[3]))
    case (Some(a), Some(b), Some(c), Some(d)) => Some(4096 * a + 256 * b + 16 * c + d)
    case _ => None
  }

  /** The UTF-8 form of a character of the basic plane that is not half of a surrogate pair. */
  function Utf8(cp: nat): Option<Bytes> {
    if cp < 0x80 then Some([cp])
    else if cp < 0x800 then Some([0xC0 + cp / 64, 0x80 + cp % 64])
    else if 0xD800 <= cp < 0xE000 || cp >= 0x10000 then None
    else Some([0xE0 + cp / 4096, 0x80 + cp / 64 % 64, 0x80 + cp % 64])
  }

  function SurrogatePair(hi: nat, lo: nat): Option<Bytes> {
    if 0xD800 <= hi < 0xDC00 && 0xDC00 <= lo < 0xE000 then
      var cp := 0x10000 + 0x400 * (hi - 0xD800) + (lo - 0xDC00);
      Some([0xF0 + cp / 0x40000, 0x80 + cp / 4096 % 64, 0x80 + cp / 64 % 64, 0x80 + cp % 64])
    else None
  }

  function SimpleEscape(b: Byte): Option<Byte> {
    if b == QUOTE || b == BACKSLASH || b == SLASH then Some(b)
    else if b == 98 then Some(8)
    else if b == 102 then Some(12)
    else if b == 110 then Some(10)
    else if b == 114 then Some(13)
    else if b == 116 then Some(9)
    else None
  }

  /** What the text at the head of s stands for, and how long that text is; nothing for a bare
      quote, a control byte or a malformed escape. */
  function ReadOne(s: Bytes): Option<(Bytes, nat)>
    requires s != []
    ensures ReadOne(s).Some? ==> 1 <= ReadOne(s).value.1 <= |s|
  {
    if s[0] == QUOTE || s[0] < 0x20 then None
    else if s[0] != BACKSLASH then Some(([s[0]], 1))
    else if |s| < 2 then None
    else if s[1] != LETTER_U then
      match SimpleEscape(s[1]) case None => None case Some(b) => Some(([b], 2))
    else if |s| < 6 || CodeUnit(s[2..]) == None then None
    else
      var unit := CodeUnit(s[2..]).value;
      match Utf8(unit)
      case Some(bytes) => Some((bytes, 6))
      case None =>
        if |s| >= 12 && s[6] == BACKSLASH && s[7] == LETTER_U && CodeUnit(s[8..]).Some? then
          match SurrogatePair(unit, CodeUnit(s[8..]).value)
          case Some(bytes) => Some((bytes, 12))
          case None => None
        else None
  }

  function Unescaped(s: Bytes): Option<Bytes>
    decreases |s|
  {
    if s == [] then Some([]) else
    match ReadOne(s)
    case None => None
    case Some((bytes, n)) =>
      match Unescaped(s[n..]) case None => None case Some(rest) => Some(bytes + rest)
  }

  /** The length of the string body at the head of s: up to the first quote that no escape
      covers. */
  function BodyLength(s: Bytes): Option<nat>
    decreases |s|
  {
    if s == [] then None
    else if s[0] == QUOTE then Some(0)
    else match ReadOne(s)
      case None => None
      case Some((_, n)) =>
        match BodyLength(s[n..]) case None => None case Some(k) => Some(n + k)
  }

  lemma EscapeReadsBack(c: Byte, rest: Bytes)
    ensures ReadOne(EscapeByte(c) + rest) == Some(([c], |EscapeByte(c)|))
    ensures EscapeByte(c) != [] && EscapeByte(c)[0] != QUOTE
    ensures forall b <- EscapeByte(c) :: b >= 0x20
  {
    var e := EscapeByte(c);
    if |e| == 6 {
      assert (e + rest)[2..][0] == ZERO && (e + rest)[2..][1] == ZERO;
      assert (e + rest)[2..][2] == HexDigit(c / 16) && (e + rest)[2..][3] == HexDigit(c % 16);
      assert CodeUnit((e + rest)[2..]) == Some(c);
    }
  }

  lemma {:induction false} FlatMapFromFront(f: Byte -> Bytes, s: Bytes)
    requires s != []
    ensures FlatMap(f, s) == f(s[0]) + FlatMap(f, s[1..])
  {
    if |s| == 1 {
      assert s[..0] == [] && s[1..] == [];
    } else {
      var mid, last := s[1..|s| - 1], s[|s| - 1];
      FlatMapFromFront(f, s[..|s| - 1]);
      assert s[..|s| - 1][1..] == mid && s[1..][..|s[1..]| - 1] == mid;
      assert FlatMap(f, s[1..]) == FlatMap(f, mid) + f(last);
      assert FlatMap(f, s) == f(s[0]) + FlatMap(f, mid) + f(last);
    }
  }

  lemma UnescapedStep(s: Bytes, bytes: Bytes, n: nat, decoded: Bytes)
    requires s != [] && ReadOne(s) == Some((bytes, n)) && Unescaped(s[n..]) == Some(decoded)
    ensures Unescaped(s) == Some(bytes + decoded)
  {}

  lemma BodyLengthStep(s: Bytes, bytes: Bytes, n: nat, k: nat)
    requires s != [] && s[0] != QUOTE && ReadOne(s) == Some((bytes, n)) && BodyLength(s[n..]) == Some(k)
    ensures BodyLength(s) == Some(n + k)
  {}

  lemma DropPrefix(e: Bytes, rest: Bytes)
    ensures (e + rest)[|e|..] == rest
    ensures e != [] ==> (e + rest)[0] == e[0]
  {}

  /** One more byte in front of a body that decodes. */
  lemma EscapeThenBody(c: Byte, body: Bytes, decoded: Bytes)
    requires Unescaped(body) == Some(decoded)
    ensures Unescaped(EscapeByte(c) + body) == Some([c] + decoded)
  {
    EscapeReadsBack(c, body);
    DropPrefix(EscapeByte(c), body);
    UnescapedStep(EscapeByte(c) + body, [c], |EscapeByte(c)|, decoded);
  }

  /** One more byte in front of a body of k bytes and what follows it. */
  lemma EscapeThenLength(c: Byte, tail: Bytes, k: nat, whole: Bytes)
    requires BodyLength(tail) == Some(k) && whole == EscapeByte(c) + tail
    ensures BodyLength(whole) == Some(|EscapeByte(c)| + k)
  {
    EscapeReadsBack(c, tail);
    DropPrefix(EscapeByte(c), tail);
    BodyLengthStep(whole, [c], |EscapeByte(c)|, k);
  }

  lemma {:induction false} EscapedDecodes(s: Bytes)
    ensures Unescaped(Escaped(s)) == Some(s)
  {
    if s != [] {
      FlatMapFromFront(EscapeByte, s);
      EscapedDecodes(s[1..]);
      EscapeThenBody(s[0], Escaped(s[1..]), s[1..]);
      assert [s[0]] + s[1..] == s;
    }
  }

  lemma EscapedInFront(s: Bytes, tail: Bytes)
    requires s != []
    ensures Escaped(s) + tail == EscapeByte(s[0]) + (Escaped(s[1..]) + tail)
    ensures |Escaped(s)| == |EscapeByte(s[0])| + |Escaped(s[1..])|
  {
    FlatMapFromFront(EscapeByte, s);
  }

  lemma {:induction false} EscapedEndsAtQuote(s: Bytes, tail: Bytes, whole: Bytes)
    requires tail != [] && tail[0] == QUOTE && whole == Escaped(s) + tail
    ensures BodyLength(whole) == Some(|Escaped(s)|)
    decreases |s|
  {
    if s == [] {
      assert whole == tail;
    } else {
      var rest := Escaped(s[1..]) + tail;
      EscapedEndsAtQuote(s[1..], tail, rest);
      EscapedInFront(s, tail);
      EscapeThenLength(s[0], rest, |Escaped(s[1..])|, whole);
    }
  }

  lemma {:induction false} EscapedHasNoControls(s: Bytes)
    ensures forall b <- Escaped(s) :: b >= 0x20
  {
    if s != [] {
      var front, last := Escaped(s[..|s| - 1]), EscapeByte(s[|s| - 1]);
      EscapedHasNoControls(s[..|s| - 1]);
      EscapeReadsBack(s[|s| - 1], []);
      assert Escaped(s) == front + last;
      assert forall b <- front + last :: b in front || b in last;
    }
  }

  /** For every byte string: what escapeString writes decodes back, and up to the closing quote
      it has no bare quote and no control byte. */
  lemma EscapedReadsBack(s: Bytes, rest: Bytes)
    ensures Unescaped(Escaped(s)) == Some(s)
    ensures BodyLength(Escaped(s) + [QUOTE] + rest) == Some(|Escaped(s)|)
    ensures forall b <- Escaped(s) :: b >= 0x20
  {
    EscapedDecodes(s);
    assert Escaped(s) + [QUOTE] + rest == Escaped(s) + ([QUOTE] + rest);
    EscapedEndsAtQuote(s, [QUOTE] + rest, Escaped(s) + [QUOTE] + rest);
    EscapedHasNoControls(s);
  }

  // ---------------------------------------------------------------------------------------
  // Error objects
  // ---------------------------------------------------------------------------------------

  /** The data of an error: the JSON text it encodes to, if there is any and it encodes. */
  datatype Data = NoData | Encodes(text: Bytes) | FailsToEncode

  datatype Error = Error(code: Int, message: Bytes, data: Data)

  function Open(): Bytes { Ascii("{\"code\":") }

  function MessageKey(): Bytes { Ascii(",\"message\":\"") }

  function DataKey(): Bytes { Ascii(",\"data\":") }

  function Marshalled(e: Error): Option<Bytes> {
    var head := Open() + Itoa(e.code) + MessageKey() + Escaped(e.message) + [QUOTE];
    match e.data
    case NoData => Some(head + [CLOSE])
    case Encodes(text) => Some(head + DataKey() + text + [CLOSE])
    case FailsToEncode => None
  }

  /** What json.Encoder.Encode appends: the text and a newline. */
  method Encode(buf: Bytes, d: Data) returns (r: Option<Bytes>)
    requires d != NoData
    ensures r == match d case FailsToEncode => None case Encodes(text) => Some(buf + text + [10])
  {
    match d
    case FailsToEncode => return None;
    case Encodes(text) => return Some(buf + text + [10]);
  }

  method MarshalError(e: Error) returns (r: Option<Bytes>)
    ensures r == Marshalled(e)
  {
    var buf := Open();
    var code := ItoaBuffer(e.code);
    buf := buf + code;
    buf := buf + MessageKey();
    var message := EscapeString(e.message);
    buf := buf + message;
    buf := buf + [QUOTE];
    if e.data != NoData {
      buf := buf + DataKey();
      ghost var before := buf;
      var encoded := Encode(buf, e.data);
      if encoded == None {
        return None;
      }
      buf := encoded.value;
      if |buf| > 0 && buf[|buf| - 1] == 10 {
        buf := buf[..|buf| - 1];
      }
      assert buf == before + e.data.text;
    }
    buf := buf + [CLOSE];
    return Some(buf);
  }

  function StripPrefix(prefix: Bytes, s: Bytes): Option<Bytes> {
    if prefix <= s then Some(s[|prefix|..]) else None
  }

  function UpTo(s: Bytes, b: Byte): nat
    ensures UpTo(s, b) <= |s|
  {
    if s == [] || s[0] == b then 0 else 1 + UpTo(s[1..], b)
  }

  /** The data after the message: nothing but the closing brace, or a data member. */
  function ParseTail(s: Bytes): Option<Data> {
    if s == [CLOSE] then Some(NoData)
    else match StripPrefix(Ascii(",\"data\":"), s)
      case None => None
      case Some(rest) =>
        if rest != [] && rest[|rest| - 1] == CLOSE then Some(Encodes(rest[..|rest| - 1])) else None
  }

  function ParseMessage(code: Int, s: Bytes): Option<Error> {
    match BodyLength(s)
    case None => None
    case Some(n) =>
      if n >= |s| then None else
      match (Unescaped(s[..n]), ParseTail(s[n + 1..]))
      case (Some(message), Some(data)) => Some(Error(code, message, data))
      case _ => None
  }

  /** A reader for the objects marshalError emits. */
  function ParseError(s: Bytes): Option<Error> {
    match StripPrefix(Ascii("{\"code\":"), s)
    case None => None
    case Some(rest) =>
      var n := UpTo(rest, COMMA);
      match (ParseInt(rest[..n]), StripPrefix(Ascii(",\"message\":\""), rest[n..]))
      case (Some(code), Some(body)) => if MIN_INT <= code <= MAX_INT then ParseMessage(code, body) else None
      case _ => None
  }

  lemma {:induction false} UpToFirst(s: Bytes, b: Byte, rest: Bytes)
    requires b !in s
    ensures UpTo(s + [b] + rest, b) == |s|
    decreases |s|
  {
    if s == [] {
      assert s + [b] + rest == [b] + rest;
    } else {
      assert (s + [b] + rest)[1..] == s[1..] + [b] + rest;
      UpToFirst(s[1..], b, rest);
    }
  }

  lemma StripOwnPrefix(prefix: Bytes, rest: Bytes)
    ensures StripPrefix(prefix, prefix + rest) == Some(rest)
  {
    assert (prefix + rest)[|prefix|..] == rest;
  }

  function TailOf(d: Data): Bytes
    requires d != FailsToEncode
  {
    if d == NoData then [CLOSE] else DataKey() + d.text + [CLOSE]
  }

  lemma TailParses(d: Data)
    requires d != FailsToEncode
    ensures ParseTail(TailOf(d)) == Some(d)
  {
    if d.Encodes? {
      assert TailOf(d) == DataKey() + (d.text + [CLOSE]);
      StripOwnPrefix(DataKey(), d.text + [CLOSE]);
      assert (d.text + [CLOSE])[..|d.text|] == d.text;
    }
  }

  lemma MessageParses(code: Int, message: Bytes, d: Data)
    requires d != FailsToEncode
    ensures ParseMessage(code, Escaped(message) + [QUOTE] + TailOf(d)) == Some(Error(code, message, d))
  {
    var s := Escaped(message) + [QUOTE] + TailOf(d);
    EscapedReadsBack(message, TailOf(d));
    assert s[..|Escaped(message)|] == Escaped(message);
    assert s[|Escaped(message)| + 1..] == TailOf(d);
    TailParses(d);
  }

  lemma MessageKeyFacts()
    ensures |MessageKey()| > 0 && MessageKey()[0] == COMMA
  {}

  lemma CodeParses(code: Bytes, key: Bytes, body: Bytes)
    requires COMMA !in code && key != [] && key[0] == COMMA
    ensures var rest := code + (key + body);
            var n := UpTo(rest, COMMA);
            rest[..n] == code && StripPrefix(key, rest[n..]) == Some(body)
  {
    assert code + (key + body) == code + [COMMA] + (key + body)[1..];
    UpToFirst(code, COMMA, (key + body)[1..]);
    var rest := code + (key + body);
    assert rest[|code|..] == key + body;
    StripOwnPrefix(key, body);
  }

  lemma ObjectParses(code: Bytes, body: Bytes)
    requires COMMA !in code
    ensures ParseError(Open() + (code + (MessageKey() + body))) ==
            match ParseInt(code)
              case None => None
              case Some(i) => if MIN_INT <= i <= MAX_INT then ParseMessage(i, body) else None
  {
    StripOwnPrefix(Open(), code + (MessageKey() + body));
    MessageKeyFacts();
    CodeParses(code, MessageKey(), body);
  }

  lemma MarshalledShape(e: Error)
    requires e.data != FailsToEncode
    ensures Marshalled(e) == Some(Open() + (Itoa(e.code) +
              (MessageKey() + (Escaped(e.message) + [QUOTE] + TailOf(e.data)))))
  {
    var head := Open() + Itoa(e.code) + MessageKey() + Escaped(e.message) + [QUOTE];
    assert Marshalled(e) == Some(head + TailOf(e.data)) by {
      if e.data.Encodes? {
        assert head + DataKey() + e.data.text + [CLOSE] == head + (DataKey() + e.data.text + [CLOSE]);
      }
    }
    Regroup(Open(), Itoa(e.code), MessageKey(), Escaped(e.message), [QUOTE], TailOf(e.data));
  }

  lemma Regroup(a: Bytes, b: Bytes, c: Bytes, d: Bytes, q: Bytes, e: Bytes)
    ensures a + b + c + d + q + e == a + (b + (c + (d + q + e)))
  {}

  /** Code, message and data text can be recovered from what marshalError emits, for every error
      whose data encodes, if and only if the code is not the minimum integer. */
  lemma MarshalledParsesBack(e: Error)
    requires e.data != FailsToEncode
    ensures Marshalled(e).Some?
    ensures ParseError(Marshalled(e).value) == Some(e) <==> e.code != MIN_INT
    ensures e.code == MIN_INT ==> ParseError(Marshalled(e).value) == None
  {
    var code, body := Itoa(e.code), Escaped(e.message) + [QUOTE] + TailOf(e.data);
    MarshalledShape(e);
    ItoaHasNoComma(e.code);
    ObjectParses(code, body);
    ItoaParsesBack(e.code);
    MessageParses(e.code, e.message, e.data);
  }

  // ---------------------------------------------------------------------------------------
  // The text itself, spelled out
  // ---------------------------------------------------------------------------------------

  /** The object has its three members in this order, the last one only if there are data. */
  lemma ObjectSpelledOut(code: Int, message: Bytes, text: Bytes)
    ensures Marshalled(Error(code, message, NoData)) ==
            Some(Ascii("{\"code\":") + Itoa(code) + Ascii(",\"message\":\"") + Escaped(message) + Ascii("\"")
                 + Ascii("}"))
    ensures Marshalled(Error(code, message, Encodes(text))) ==
            Some(Ascii("{\"code\":") + Itoa(code) + Ascii(",\"message\":\"") + Escaped(message) + Ascii("\"")
                 + Ascii(",\"data\":") + text + Ascii("}"))
    ensures Marshalled(Error(code, message, FailsToEncode)) == None
  {
    assert Ascii("\"") == [QUOTE] && Ascii("}") == [CLOSE];
  }

  /** The short escapes, the long one with lower-case hexadecimal digits, and no other. */
  lemma EscapesSpelledOut(c: Byte)
    ensures EscapeByte('\"' as int) == Ascii("\\\"") && EscapeByte('\\' as int) == Ascii("\\\\")
    ensures EscapeByte(10) == Ascii("\\n") && EscapeByte(13) == Ascii("\\r") && EscapeByte(9) == Ascii("\\t")
    ensures c < 32 && c != 10 && c != 13 && c != 9 ==>
              EscapeByte(c) == Ascii("\\u00") + Ascii(["0123456789abcdef"[c / 16], "0123456789abcdef"[c % 16]])
    ensures c >= 32 && c != '\"' as int && c != '\\' as int ==> EscapeByte(c) == [c]
  {
    if c < 32 {
      HexSpelledOut(c / 16);
      HexSpelledOut(c % 16);
    }
  }

  lemma HexSpelledOut(n: Byte)
    requires n < 16
    ensures Ascii(["0123456789abcdef"[n]]) == [HexDigit(n)]
  {
    var digits := "0123456789abcdef";
    assert n < 10 ==> digits[n] as int == 48 + n;
    assert n >= 10 ==> digits[n] as int == 97 + n - 10;
  }

  /** One digit, and one more digit. */
  lemma DigitsSpelledOut(i: Int)
    requires 0 < i
    ensures i < 10 ==> Itoa(i) == Ascii(["0123456789"[i]])
    ensures i >= 10 ==> Itoa(i) == Itoa(i / 10) + Ascii(["0123456789"[i % 10]])
    ensures Itoa(-i) == Ascii("-") + Itoa(i) && Itoa(0) == Ascii("0")
  {
    var digits := "0123456789";
    assert digits[i % 10] as int == 48 + i % 10;
    assert Ascii("-") == [MINUS] && Ascii("0") == [ZERO];
    if i < 10 {
      assert Decimal(i) == Decimal(0) + [ZERO + i % 10];
    }
  }
}
