// The assembler's byte literals (asm/asm.py): `to_bytes`, which turns the
// operands of `db`, `dw` and `data` into a list of byte values, and
// `bytes_to_str`, which prints such a list eight bytes to a line. Python's
// `int(text, base)` is not modelled: it is the parameter `parse`, which
// gives the value or None where `int` raises ValueError.
module AsmBytes {
  import opened Wrappers
  import AsmText

  /** Python `int(text, base)`: base 0 reads the prefix (0b, 0x, or none). */
  type IntParser = (string, nat) -> Option<int>

  /** An operand of `to_bytes`: None, a `bytes` object, a `str`, or an `int`. */
  datatype Datum = Nothing | Raw(raw: seq<int>) | Text(text: string) | Number(n: int)

  /** The exceptions `to_bytes` raises. */
  datatype BytesError =
    | CannotConvert                      // ValueError: neither str nor int (None, bytes)
    | EmptyText                          // IndexError: s[0] of ''
    | InvalidByte(text: string)          // ValueError: no literal form matches
    | BadNumber(text: string)            // ValueError raised by int()
    | WrongCount(expected: nat, got: nat)  // ValueError: a positive count not met

  /** The first byte of the UTF-8 encoding of `c`. */
  function FirstUtf8Byte(c: char): (b: int)
    ensures 0 <= b < 256
    ensures c as int < 0x80 ==> b == c as int
  {
    var v := c as int;
    if v < 0x80 then v
    else if v < 0x800 then 0xC0 + v / 0x40
    else if v < 0x1_0000 then 0xE0 + v / 0x1000
    else 0xF0 + v / 0x4_0000
  }

  predicate IsDigit(c: char) {
    '0' <= c <= '9'
  }

  /** `str.isdigit()` for ASCII digits. */
  predicate AllDigits(s: string) {
    s != [] && forall i :: 0 <= i < |s| ==> IsDigit(s[i])
  }

  /** `s[0:2].lower() in ("0b", "0", "0x")`. */
  predicate PrefixedNumber(s: string) {
    s == "0" || (|s| >= 2 && s[0] == '0' && s[1] in "bBxX")
  }

  /** A character literal: the same quote at both ends and something between them. */
  predicate CharLiteral(s: string) {
    |s| > 2 && s[0] in "\"'" && s[|s| - 1] == s[0]
  }

  /** How `to_bytes` reads a non-empty string. */
  datatype Reading = Char(c: char) | Parse(digits: string, base: nat) | Spread | Invalid

  /** The branches of `to_bytes` for a non-empty string, in the order they are tried. */
  function Classify(count: nat, s: string): (r: Reading)
    requires s != []
    ensures r.Parse? ==> r.base in {0, 2, 10, 16}
    ensures r.Spread? <==> count == 0 && !r.Char? && !r.Parse?
  {
    if CharLiteral(s) then Char(s[1])
    else if PrefixedNumber(s) then Parse(s, 0)
    else if (|s| - 1) % 8 == 0 && s[0] in "bB" then Parse(s[1..], 2)
    else if (|s| - 1) % 2 == 0 && s[0] in "$xX" then Parse(s[1..], 16)
    else if AllDigits(s) then Parse(s, 10)
    else if count == 0 then Spread
    else Invalid
  }

  /** A value as one byte, or as two (low, then the unreduced `val // 256`) when `count` is 2. */
  function Encode(count: nat, val: int): (r: seq<int>)
    ensures |r| == if count == 2 then 2 else 1
    ensures 0 <= r[0] < 256
    ensures count == 2 ==> r[0] + 256 * r[1] == val
  {
    if count == 2 then [val % 256, val / 256] else [val % 256]
  }

  /** The bytes one operand adds to the list, or the exception it raises. */
  function DatumBytes(parse: IntParser, count: nat, d: Datum): Result<seq<int>, BytesError>
    decreases count == 0, 0
  {
    match d
    case Nothing => Failure(CannotConvert)
    case Raw(_) => Failure(CannotConvert)
    case Number(n) => Success(Encode(count, n))
    case Text(s) =>
      if s == [] then Failure(EmptyText)
      else match Classify(count, s)
        case Char(c) => Success(Encode(count, FirstUtf8Byte(c)))
        case Parse(digits, base) =>
          (match parse(digits, base)
           case None => Failure(BadNumber(s))
           case Some(v) => Success(Encode(count, v)))
        case Spread => ToBytes(parse, 1, Texts(AsmText.Words(s)))
        case Invalid => Failure(InvalidByte(s))
  }

  /** `[b.strip() for b in s.split()]` as str operands. */
  function Texts(words: seq<string>): (r: seq<Datum>)
    ensures |r| == |words| && forall i :: 0 <= i < |words| ==> r[i] == Text(words[i])
  {
    if words == [] then [] else [Text(words[0])] + Texts(words[1..])
  }

  /** The loop of `to_bytes`: the operands' bytes in order, or the first exception. */
  function Collect(parse: IntParser, count: nat, data: seq<Datum>): Result<seq<int>, BytesError>
    decreases count == 0, 1, |data|
  {
    if data == [] then Success([])
    else match DatumBytes(parse, count, data[0])
      case Failure(e) => Failure(e)
      case Success(b) =>
        match Collect(parse, count, data[1..])
        case Failure(e) => Failure(e)
        case Success(rest) => Success(b + rest)
  }

  /** `to_bytes(count, *data)`. */
  function ToBytes(parse: IntParser, count: nat, data: seq<Datum>): (r: Result<seq<int>, BytesError>)
    ensures r.Success? && count > 0 ==> |r.value| == count
    ensures r.Failure? ==> (Collect(parse, count, data).Failure? && r.error == Collect(parse, count, data).error) ||
                           (Collect(parse, count, data).Success? && r.error == WrongCount(count, |Collect(parse, count, data).value|) &&
                            0 < count != |Collect(parse, count, data).value|)
    decreases count == 0, 2
  {
    match Collect(parse, count, data)
    case Failure(e) => Failure(e)
    case Success(ret) => if 0 < count && count != |ret| then Failure(WrongCount(count, |ret|)) else Success(ret)
  }

  /** The bytes already collected in front of what the rest of the operands give. */
  function Prepend(ret: seq<int>, rest: Result<seq<int>, BytesError>): Result<seq<int>, BytesError> {
    if rest.Failure? then rest else Success(ret + rest.value)
  }

  /** `to_bytes`, the loop as written. */
  method ToBytesLoop(parse: IntParser, count: nat, data: seq<Datum>) returns (r: Result<seq<int>, BytesError>)
    ensures r == ToBytes(parse, count, data)
    decreases count == 0, 1
  {
    var ret: seq<int> := [];
    assert data[0..] == data;
    assert Collect(parse, count, data).Success? ==> [] + Collect(parse, count, data).value == Collect(parse, count, data).value;
    for i := 0 to |data|
      invariant Collect(parse, count, data) == Prepend(ret, Collect(parse, count, data[i..]))
    {
      assert data[i..][0] == data[i] && data[i..][1..] == data[i + 1..];
      var b := OperandBytes(parse, count, data[i]);
      if b.Failure? {
        return Failure(b.error);
      }
      var rest := Collect(parse, count, data[i + 1..]);
      assert rest.Success? ==> ret + (b.value + rest.value) == (ret + b.value) + rest.value;
      ret := ret + b.value;
    }
    assert data[|data|..] == [] && ret + [] == ret;
    if 0 < count && count != |ret| {
      return Failure(WrongCount(count, |ret|));
    }
    r := Success(ret);
  }

  /** The body of the loop of `to_bytes` for one operand; a spread string goes through `to_bytes` again. */
  method OperandBytes(parse: IntParser, count: nat, d: Datum) returns (b: Result<seq<int>, BytesError>)
    ensures b == DatumBytes(parse, count, d)
    decreases count == 0, 0
  {
    if d.Text? && d.text != [] && Classify(count, d.text).Spread? {
      b := ToBytesLoop(parse, 1, Texts(AsmText.Words(d.text)));
    } else {
      b := DatumBytes(parse, count, d);
    }
  }

  // --- properties ---------------------------------------------------------------

  /** With a count of 1 (`db`) or 2 (`dw`) each operand adds exactly that many bytes. */
  lemma {:induction false} EachOperandAddsCount(parse: IntParser, count: nat, data: seq<Datum>)
    requires count == 1 || count == 2
    requires Collect(parse, count, data).Success?
    ensures |Collect(parse, count, data).value| == count * |data|
    decreases |data|
  {
    if data != [] {
      EachOperandAddsCount(parse, count, data[1..]);
    }
  }

  /** So `db` and `dw` accept exactly one operand: more than one is a count mismatch. */
  lemma OneOperandOnly(parse: IntParser, count: nat, data: seq<Datum>)
    requires count == 1 || count == 2
    ensures ToBytes(parse, count, data).Success? ==> |data| == 1
    ensures |data| != 1 && Collect(parse, count, data).Success? ==>
            ToBytes(parse, count, data) == Failure(WrongCount(count, count * |data|))
  {
    if Collect(parse, count, data).Success? {
      EachOperandAddsCount(parse, count, data);
    }
  }

  /** A `dw` value is stored low byte first; the two bytes give the value back, for any integer. */
  lemma WordIsLittleEndian(parse: IntParser, n: int)
    ensures ToBytes(parse, 2, [Number(n)]) == Success([n % 256, n / 256])
    ensures var b := ToBytes(parse, 2, [Number(n)]).value;
      0 <= b[0] < 256 && b[0] + 256 * b[1] == n && (0 <= n < 0x1_0000 ==> 0 <= b[1] < 256)
  {
    assert Collect(parse, 2, [Number(n)][1..]) == Success([]);
    assert [n % 256, n / 256] + [] == [n % 256, n / 256];
  }

  /** Two bytes read as a little-endian word and written back with `dw` are the same two bytes. */
  lemma WordRoundTrip(parse: IntParser, lo: int, hi: int)
    requires 0 <= lo < 256 && 0 <= hi < 256
    ensures ToBytes(parse, 2, [Number(lo + 256 * hi)]) == Success([lo, hi])
  {
    WordIsLittleEndian(parse, lo + 256 * hi);
    assert (lo + 256 * hi) % 256 == lo && (lo + 256 * hi) / 256 == hi;
  }

  /** A `db` value is reduced modulo 256. */
  lemma ByteIsReduced(parse: IntParser, n: int)
    ensures ToBytes(parse, 1, [Number(n)]) == Success([n % 256])
  {
    assert Collect(parse, 1, [Number(n)][1..]) == Success([]);
    assert [n % 256] + [] == [n % 256];
  }

  /** A quoted character stands for the first byte of its UTF-8 encoding: its code for ASCII. */
  lemma CharacterLiteral(parse: IntParser, count: nat, q: char, c: char, mid: string)
    requires q in "\"'" && (count == 1 || count == 2)
    ensures var s := [q, c] + mid + [q];
      ToBytes(parse, count, [Text(s)]) == Success(Encode(count, FirstUtf8Byte(c)))
  {
    var s := [q, c] + mid + [q];
    assert CharLiteral(s) && s[1] == c;
    assert Collect(parse, count, [Text(s)][1..]) == Success([]);
    assert Encode(count, FirstUtf8Byte(c)) + [] == Encode(count, FirstUtf8Byte(c));
  }

  /** `$` and an even number of digits is read in base 16; an odd number of digits is no byte value at all. */
  lemma DollarHex(parse: IntParser, count: nat, digits: string)
    requires count == 1 || count == 2
    ensures |digits| % 2 == 0 ==> Classify(count, "$" + digits) == Parse(digits, 16)
    ensures |digits| % 2 == 1 ==> Classify(count, "$" + digits) == Invalid &&
                                   ToBytes(parse, count, [Text("$" + digits)]) == Failure(InvalidByte("$" + digits))
  {
    var s := "$" + digits;
    assert s[0] == '$' && s[1..] == digits && !AllDigits(s);
    assert !CharLiteral(s) && !PrefixedNumber(s);
  }

  /** None, a bytes object and the empty string are no operands. */
  lemma NoValue(parse: IntParser, count: nat, raw: seq<int>)
    ensures ToBytes(parse, count, [Nothing]) == Failure(CannotConvert)
    ensures ToBytes(parse, count, [Raw(raw)]) == Failure(CannotConvert)
    ensures ToBytes(parse, count, [Text("")]) == Failure(EmptyText)
  {
    assert [Nothing][0] == Nothing && [Raw(raw)][0] == Raw(raw) && [Text("")][0] == Text("");
    assert Collect(parse, count, [Nothing]) == Failure(CannotConvert);
    assert Collect(parse, count, [Raw(raw)]) == Failure(CannotConvert);
    assert Collect(parse, count, [Text("")]) == Failure(EmptyText);
  }

  /**
   * With a count of 0 (`data`), a string no literal form matches is split on
   * whitespace and converted with a count of 1, so it must hold exactly one
   * word.
   */
  lemma SpreadTakesOneWord(parse: IntParser, s: string)
    requires s != [] && Classify(0, s).Spread?
    ensures DatumBytes(parse, 0, Text(s)).Success? ==> |AsmText.Words(s)| == 1
  {
    OneOperandOnly(parse, 1, Texts(AsmText.Words(s)));
  }

  // --- bytes_to_str -------------------------------------------------------------

  /** The lowercase hexadecimal digit for `d`. */
  function HexChar(d: nat): (c: char)
    requires d < 16
    ensures DigitValue(c) == d
  {
    if d < 10 then ('0' as int + d) as char else ('a' as int + d - 10) as char
  }

  /** The lowercase hexadecimal digits of `n`, without leading zeros. */
  function HexDigits(n: nat): (s: string)
    ensures 1 <= |s|
    decreases n
  {
    if n < 16 then [HexChar(n)] else HexDigits(n / 16) + [HexChar(n % 16)]
  }

  function DigitValue(c: char): nat {
    if '0' <= c <= '9' then c as int - '0' as int
    else if 'a' <= c <= 'f' then c as int - 'a' as int + 10
    else 0
  }

  /** The number a string of hexadecimal digits stands for: the reading the printed dump is meant for. */
  function HexValue(s: string): nat
    decreases |s|
  {
    if s == [] then 0 else HexValue(s[..|s| - 1]) * 16 + DigitValue(s[|s| - 1])
  }

  lemma {:induction false} HexDigitsRoundTrip(n: nat)
    ensures HexValue(HexDigits(n)) == n
    decreases n
  {
    var s := HexDigits(n);
    if n >= 16 {
      HexDigitsRoundTrip(n / 16);
      assert s[..|s| - 1] == HexDigits(n / 16);
    }
  }

  /** `n` has at most `k` hexadecimal digits when it is below 16 to the `k`. */
  lemma {:induction false} HexDigitsFit(n: nat, k: nat)
    requires 1 <= k && n < Pow16(k)
    ensures |HexDigits(n)| <= k
    decreases k
  {
    if n >= 16 {
      HexDigitsFit(n / 16, k - 1);
    }
  }

  function Pow16(k: nat): nat {
    if k == 0 then 1 else 16 * Pow16(k - 1)
  }

  function Zeros(k: nat): (z: string)
    ensures |z| == k && forall i :: 0 <= i < k ==> z[i] == '0'
  {
    seq(k, _ => '0')
  }

  lemma {:induction false} LeadingZeros(k: nat, s: string)
    ensures HexValue(Zeros(k) + s) == HexValue(s)
    decreases |s|, k
  {
    if s == [] {
      assert Zeros(k) + s == Zeros(k);
      if k > 0 {
        assert Zeros(k)[..k - 1] == Zeros(k - 1);
        LeadingZeros(k - 1, []);
        assert Zeros(k - 1) + [] == Zeros(k - 1);
      }
    } else {
      LeadingZeros(k, s[..|s| - 1]);
      assert (Zeros(k) + s)[..|s| + k - 1] == Zeros(k) + s[..|s| - 1];
    }
  }

  /** `s` padded on the left with zeros to `width` characters. */
  function ZeroFill(s: string, width: nat): (r: string)
    ensures |r| == if |s| < width then width else |s|
  {
    if |s| < width then Zeros(width - |s|) + s else s
  }

  /** Python's `format(n, "0<width>x")`: zero-padded lowercase hex, the sign counted in the width. */
  function Format(n: int, width: nat): string {
    if n < 0 then "-" + ZeroFill(HexDigits(-n), if width > 0 then width - 1 else 0)
    else ZeroFill(HexDigits(n), width)
  }

  /** A byte prints as exactly two hexadecimal digits, which read back as the byte. */
  lemma ByteFormat(n: int)
    requires 0 <= n < 256
    ensures |Format(n, 2)| == 2 && HexValue(Format(n, 2)) == n
  {
    HexDigitsFit(n, 2);
    HexDigitsRoundTrip(n);
    LeadingZeros(2 - |HexDigits(n)|, HexDigits(n));
  }

  /** An address prints as exactly four hexadecimal digits, which read back as the address. */
  lemma AddressFormat(a: int)
    requires 0 <= a < 0x1_0000
    ensures |Format(a, 4)| == 4 && HexValue(Format(a, 4)) == a
  {
    HexDigitsFit(a, 4);
    HexDigitsRoundTrip(a);
    LeadingZeros(4 - |HexDigits(a)|, HexDigits(a));
  }

  /** The bytes of one line, each as `{r}{b:02x}`, separated by single spaces. */
  function ByteList(eight: seq<int>, radix: bool): string
    decreases |eight|
  {
    var r := if radix then "0x" else "";
    if eight == [] then ""
    else if |eight| == 1 then r + Format(eight[0], 2)
    else r + Format(eight[0], 2) + " " + ByteList(eight[1..], radix)
  }

  /** One printed line: the prefix, the address and two spaces when there is one, then the bytes. */
  function FormatLine(eight: seq<int>, prefix: string, address: Option<int>, radix: bool): string {
    match address
    case None => prefix + ByteList(eight, radix)
    case Some(a) => prefix + Format(a, 4) + "  " + ByteList(eight, radix)
  }

  /** The address `k` bytes further on, when there is one. */
  function Shift(address: Option<int>, k: int): Option<int> {
    match address
    case None => None
    case Some(a) => Some(a + k)
  }

  function Min(a: int, b: int): int {
    if a < b then a else b
  }

  /** The printer of one line, as a function of its bytes and its address. */
  function Printer(prefix: string, radix: bool): (seq<int>, Option<int>) -> string {
    (eight: seq<int>, address: Option<int>) => FormatLine(eight, prefix, address, radix)
  }

  /** Eight bytes at a time, each group printed by `show` at an address advancing by eight. */
  function LinesBy(show: (seq<int>, Option<int>) -> string, b: seq<int>, address: Option<int>): seq<string>
    decreases |b|
  {
    if b == [] then []
    else
      var n := Min(8, |b|);
      [show(b[..n], address)] + LinesBy(show, b[n..], Shift(address, 8))
  }

  /** The lines of `bytes_to_str`. */
  function Lines(b: seq<int>, prefix: string, address: Option<int>, radix: bool): seq<string> {
    LinesBy(Printer(prefix, radix), b, address)
  }

  /** `"\n".join(lines)`. */
  function JoinLines(lines: seq<string>): string
    decreases |lines|
  {
    if lines == [] then ""
    else if |lines| == 1 then lines[0]
    else lines[0] + "\n" + JoinLines(lines[1..])
  }

  /** `bytes_to_str(bytes, prefix, address, radix)`. */
  function BytesToStr(b: seq<int>, prefix: string, address: Option<int>, radix: bool): string {
    JoinLines(Lines(b, prefix, address, radix))
  }

  lemma {:induction false} LinesCount(b: seq<int>, prefix: string, address: Option<int>, radix: bool)
    ensures |Lines(b, prefix, address, radix)| == (|b| + 7) / 8
  {
    CountBy(Printer(prefix, radix), b, address);
  }

  lemma {:induction false} CountBy(show: (seq<int>, Option<int>) -> string, b: seq<int>, address: Option<int>)
    ensures |LinesBy(show, b, address)| == (|b| + 7) / 8
    decreases |b|
  {
    if b != [] {
      CountBy(show, b[Min(8, |b|)..], Shift(address, 8));
    }
  }

  lemma LineAt(b: seq<int>, prefix: string, address: Option<int>, radix: bool, i: nat)
    requires 8 * i < |b|
    ensures |Lines(b, prefix, address, radix)| > i
    ensures Lines(b, prefix, address, radix)[i] ==
            FormatLine(b[8 * i..Min(8 * i + 8, |b|)], prefix, Shift(address, 8 * i), radix)
  {
    LineByAt(Printer(prefix, radix), b, address, i);
  }

  lemma {:induction false} LineByAt(show: (seq<int>, Option<int>) -> string, b: seq<int>, address: Option<int>, i: nat)
    requires 8 * i < |b|
    ensures |LinesBy(show, b, address)| > i
    ensures LinesBy(show, b, address)[i] == show(b[8 * i..Min(8 * i + 8, |b|)], Shift(address, 8 * i))
    decreases i
  {
    if i == 0 {
      assert Shift(address, 0) == address;
    } else {
      LineByAt(show, b[8..], Shift(address, 8), i - 1);
      SliceOfTail(b, i);
      assert Shift(Shift(address, 8), 8 * (i - 1)) == Shift(address, 8 * i);
    }
  }

  /** Group `i - 1` of the bytes after the first eight is group `i` of all of them. */
  lemma SliceOfTail(b: seq<int>, i: nat)
    requires 0 < i && 8 * i < |b|
    ensures b[8..][8 * (i - 1)..Min(8 * (i - 1) + 8, |b[8..]|)] == b[8 * i..Min(8 * i + 8, |b|)]
  {
  }

  /**
   * One line per started group of eight bytes; line `i` prints bytes `8i`
   * up to `8i + 8` at the address plus `8i`.
   */
  lemma LinesShape(b: seq<int>, prefix: string, address: Option<int>, radix: bool)
    ensures |Lines(b, prefix, address, radix)| == (|b| + 7) / 8
    ensures forall i :: 0 <= i < (|b| + 7) / 8 ==>
      Lines(b, prefix, address, radix)[i] ==
      FormatLine(b[8 * i..Min(8 * i + 8, |b|)], prefix, Shift(address, 8 * i), radix)
  {
    LinesCount(b, prefix, address, radix);
    forall i | 0 <= i < (|b| + 7) / 8
      ensures Lines(b, prefix, address, radix)[i] ==
              FormatLine(b[8 * i..Min(8 * i + 8, |b|)], prefix, Shift(address, 8 * i), radix)
    {
      assert 8 * i < |b|;
      LineAt(b, prefix, address, radix, i);
    }
  }

  /** The first line, then the lines of the rest. */
  lemma LinesStep(b: seq<int>, prefix: string, address: Option<int>, radix: bool)
    requires b != []
    ensures Lines(b, prefix, address, radix) ==
      [FormatLine(b[..Min(8, |b|)], prefix, address, radix)] + Lines(b[Min(8, |b|)..], prefix, Shift(address, 8), radix)
  {
  }

  /** LinesStep for any printer. */
  lemma LinesByStep(show: (seq<int>, Option<int>) -> string, b: seq<int>, address: Option<int>)
    requires b != []
    ensures LinesBy(show, b, address) == [show(b[..Min(8, |b|)], address)] + LinesBy(show, b[Min(8, |b|)..], Shift(address, 8))
  {
  }

  /** `bytes_to_str`, the loop as written. */
  method BytesToStrLoop(bytes: seq<int>, prefix: string, address0: Option<int>, radix: bool) returns (s: string)
    ensures s == BytesToStr(bytes, prefix, address0, radix)
  {
    var lines := LinesLoop(Printer(prefix, radix), bytes, address0);
    s := JoinLines(lines);
  }

  /** The loop of `bytes_to_str`: eight bytes at a time, each group printed by `show` at its address. */
  method LinesLoop(show: (seq<int>, Option<int>) -> string, bytes: seq<int>, address0: Option<int>) returns (lines: seq<string>)
    ensures lines == LinesBy(show, bytes, address0)
  {
    lines := [];
    var b := bytes;
    var address := address0;
    while |b| > 0
      invariant lines + LinesBy(show, b, address) == LinesBy(show, bytes, address0)
      decreases |b|
    {
      var eight := b[..Min(8, |b|)];
      var line := show(eight, address);
      LinesByStep(show, b, address);
      if address.Some? {
        address := Some(address.value + 8);
      }
      lines := lines + [line];
      b := b[Min(8, |b|)..];
    }
    assert lines + [] == lines;
  }
}
