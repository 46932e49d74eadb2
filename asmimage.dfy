// The assembler's output side (asm/asm.py): the binary image and its
// `set_address`/`append`, segments and their running address, labels, the
// instruction entries built by `Jump` and `Move`, and how an instruction
// puts its opcode and constant bytes into the image. The opcode table and
// the operand classifier `_parse_operand` are parameters.
module AsmImage {
  import opened Wrappers
  import AsmText
  import AsmBytes

  type Octet = b: int | 0 <= b < 256

  // --- the image --------------------------------------------------------------

  /** What `Image.append` is given: None, a str, bytes, a list or tuple, an int, or anything else. */
  datatype Item = NoItem | Str(s: string) | Blob(b: seq<Octet>) | Many(items: seq<Item>) | Int(n: int) | Other

  /** The messages appended to an `_errors` list. */
  datatype Recorded =
    | OutOfRange(value: int)
    | CannotAppend
    | LabelNotDefined(name: string)
    | CanonicalNotDefined(canonical: string)

  /** The exceptions raised: ParseException, and the ValueError of `bytearray.append`. */
  datatype Raised =
    | Overlapping(address: int)
    | ReservedLabel(name: string)
    | ConstantBytes(canonical: string, needed: int)
    | InvalidArguments(mnemonic: string)
    | NoAddress
    | NoDestination
    | NoTarget
    | NegativeByte(value: int)

  /** The image's bytes, its current address, its start address (-1 until set) and its errors. */
  datatype State = State(image: seq<Octet>, address: int, start: int, errors: seq<Recorded>)

  /** The UTF-8 encoding of one character. */
  function Utf8Char(c: char): (b: seq<Octet>)
    ensures 1 <= |b| <= 4 && b[0] == AsmBytes.FirstUtf8Byte(c)
    ensures c as int < 0x80 ==> b == [c as int]
  {
    var v := c as int;
    if v < 0x80 then [v]
    else if v < 0x800 then [0xC0 + v / 0x40, 0x80 + v % 0x40]
    else if v < 0x1_0000 then [0xE0 + v / 0x1000, 0x80 + v / 0x40 % 0x40, 0x80 + v % 0x40]
    else [0xF0 + v / 0x4_0000, 0x80 + v / 0x1000 % 0x40, 0x80 + v / 0x40 % 0x40, 0x80 + v % 0x40]
  }

  /** `bytes(s, "utf-8")`. */
  function Utf8(s: string): (b: seq<Octet>)
    ensures |b| >= |s|
  {
    if s == [] then [] else Utf8Char(s[0]) + Utf8(s[1..])
  }

  predicate Ascii(s: string) {
    forall i :: 0 <= i < |s| ==> s[i] as int < 0x80
  }

  /** An ASCII string is stored as its character codes. */
  lemma {:induction false} AsciiIsItsCodes(s: string)
    requires Ascii(s)
    ensures |Utf8(s)| == |s| && forall i :: 0 <= i < |s| ==> Utf8(s)[i] == s[i] as int
    decreases |s|
  {
    if s != [] {
      AsciiIsItsCodes(s[1..]);
    }
  }

  /** `extend`: the bytes added and the address advanced by as many. */
  function Extend(st: State, b: seq<Octet>): State {
    st.(image := st.image + b, address := st.address + |b|)
  }

  /**
   * `Image.append(*data)`, as the code evidently means it: a value from
   * -128 to 255 is stored as a byte (a negative one in two's complement),
   * any other integer is recorded as out of range.
   */
  function Appended(st: State, data: seq<Item>): (r: State)
    ensures |st.image| <= |r.image| && r.image[..|st.image|] == st.image
    ensures r.address - st.address == |r.image| - |st.image|
    ensures r.start == st.start && st.errors <= r.errors
    decreases data
  {
    if data == [] then st
    else Appended(AppendedOne(st, data[0]), data[1..])
  }

  function AppendedOne(st: State, d: Item): (r: State)
    ensures |st.image| <= |r.image| && r.image[..|st.image|] == st.image
    ensures r.address - st.address == |r.image| - |st.image|
    ensures r.start == st.start && st.errors <= r.errors
    decreases d
  {
    match d
    case NoItem => st
    case Str(s) => Extend(st, Utf8(s))
    case Blob(b) => Extend(st, b)
    case Many(items) => Appended(st, items)
    case Int(n) =>
      if -128 <= n < 256 then Extend(st, [n % 256])
      else st.(errors := st.errors + [OutOfRange(n)])
    case Other => st.(errors := st.errors + [CannotAppend])
  }

  /** The state after `append`, and the exception that ended it early, if one did. */
  datatype Outcome = Outcome(state: State, raised: Option<Raised>)

  /**
   * `Image.append(*data)` as written: a value from -128 to -1 passes the
   * range check and reaches `bytearray.append`, which raises ValueError
   * and abandons the rest of the data.
   */
  function AppendedAsWritten(st: State, data: seq<Item>): Outcome
    decreases data
  {
    if data == [] then Outcome(st, None)
    else
      var o := AppendedOneAsWritten(st, data[0]);
      if o.raised.Some? then o else AppendedAsWritten(o.state, data[1..])
  }

  function AppendedOneAsWritten(st: State, d: Item): Outcome
    decreases d
  {
    match d
    case Many(items) => AppendedAsWritten(st, items)
    case Int(n) =>
      if -128 <= n < 0 then Outcome(st, Some(NegativeByte(n)))
      else Outcome(AppendedOne(st, d), None)
    case _ => Outcome(AppendedOne(st, d), None)
  }

  /** No integer from -128 to -1 anywhere in the data, lists included. */
  predicate NoNegativeByte(data: seq<Item>)
    decreases data
  {
    forall i :: 0 <= i < |data| ==> NoNegativeByteIn(data[i])
  }

  predicate NoNegativeByteIn(d: Item)
    decreases d
  {
    match d
    case Many(items) => forall i :: 0 <= i < |items| ==> NoNegativeByteIn(items[i])
    case Int(n) => !(-128 <= n < 0)
    case _ => true
  }

  /** Without negative bytes the code as written and the intended append agree. */
  lemma {:induction false} AsWrittenAgrees(st: State, data: seq<Item>)
    requires NoNegativeByte(data)
    ensures AppendedAsWritten(st, data) == Outcome(Appended(st, data), None)
    decreases data
  {
    if data != [] {
      AsWrittenAgreesOne(st, data[0]);
      AsWrittenAgrees(AppendedOne(st, data[0]), data[1..]);
    }
  }

  lemma {:induction false} AsWrittenAgreesOne(st: State, d: Item)
    requires NoNegativeByteIn(d)
    ensures AppendedOneAsWritten(st, d) == Outcome(AppendedOne(st, d), None)
    decreases d
  {
    if d.Many? {
      AsWrittenAgrees(st, d.items);
    }
  }

  /** Appending -1 as written raises instead of storing 0xff, as the intended append does. */
  lemma NegativeByteRaises(st: State)
    ensures AppendedAsWritten(st, [Int(-1)]) == Outcome(st, Some(NegativeByte(-1)))
    ensures Appended(st, [Int(-1)]) == Extend(st, [0xFF])
  {
    assert [Int(-1)][0] == Int(-1) && [Int(-1)][1..] == [];
  }

  /** An integer in range adds one byte, its value modulo 256; any other is recorded and adds nothing. */
  lemma AppendInt(st: State, n: int)
    ensures -128 <= n < 256 ==> Appended(st, [Int(n)]) == Extend(st, [n % 256])
    ensures !(-128 <= n < 256) ==> Appended(st, [Int(n)]) == st.(errors := st.errors + [OutOfRange(n)])
  {
    assert [Int(n)][0] == Int(n) && [Int(n)][1..] == [];
  }

  /** Appending `a` and then `b` is appending `a + b`. */
  lemma {:induction false} AppendedConcat(st: State, a: seq<Item>, b: seq<Item>)
    ensures Appended(st, a + b) == Appended(Appended(st, a), b)
    decreases |a|
  {
    if a == [] {
      assert a + b == b;
    } else {
      assert (a + b)[0] == a[0] && (a + b)[1..] == a[1..] + b;
      AppendedConcat(AppendedOne(st, a[0]), a[1..], b);
    }
  }

  /** Appending `a` and then, unless that raised, `b` is appending `a + b`, as written. */
  lemma {:induction false} AppendedAsWrittenConcat(st: State, a: seq<Item>, b: seq<Item>)
    ensures var o := AppendedAsWritten(st, a);
      AppendedAsWritten(st, a + b) == if o.raised.Some? then o else AppendedAsWritten(o.state, b)
    decreases |a|
  {
    if a == [] {
      assert a + b == b;
    } else {
      assert (a + b)[0] == a[0] && (a + b)[1..] == a[1..] + b;
      var o := AppendedOneAsWritten(st, a[0]);
      if o.raised.None? {
        AppendedAsWrittenConcat(o.state, a[1..], b);
      }
    }
  }

  /** Bytes in range, as int items. */
  function Ints(values: seq<int>): (r: seq<Item>)
    ensures |r| == |values| && forall i :: 0 <= i < |values| ==> r[i] == Int(values[i])
  {
    if values == [] then [] else [Int(values[0])] + Ints(values[1..])
  }

  lemma ExtendTwice(st: State, a: seq<Octet>, b: seq<Octet>)
    ensures Extend(Extend(st, a), b) == Extend(st, a + b)
  {
    assert st.image + a + b == st.image + (a + b);
  }

  /** Appending byte values in range adds exactly those bytes. */
  lemma {:induction false} AppendBytes(st: State, values: seq<Octet>)
    ensures Appended(st, Ints(values)) == Extend(st, values)
    decreases |values|
  {
    if values == [] {
      assert st.image + values == st.image;
    } else {
      var v := values[0];
      assert Ints(values)[0] == Int(v) && Ints(values)[1..] == Ints(values[1..]);
      assert AppendedOne(st, Int(v)) == Extend(st, [v]);
      AppendBytes(Extend(st, [v]), values[1..]);
      ExtendTwice(st, [v], values[1..]);
      assert [v] + values[1..] == values;
    }
  }

  function Zeros(k: nat): (z: seq<Octet>)
    ensures |z| == k && forall i :: 0 <= i < k ==> z[i] == 0
  {
    seq(k, _ => 0)
  }

  /** The binary image being assembled. */
  class Image {
    var image: seq<Octet>
    var address: int
    var startAddress: int
    var errors: seq<Recorded>
    var labels: map<string, int>

    function Snapshot(): State
      reads this
    {
      State(image, address, startAddress, errors)
    }

    /** The address is the number of bytes written so far. */
    predicate Valid()
      reads this
    {
      address == |image|
    }

    constructor ()
      ensures Valid() && Snapshot() == State([], 0, -1, []) && labels == map[]
    {
      image := [];
      address := 0;
      startAddress := -1;
      errors := [];
      labels := map[];
    }

    /** The label branch of `Image.add`: the label is registered under its name. */
    method AddLabel(l: Label)
      modifies this
      ensures labels == old(labels)[l.name := l.value] && Snapshot() == old(Snapshot())
    {
      labels := labels[l.name := l.value];
    }

    /**
     * `append(*data)`: one item at a time, as written, so a byte from -128
     * to -1 raises and the items after it are not appended.
     */
    method Append(data: seq<Item>) returns (raised: Option<Raised>)
      requires Valid()
      modifies this
      ensures Valid()
      ensures Outcome(Snapshot(), raised) == AppendedAsWritten(old(Snapshot()), data) && labels == old(labels)
      decreases data
    {
      raised := None;
      for i := 0 to |data|
        invariant AppendedAsWritten(old(Snapshot()), data) == AppendedAsWritten(Snapshot(), data[i..])
        invariant raised.None? && labels == old(labels) && Valid()
      {
        assert data[i..][0] == data[i] && data[i..][1..] == data[i + 1..];
        raised := AppendOne(data[i]);
        if raised.Some? {
          return;
        }
      }
      assert data[|data|..] == [];
    }

    /**
     * The body of `append`'s loop for one item: a str as its UTF-8 bytes, a
     * list or tuple item by item; `bytearray.append` refuses a negative int.
     */
    method AppendOne(d: Item) returns (raised: Option<Raised>)
      requires Valid()
      modifies this
      ensures Valid()
      ensures Outcome(Snapshot(), raised) == AppendedOneAsWritten(old(Snapshot()), d) && labels == old(labels)
      decreases d
    {
      raised := None;
      match d
      case NoItem =>
      case Str(s) =>
        var b := Utf8(s);
        image := image + b;
        address := address + |b|;
      case Blob(b) =>
        image := image + b;
        address := address + |b|;
      case Many(items) =>
        raised := Append(items);
      case Int(n) =>
        if -128 <= n < 256 {
          if n < 0 {
            return Some(NegativeByte(n));
          }
          image := image + [n];
          address := address + 1;
        } else {
          errors := errors + [OutOfRange(n)];
        }
      case Other =>
        errors := errors + [CannotAppend];
    }

    /**
     * `set_address(address)`: an address below the current one is an
     * overlap; otherwise the first call fixes the start address and zero
     * bytes fill the image up to the address.
     */
    method SetAddress(a: int) returns (raised: Option<Raised>)
      requires Valid()
      modifies this
      ensures Valid()
      ensures a < old(address) ==> raised == Some(Overlapping(a)) && Snapshot() == old(Snapshot())
      ensures a >= old(address) ==>
        raised == None &&
        Snapshot() == State(old(image) + Zeros(a - old(address)), a,
                            if old(startAddress) == -1 then a else old(startAddress), old(errors))
      ensures labels == old(labels)
    {
      if a < address {
        return Some(Overlapping(a));
      }
      if startAddress == -1 {
        startAddress := a;
      }
      while address < a
        invariant old(address) <= address <= a
        invariant image == old(image) + Zeros(address - old(address))
        invariant errors == old(errors) && labels == old(labels) && Valid()
        invariant startAddress == if old(startAddress) == -1 then a else old(startAddress)
        decreases a - address
      {
        var before := Snapshot();
        AsWrittenAgrees(before, [Int(0)]);
        AppendInt(before, 0);
        var _ := Append([Int(0)]);
        assert Zeros(address - old(address)) == Zeros(address - 1 - old(address)) + [0];
      }
      raised := None;
    }
  }

  /** Zero padding keeps the address equal to the number of bytes written. */
  lemma SetAddressKeepsValid(st: State, a: int)
    requires st.address == |st.image| && a >= st.address
    ensures a == |st.image + Zeros(a - st.address)|
  {
  }

  // --- labels and segments ------------------------------------------------------

  /** The names an operand uses for registers: no label may take one. */
  const Reserved: set<string> := {"a", "b", "c", "d", "ab", "cd", "si", "di", "sp", "pc", "flags"}

  datatype Label = Label(name: string, value: int)

  /** `Label(label, value)`: a reserved name raises ParseException. */
  function MakeLabel(name: string, value: int): (r: Result<Label, Raised>)
    ensures r.Success? <==> name !in Reserved
    ensures r.Success? ==> r.value == Label(name, value)
    ensures r.Failure? ==> r.error == ReservedLabel(name)
  {
    if name in Reserved then Failure(ReservedLabel(name)) else Success(Label(name, value))
  }

  /** An entry as a segment sees it: the number of bytes it takes. */
  datatype Entry = Entry(bytes: int)

  function Sizes(entries: seq<Entry>): int {
    if entries == [] then 0 else Sizes(entries[..|entries| - 1]) + entries[|entries| - 1].bytes
  }

  /** A segment: its start address and its entries, with their total size kept alongside. */
  class Segment {
    const start: int
    var size: int
    var entries: seq<Entry>

    predicate Valid()
      reads this
    {
      size == Sizes(entries)
    }

    constructor (startAddress: int)
      ensures Valid() && start == startAddress && entries == []
    {
      start := startAddress;
      size := 0;
      entries := [];
    }

    /** `add(entry)`. */
    method Add(e: Entry)
      requires Valid()
      modifies this
      ensures Valid() && entries == old(entries) + [e]
    {
      entries := entries + [e];
      size := size + e.bytes;
      assert entries[..|entries| - 1] == old(entries);
    }

    /** `current_address()`: the start plus the bytes of every entry added. */
    function CurrentAddress(): (a: int)
      reads this
      requires Valid()
      ensures a == start + Sizes(entries)
    {
      start + size
    }
  }

  /** The address after a run of entries is the sum of the sizes, in any grouping. */
  lemma {:induction false} SizesConcat(a: seq<Entry>, b: seq<Entry>)
    ensures Sizes(a + b) == Sizes(a) + Sizes(b)
    decreases |b|
  {
    if b == [] {
      assert a + b == a;
    } else {
      assert (a + b)[..|a + b| - 1] == a + b[..|b| - 1];
      SizesConcat(a, b[..|b| - 1]);
    }
  }

  // --- instructions ----------------------------------------------------------------

  /** What `_parse_operand` gives: the size, the constants (none as empty), the canonical form, the label. */
  datatype Operand = Operand(bytes: int, constants: seq<int>, canonical: string, symbol: Option<string>)

  type OperandParser = string -> Operand

  /** An operand `_parse_operand` reads as a number: `#` or `*`, then hex or decimal digits. */
  predicate Numeric(o: Operand) {
    o.bytes == -1 && |o.constants| == 1 && o.symbol.None? && o.canonical in {"#%04x", "*%04x"}
  }

  /** The fields of an instruction entry. */
  datatype Fields = Fields(mnemonic: string, arguments: seq<string>, canonical: string,
                           bytes: int, constants: seq<int>, symbol: Option<string>)

  /** Python `str.split(",")`: the pieces between commas, empty ones included. */
  function SplitCommas(s: string): (r: seq<string>)
    ensures |r| >= 1
    ensures forall i :: 0 <= i < |r| ==> ',' !in r[i]
  {
    if ',' !in s then [s]
    else
      var k := FirstComma(s);
      [s[..k]] + SplitCommas(s[k + 1..])
  }

  function FirstComma(s: string): (k: nat)
    requires ',' in s
    ensures k < |s| && s[k] == ',' && ',' !in s[..k]
  {
    if s[0] == ',' then 0
    else
      assert s == [s[0]] + s[1..];
      var k := 1 + FirstComma(s[1..]);
      assert s[..k] == [s[0]] + s[1..][..k - 1];
      k
  }

  /** Joining the pieces with commas gives the text back. */
  lemma {:induction false} SplitCommasJoins(s: string)
    ensures JoinCommas(SplitCommas(s)) == s
    decreases |s|
  {
    if ',' in s {
      var k := FirstComma(s);
      SplitCommasJoins(s[k + 1..]);
      assert s == s[..k] + "," + s[k + 1..];
    }
  }

  /** `",".join(pieces)`. */
  function JoinCommas(pieces: seq<string>): string {
    if pieces == [] then ""
    else if |pieces| == 1 then pieces[0]
    else pieces[0] + "," + JoinCommas(pieces[1..])
  }

  function Concat(tokens: seq<string>): string {
    if tokens == [] then "" else tokens[0] + Concat(tokens[1..])
  }

  function StripAll(pieces: seq<string>): (r: seq<string>)
    ensures |r| == |pieces| && forall i :: 0 <= i < |r| ==> r[i] == AsmText.Strip(pieces[i])
  {
    if pieces == [] then [] else [AsmText.Strip(pieces[0])] + StripAll(pieces[1..])
  }

  /**
   * `Instruction.__init__`: the argument tokens are glued together and cut
   * at commas, each piece trimmed; the canonical form is the mnemonic and
   * the comma-joined arguments. One byte, no constants, no label.
   */
  function BaseFields(mnemonic: string, args: seq<string>): (f: Fields)
    ensures f.mnemonic == mnemonic && f.bytes == 1 && f.constants == [] && f.symbol.None?
    ensures args == [] ==> f.arguments == [] && f.canonical == mnemonic
    ensures args != [] ==> |f.arguments| == |SplitCommas(Concat(args))|
  {
    var arguments := if args != [] then StripAll(SplitCommas(Concat(args))) else [];
    var canonical := if arguments != [] then mnemonic + " " + JoinCommas(arguments) else mnemonic;
    Fields(mnemonic, arguments, canonical, 1, [], None)
  }

  /** `Jump.__init__`: exactly one non-empty argument, whose operand gives the size, constants and label. */
  function JumpFields(mnemonic: string, args: seq<string>, parse: OperandParser): (r: Result<Fields, Raised>)
    ensures r.Success? <==> |BaseFields(mnemonic, args).arguments| == 1 && BaseFields(mnemonic, args).arguments[0] != ""
    ensures r.Failure? ==>
      r.error == if |BaseFields(mnemonic, args).arguments| != 1 then InvalidArguments(mnemonic) else NoAddress
    ensures r.Success? ==> var op := parse(BaseFields(mnemonic, args).arguments[0]);
      r.value.bytes == op.bytes && r.value.constants == op.constants && r.value.symbol == op.symbol &&
      r.value.canonical == mnemonic + " " + op.canonical
  {
    var base := BaseFields(mnemonic, args);
    if |base.arguments| != 1 then Failure(InvalidArguments(mnemonic))
    else if base.arguments[0] == "" then Failure(NoAddress)
    else
      var op := parse(base.arguments[0]);
      Success(base.(constants := op.constants, bytes := op.bytes, symbol := op.symbol,
                    canonical := mnemonic + " " + op.canonical))
  }

  /** A numeric operand made a two-byte address: three bytes, the value low byte first. */
  function Widened(op: Operand): (r: Operand)
    ensures op.bytes >= 0 ==> r == op
    ensures op.bytes < 0 ==>
      r.bytes == 3 && r.canonical == op.canonical && r.symbol == op.symbol &&
      (op.constants != [] ==> |r.constants| == 2 && r.constants[0] + 256 * r.constants[1] == op.constants[0])
  {
    if op.bytes < 0 then
      op.(bytes := 3, constants := if op.constants != [] then [op.constants[0] % 256, op.constants[0] / 256] else op.constants)
    else op
  }

  /** The `# HACK` of `Move.__init__`: a numeric source becomes one byte for an 8-bit register, two otherwise. */
  function Sized(dest: Operand, src: Operand): (r: Operand)
    ensures src.bytes >= 0 ==> r == src
    ensures src.bytes < 0 && dest.canonical in Reserved && |dest.canonical| == 1 && src.canonical != [] && src.canonical[0] == '#' ==>
      r.bytes == 2 && r.canonical == "#%02x" && (src.constants != [] ==> r.constants == [src.constants[0] % 256])
    ensures src.bytes < 0 && !(dest.canonical in Reserved && |dest.canonical| == 1 && src.canonical != [] && src.canonical[0] == '#') ==>
      r.bytes == 3 && r.canonical == src.canonical &&
      (src.constants != [] ==> r.constants == [src.constants[0] % 256, src.constants[0] / 256])
  {
    if src.bytes < 0 then
      if dest.canonical in Reserved && |dest.canonical| == 1 && src.canonical != [] && src.canonical[0] == '#' then
        src.(bytes := 2, constants := if src.constants != [] then [src.constants[0] % 256] else src.constants,
             canonical := "#%02x")
      else Widened(src)
    else src
  }

  function Max(a: int, b: int): int {
    if a < b then b else a
  }

  /** `Move.__init__`: two non-empty arguments, destination then source. */
  function MoveFields(mnemonic: string, args: seq<string>, parse: OperandParser): (r: Result<Fields, Raised>)
    ensures r.Success? <==>
      (|BaseFields(mnemonic, args).arguments| == 2 &&
       BaseFields(mnemonic, args).arguments[0] != "" && BaseFields(mnemonic, args).arguments[1] != "")
    ensures r.Failure? ==>
      r.error == if |BaseFields(mnemonic, args).arguments| != 2 then InvalidArguments(mnemonic)
                 else if BaseFields(mnemonic, args).arguments[0] == "" then NoDestination else NoTarget
    ensures r.Success? ==>
      var dest := parse(BaseFields(mnemonic, args).arguments[0]);
      var src := Sized(dest, parse(BaseFields(mnemonic, args).arguments[1]));
      r.value.bytes == Max(src.bytes, dest.bytes) &&
      r.value.constants == (if src.constants != [] then src.constants else dest.constants) &&
      r.value.symbol == (if src.symbol.Some? then src.symbol else dest.symbol) &&
      r.value.canonical == mnemonic + " " + dest.canonical + "," + src.canonical
  {
    var base := BaseFields(mnemonic, args);
    if |base.arguments| != 2 then Failure(InvalidArguments(mnemonic))
    else if base.arguments[0] == "" then Failure(NoDestination)
    else if base.arguments[1] == "" then Failure(NoTarget)
    else
      var dest := parse(base.arguments[0]);
      var src := Sized(dest, parse(base.arguments[1]));
      Success(base.(constants := if src.constants != [] then src.constants else dest.constants,
                    bytes := Max(src.bytes, dest.bytes),
                    symbol := if src.symbol.Some? then src.symbol else dest.symbol,
                    canonical := mnemonic + " " + dest.canonical + "," + src.canonical))
  }

  /** What `append_to` does with an instruction. */
  datatype Emission =
    | UnknownCanonical        // the canonical form has no opcode: recorded
    | UndefinedLabel(name: string)  // its label is not defined: recorded
    | WrongLength(needed: int)      // the size does not match the constants: ParseException
    | Emit(code: seq<int>)          // the opcode and the constants go into the image

  /** The constants once a defined label is resolved: low byte, then `value // 256` for a three-byte instruction. */
  function Resolved(f: Fields, labels: map<string, int>): seq<int>
    requires f.symbol.Some? ==> f.symbol.value in labels
  {
    if f.symbol.Some? then
      var v := labels[f.symbol.value];
      if f.bytes == 3 then [v % 256, v / 256] else [v % 256]
    else f.constants
  }

  /** `Instruction.append_to`. */
  function Emitted(f: Fields, labels: map<string, int>, opcodes: map<string, int>): (e: Emission)
    ensures e.UnknownCanonical? <==> f.canonical !in opcodes
    ensures e.UndefinedLabel? <==> f.canonical in opcodes && f.symbol.Some? && f.symbol.value !in labels
    ensures e.Emit? || e.WrongLength? ==> f.canonical in opcodes && (f.symbol.Some? ==> f.symbol.value in labels)
    ensures e.Emit? ==> f.bytes >= 1 && |e.code| == f.bytes && e.code[0] == opcodes[f.canonical] && e.code[1..] == Resolved(f, labels)
    ensures e.WrongLength? ==> e.needed == f.bytes - 1 && f.bytes != |Resolved(f, labels)| + 1
  {
    if f.canonical !in opcodes then UnknownCanonical
    else if f.symbol.Some? && f.symbol.value !in labels then UndefinedLabel(f.symbol.value)
    else
      var constants := Resolved(f, labels);
      if f.bytes != |constants| + 1 then WrongLength(f.bytes - 1)
      else Emit([opcodes[f.canonical]] + constants)
  }

  /** A three-byte instruction with a defined label: opcode, then the label's value low byte first. */
  lemma LabelIsLittleEndian(f: Fields, labels: map<string, int>, opcodes: map<string, int>)
    requires f.canonical in opcodes && f.symbol.Some? && f.symbol.value in labels && f.bytes == 3
    ensures var v := labels[f.symbol.value];
      Emitted(f, labels, opcodes) == Emit([opcodes[f.canonical], v % 256, v / 256]) &&
      v % 256 + 256 * (v / 256) == v
  {
  }

  /**
   * A jump to a numeric address keeps the operand's size of -1 and its one
   * constant, so once its canonical form has an opcode, `append_to` raises
   * asking for -2 constant bytes: it never assembles.
   */
  lemma NumericJumpNeverAssembles(mnemonic: string, args: seq<string>, parse: OperandParser,
                                  labels: map<string, int>, opcodes: map<string, int>)
    requires JumpFields(mnemonic, args, parse).Success?
    requires Numeric(parse(BaseFields(mnemonic, args).arguments[0]))
    requires JumpFields(mnemonic, args, parse).value.canonical in opcodes
    ensures Emitted(JumpFields(mnemonic, args, parse).value, labels, opcodes) == WrongLength(-2)
  {
  }

  /** `Jump.__init__` as evidently intended: a numeric address is widened to two bytes as `Move` does. */
  function JumpFieldsIntended(mnemonic: string, args: seq<string>, parse: OperandParser): (r: Result<Fields, Raised>)
    ensures r.Success? <==> JumpFields(mnemonic, args, parse).Success?
    ensures r.Failure? ==> r == JumpFields(mnemonic, args, parse)
    ensures r.Success? ==> var op := parse(BaseFields(mnemonic, args).arguments[0]);
      (op.bytes >= 0 ==> r == JumpFields(mnemonic, args, parse)) &&
      (op.bytes < 0 ==> r.value.bytes == 3 && r.value.canonical == JumpFields(mnemonic, args, parse).value.canonical)
  {
    match JumpFields(mnemonic, args, parse)
    case Failure(e) => Failure(e)
    case Success(f) =>
      var op := Widened(parse(f.arguments[0]));
      Success(f.(bytes := op.bytes, constants := op.constants))
  }

  /** With the widening, a jump to a numeric address assembles to the opcode and the address low byte first. */
  lemma NumericJumpAssembles(mnemonic: string, args: seq<string>, parse: OperandParser,
                             labels: map<string, int>, opcodes: map<string, int>)
    requires JumpFieldsIntended(mnemonic, args, parse).Success?
    requires Numeric(parse(BaseFields(mnemonic, args).arguments[0]))
    requires JumpFieldsIntended(mnemonic, args, parse).value.canonical in opcodes
    ensures var v := parse(BaseFields(mnemonic, args).arguments[0]).constants[0];
      var e := Emitted(JumpFieldsIntended(mnemonic, args, parse).value, labels, opcodes);
      e == Emit([opcodes[JumpFieldsIntended(mnemonic, args, parse).value.canonical], v % 256, v / 256]) &&
      e.code[1] + 256 * e.code[2] == v
  {
  }

  /**
   * `mov a,#$12`: an immediate number moved to a one-letter register becomes
   * `mov a,#%02x` with the number's low byte as its one constant.
   */
  lemma ImmediateToByteRegister(mnemonic: string, args: seq<string>, parse: OperandParser,
                                labels: map<string, int>, opcodes: map<string, int>)
    requires MoveFields(mnemonic, args, parse).Success?
    requires var dest := parse(BaseFields(mnemonic, args).arguments[0]);
      dest.bytes == 1 && dest.constants == [] && dest.symbol.None? && dest.canonical in Reserved && |dest.canonical| == 1
    requires var src := parse(BaseFields(mnemonic, args).arguments[1]);
      Numeric(src) && src.canonical == "#%04x"
    requires MoveFields(mnemonic, args, parse).value.canonical in opcodes
    ensures var dest := parse(BaseFields(mnemonic, args).arguments[0]);
      var v := parse(BaseFields(mnemonic, args).arguments[1]).constants[0];
      var f := MoveFields(mnemonic, args, parse).value;
      f.canonical == mnemonic + " " + dest.canonical + "," + "#%02x" &&
      Emitted(f, labels, opcodes) == Emit([opcodes[f.canonical], v % 256])
  {
    var base := BaseFields(mnemonic, args);
    var dest, src := parse(base.arguments[0]), parse(base.arguments[1]);
    assert src.canonical[0] == '#';
    var sized := Sized(dest, src);
    assert sized.bytes == 2 && sized.canonical == "#%02x" && sized.constants == [src.constants[0] % 256];
    var f := MoveFields(mnemonic, args, parse).value;
    assert f.bytes == 2 && f.symbol.None? && Resolved(f, labels) == [src.constants[0] % 256];
  }

  /**
   * Any other numeric source, such as `mov sp,#$1234` or `mov a,*$1234`,
   * takes two bytes, low byte first.
   */
  lemma NumberToWordOperand(mnemonic: string, args: seq<string>, parse: OperandParser,
                            labels: map<string, int>, opcodes: map<string, int>)
    requires MoveFields(mnemonic, args, parse).Success?
    requires var dest := parse(BaseFields(mnemonic, args).arguments[0]);
      dest.bytes == 1 && dest.constants == [] && dest.symbol.None? &&
      !(dest.canonical in Reserved && |dest.canonical| == 1 && parse(BaseFields(mnemonic, args).arguments[1]).canonical == "#%04x")
    requires Numeric(parse(BaseFields(mnemonic, args).arguments[1]))
    requires MoveFields(mnemonic, args, parse).value.canonical in opcodes
    ensures var v := parse(BaseFields(mnemonic, args).arguments[1]).constants[0];
      var f := MoveFields(mnemonic, args, parse).value;
      var e := Emitted(f, labels, opcodes);
      e == Emit([opcodes[f.canonical], v % 256, v / 256]) && e.code[1] + 256 * e.code[2] == v
  {
  }

  /**
   * A move to a numeric destination, such as `mov *$1234,a`, keeps the
   * destination's size of -1, so the entry is one byte long and carries the
   * destination's one constant: `append_to` raises asking for 0 constant
   * bytes, and the move never assembles.
   */
  lemma NumericDestinationNeverAssembles(mnemonic: string, args: seq<string>, parse: OperandParser,
                                         labels: map<string, int>, opcodes: map<string, int>)
    requires MoveFields(mnemonic, args, parse).Success?
    requires Numeric(parse(BaseFields(mnemonic, args).arguments[0]))
    requires var src := parse(BaseFields(mnemonic, args).arguments[1]);
      src.bytes == 1 && src.constants == [] && src.symbol.None?
    requires MoveFields(mnemonic, args, parse).value.canonical in opcodes
    ensures Emitted(MoveFields(mnemonic, args, parse).value, labels, opcodes) == WrongLength(0)
  {
  }

  /** `Move.__init__` as evidently intended: a numeric destination is widened to two bytes as a source is. */
  function MoveFieldsIntended(mnemonic: string, args: seq<string>, parse: OperandParser): (r: Result<Fields, Raised>)
    ensures r.Success? <==> MoveFields(mnemonic, args, parse).Success?
    ensures r.Failure? ==> r == MoveFields(mnemonic, args, parse)
    ensures r.Success? ==> var dest := parse(BaseFields(mnemonic, args).arguments[0]);
      r.value.canonical == MoveFields(mnemonic, args, parse).value.canonical &&
      (dest.bytes >= 0 ==> r == MoveFields(mnemonic, args, parse))
  {
    match MoveFields(mnemonic, args, parse)
    case Failure(e) => Failure(e)
    case Success(f) =>
      var base := BaseFields(mnemonic, args);
      var dest := parse(base.arguments[0]);
      var wide := Widened(dest);
      var src := Sized(dest, parse(base.arguments[1]));
      Success(f.(constants := if src.constants != [] then src.constants else wide.constants,
                 bytes := Max(src.bytes, wide.bytes)))
  }

  /** With the widening, a move of a register to a numeric address emits the opcode and then the address low byte first. */
  lemma NumericDestinationAssembles(mnemonic: string, args: seq<string>, parse: OperandParser,
                                    labels: map<string, int>, opcodes: map<string, int>)
    requires MoveFieldsIntended(mnemonic, args, parse).Success?
    requires Numeric(parse(BaseFields(mnemonic, args).arguments[0]))
    requires var src := parse(BaseFields(mnemonic, args).arguments[1]);
      src.bytes == 1 && src.constants == [] && src.symbol.None?
    requires MoveFieldsIntended(mnemonic, args, parse).value.canonical in opcodes
    ensures var v := parse(BaseFields(mnemonic, args).arguments[0]).constants[0];
      var e := Emitted(MoveFieldsIntended(mnemonic, args, parse).value, labels, opcodes);
      e == Emit([opcodes[MoveFieldsIntended(mnemonic, args, parse).value.canonical], v % 256, v / 256]) &&
      e.code[1] + 256 * e.code[2] == v
  {
  }

  /** Byte values in range append as written without raising, exactly as the intended append stores them. */
  lemma AppendBytesAsWritten(st: State, values: seq<Octet>)
    ensures AppendedAsWritten(st, Ints(values)) == Outcome(Extend(st, values), None)
  {
    AsWrittenAgrees(st, Ints(values));
    AppendBytes(st, values);
  }

  /** An instruction entry of the image. */
  class Instruction {
    var fields: Fields
    var opcode: int
    var errors: seq<Recorded>

    constructor (f: Fields)
      ensures fields == f && opcode == 0 && errors == []
    {
      fields := f;
      opcode := 0;
      errors := [];
    }

    /**
     * `append_to(image)`: an unknown canonical form or an undefined label is
     * recorded; a size that does not match the constants raises; otherwise
     * the opcode and then the constants are appended, as `Image.append` is
     * written, so a negative byte among them raises. A resolved label is
     * replaced by its constants.
     */
    method AppendTo(image: Image, opcodes: map<string, int>) returns (raised: Option<Raised>)
      requires image.Valid()
      modifies this, image
      ensures image.Valid()
      ensures var e := Emitted(old(fields), old(image.labels), opcodes);
        (e.Emit? ==> Outcome(image.Snapshot(), raised) == AppendedAsWritten(old(image.Snapshot()), Ints(e.code)) &&
                     errors == old(errors)) &&
        (e.WrongLength? ==> raised == Some(ConstantBytes(old(fields).canonical, e.needed)) &&
                            image.Snapshot() == old(image.Snapshot()) && errors == old(errors)) &&
        (e.UnknownCanonical? ==> raised.None? && errors == old(errors) + [CanonicalNotDefined(old(fields).canonical)] &&
                                 image.Snapshot() == old(image.Snapshot()) && opcode == old(opcode)) &&
        (e.UndefinedLabel? ==> raised.None? && errors == old(errors) + [LabelNotDefined(e.name)] &&
                               image.Snapshot() == old(image.Snapshot()))
      ensures var e := Emitted(old(fields), old(image.labels), opcodes);
        !e.UnknownCanonical? ==> opcode == opcodes[old(fields).canonical]
      ensures fields == if old(fields).canonical in opcodes && old(fields).symbol.Some? && old(fields).symbol.value in old(image.labels)
        then old(fields).(symbol := None, constants := Resolved(old(fields), old(image.labels)))
        else old(fields)
      ensures image.labels == old(image.labels)
    {
      raised := None;
      var f := fields;
      if f.canonical in opcodes {
        opcode := opcodes[f.canonical];
        if f.symbol.Some? {
          if f.symbol.value in image.labels {
            var v := image.labels[f.symbol.value];
            fields := fields.(symbol := None, constants := if f.bytes == 3 then [v % 256, v / 256] else [v % 256]);
          } else {
            errors := errors + [LabelNotDefined(f.symbol.value)];
          }
        }
        if fields.symbol.None? {
          var constLen := |fields.constants|;
          if fields.bytes != constLen + 1 {
            return Some(ConstantBytes(fields.canonical, fields.bytes - 1));
          }
          AppendedAsWrittenConcat(old(image.Snapshot()), [Int(opcode)], Ints(fields.constants));
          assert [Int(opcode)] + Ints(fields.constants) == Ints([opcode] + fields.constants);
          raised := image.Append([Int(opcode)]);
          if raised.Some? {
            return;
          }
          raised := image.Append(Ints(fields.constants));
        }
      } else {
        errors := errors + [CanonicalNotDefined(f.canonical)];
      }
    }
  }
}
