/** The terminal-safe display of captured bytes (src/event/string.rs): the
    printed text determines the bytes and the omission flag. */
module Display {
  import opened Events
  import opened Sequences
  import opened Text
  import opened Captured

  // ----- UTF-8 -----

  function Utf8(c: char): seq<Byte> {
    var n := c as nat;
    if n < 0x80 then [n]
    else if n < 0x800 then [0xC0 + n / 64, 0x80 + n % 64]
    else if n < 0x10000 then [0xE0 + n / 4096, 0x80 + n / 64 % 64, 0x80 + n % 64]
    else [0xF0 + n / 262144, 0x80 + n / 4096 % 64, 0x80 + n / 64 % 64, 0x80 + n % 64]
  }

  predicate Continues(b: Byte) {
    0x80 <= b < 0xC0
  }

  /** The code point of a two-, three- or four-byte sequence, before range checks. */
  function Point2(a: nat, b: nat): int {
    (a - 0xC0) * 64 + (b - 0x80)
  }

  function Point3(a: nat, b: nat, c: nat): int {
    (a - 0xE0) * 4096 + (b - 0x80) * 64 + (c - 0x80)
  }

  function Point4(a: nat, b: nat, c: nat, d: nat): int {
    (a - 0xF0) * 262144 + (b - 0x80) * 4096 + (c - 0x80) * 64 + (d - 0x80)
  }

  /** The character that starts the bytes, if they start with a well-formed one. */
  function Leading(bytes: seq<Byte>): Option<char>
    requires bytes != []
  {
    var a := bytes[0];
    if a < 0x80 then Some(a as char)
    else if 0xC0 <= a < 0xE0 && |bytes| >= 2 && Continues(bytes[1]) then
      var n := Point2(a, bytes[1]);
      if n >= 0x80 then Some(n as char) else None
    else if 0xE0 <= a < 0xF0 && |bytes| >= 3 && Continues(bytes[1]) && Continues(bytes[2]) then
      var n := Point3(a, bytes[1], bytes[2]);
      if n >= 0x800 && !(0xD800 <= n < 0xE000) then Some(n as char) else None
    else if 0xF0 <= a < 0xF8 && |bytes| >= 4 && Continues(bytes[1]) && Continues(bytes[2]) && Continues(bytes[3]) then
      var n := Point4(a, bytes[1], bytes[2], bytes[3]);
      if 0x10000 <= n < 0x110000 then Some(n as char) else None
    else None
  }

  lemma Point2Digits(a: nat, b: nat)
    requires 0xC0 <= a < 0xE0 && 0x80 <= b < 0xC0
    ensures var n := Point2(a, b); 0 <= n < 0x800 && 0xC0 + n / 64 == a && 0x80 + n % 64 == b
  {
  }

  lemma Point3Digits(a: nat, b: nat, c: nat)
    requires 0xE0 <= a < 0xF0 && 0x80 <= b < 0xC0 && 0x80 <= c < 0xC0
    ensures var n := Point3(a, b, c);
            0 <= n < 0x10000 && 0xE0 + n / 4096 == a && 0x80 + n / 64 % 64 == b && 0x80 + n % 64 == c
  {
    var n := Point3(a, b, c);
    assert n / 64 == (a - 0xE0) * 64 + (b - 0x80);
  }

  lemma Point4Digits(a: nat, b: nat, c: nat, d: nat)
    requires 0xF0 <= a < 0xF8 && 0x80 <= b < 0xC0 && 0x80 <= c < 0xC0 && 0x80 <= d < 0xC0
    ensures var n := Point4(a, b, c, d);
            && 0 <= n && 0xF0 + n / 262144 == a && 0x80 + n / 4096 % 64 == b
            && 0x80 + n / 64 % 64 == c && 0x80 + n % 64 == d
  {
    var n := Point4(a, b, c, d);
    assert n / 64 == (a - 0xF0) * 4096 + (b - 0x80) * 64 + (c - 0x80);
    assert n / 4096 == (a - 0xF0) * 64 + (b - 0x80);
  }

  lemma LeadingEncodes(bytes: seq<Byte>)
    requires bytes != [] && Leading(bytes).Some?
    ensures 0 < |Utf8(Leading(bytes).value)| <= |bytes|
    ensures bytes[..|Utf8(Leading(bytes).value)|] == Utf8(Leading(bytes).value)
  {
    var a, text := bytes[0], Utf8(Leading(bytes).value);
    if a < 0x80 {
      assert bytes[..1] == text;
    } else if a < 0xE0 {
      Point2Digits(a, bytes[1]);
      assert bytes[..2] == text;
    } else if a < 0xF0 {
      Point3Digits(a, bytes[1], bytes[2]);
      assert bytes[..3] == text;
    } else {
      Point4Digits(a, bytes[1], bytes[2], bytes[3]);
      assert bytes[..4] == text;
    }
  }

  /** `utf8_chunks`, flattened: characters, and the bytes that belong to none. */
  datatype Unit = Character(c: char) | Invalid(b: Byte)

  function Encoding(u: Unit): seq<Byte> {
    match u
    case Character(c) => Utf8(c)
    case Invalid(b) => [b]
  }

  function Units(bytes: seq<Byte>): seq<Unit> {
    if bytes == [] then []
    else
      var c := Leading(bytes);
      if c.None? then [Invalid(bytes[0])] + Units(bytes[1..])
      else
        LeadingEncodes(bytes);
        [Character(c.value)] + Units(bytes[|Utf8(c.value)|..])
  }

  function Encodings(units: seq<Unit>): seq<Byte> {
    if units == [] then [] else Encoding(units[0]) + Encodings(units[1..])
  }

  lemma {:induction false} UnitsEncode(bytes: seq<Byte>)
    ensures Encodings(Units(bytes)) == bytes
    decreases |bytes|
  {
    if bytes != [] {
      var c := Leading(bytes);
      if c.None? {
        UnitsEncode(bytes[1..]);
        assert Units(bytes)[1..] == Units(bytes[1..]);
      } else {
        LeadingEncodes(bytes);
        var n := |Utf8(c.value)|;
        UnitsEncode(bytes[n..]);
        assert Units(bytes)[1..] == Units(bytes[n..]);
        assert bytes == bytes[..n] + bytes[n..];
      }
    }
  }

  // ----- printing -----

  /** Which characters must not reach a terminal: the general categories
      Control, Format, and the three kinds of separator. */
  type Category = char -> bool

  function UnitText(u: Unit, isUnsafe: Category): string {
    match u
    case Character(c) =>
      if c == '\\' then ['\\', '\\']
      else if c != ' ' && isUnsafe(c) then ['\\', 'u', '{'] + Hex(c as nat) + ['}']
      else [c]
    case Invalid(b) => ['\\', 'x', DigitChar(b / 16), DigitChar(b % 16)]
  }

  function UnitsText(units: seq<Unit>, isUnsafe: Category): string {
    if units == [] then "" else UnitText(units[0], isUnsafe) + UnitsText(units[1..], isUnsafe)
  }

  function Prefix(o: Origin): string {
    if o.AbstractUnixSocketName? then "@" else ""
  }

  function DisplayText(o: Origin, v: CapturedBytes, isUnsafe: Category): string {
    Prefix(o) + UnitsText(Units(v.bytes), isUnsafe) + Mark(v)
  }

  lemma {:induction false} UnitsTextExtends(units: seq<Unit>, u: Unit, isUnsafe: Category)
    ensures UnitsText(units + [u], isUnsafe) == UnitsText(units, isUnsafe) + UnitText(u, isUnsafe)
  {
    if units == [] {
      assert (units + [u])[1..] == [];
    } else {
      assert (units + [u])[1..] == units[1..] + [u];
      UnitsTextExtends(units[1..], u, isUnsafe);
    }
  }

  /** One character of `write_valid`, or one byte outside any character. */
  method WriteUnit(u: Unit, isUnsafe: Category) returns (text: string)
    ensures text == UnitText(u, isUnsafe)
    ensures forall rest :: Parsed(text + rest) == Encoding(u) + Parsed(rest)
    ensures EscapesSafe(isUnsafe) ==> Safe(text, isUnsafe)
  {
    forall rest ensures Parsed(UnitText(u, isUnsafe) + rest) == Encoding(u) + Parsed(rest) {
      UnitParses(u, isUnsafe, rest);
    }
    if EscapesSafe(isUnsafe) { UnitSafe(u, isUnsafe); }
    match u {
      case Character(c) =>
        if c == '\\' {
          text := ['\\', '\\'];
        } else if c != ' ' && isUnsafe(c) {
          text := ['\\', 'u', '{'] + Hex(c as nat) + ['}'];
        } else {
          text := [c];
        }
      case Invalid(b) =>
        text := ['\\', 'x', DigitChar(b / 16), DigitChar(b % 16)];
    }
  }

  /** `Display`: the prefix, then `write_escaped` with its omission mark. */
  method Format(o: Origin, v: CapturedBytes, isUnsafe: Category) returns (text: string)
    requires ValidFor(o, v)
    ensures text == DisplayText(o, v, isUnsafe)
    ensures ReadBack(o, text) == v
  {
    var body := WriteEscaped(v, isUnsafe);
    text := Prefix(o) + body;
    assert text == DisplayText(o, v, isUnsafe);
    DisplayRoundTrip(o, v, isUnsafe);
  }

  method WriteEscaped(v: CapturedBytes, isUnsafe: Category) returns (text: string)
    ensures text == UnitsText(Units(v.bytes), isUnsafe) + Mark(v)
  {
    text := "";
    var units := Units(v.bytes);
    for n := 0 to |units|
      invariant text == UnitsText(units[..n], isUnsafe)
    {
      UnitsTextExtends(units[..n], units[n], isUnsafe);
      assert units[..n + 1] == units[..n] + [units[n]];
      var written := WriteUnit(units[n], isUnsafe);
      text := text + written;
    }
    assert units[..|units|] == units;
    if v.bytesOmitted {
      text := text + [ELLIPSIS];
    }
  }

  // ----- safety -----

  /** Nothing but spaces and characters that may reach a terminal. */
  predicate Safe(text: string, isUnsafe: Category) {
    forall i :: 0 <= i < |text| ==> text[i] == ' ' || !isUnsafe(text[i])
  }

  predicate IsEscape(c: char) {
    IsHexDigit(c) || c == '\\' || c == 'x' || c == 'u' || c == '{' || c == '}' || c == '@' || c == ELLIPSIS
  }

  /** The characters that escapes, the abstract prefix and the omission mark are made of are safe. */
  ghost predicate EscapesSafe(isUnsafe: Category) {
    forall c :: IsEscape(c) ==> !isUnsafe(c)
  }

  lemma UnitSafe(u: Unit, isUnsafe: Category)
    requires EscapesSafe(isUnsafe)
    ensures Safe(UnitText(u, isUnsafe), isUnsafe)
  {
    var text := UnitText(u, isUnsafe);
    if u.Character? && u.c != '\\' && u.c != ' ' && isUnsafe(u.c) {
      HexRoundTrip(u.c as nat);
      forall i | 0 <= i < |text| ensures IsEscape(text[i]) { }
    } else if u.Invalid? || u.c == '\\' {
      forall i | 0 <= i < |text| ensures IsEscape(text[i]) { }
    }
  }

  lemma {:induction false} UnitsSafe(units: seq<Unit>, isUnsafe: Category)
    requires EscapesSafe(isUnsafe)
    ensures Safe(UnitsText(units, isUnsafe), isUnsafe)
  {
    if units != [] {
      UnitSafe(units[0], isUnsafe);
      UnitsSafe(units[1..], isUnsafe);
    }
  }

  /** Nothing unsafe is ever displayed, whatever the bytes and the origin. */
  lemma DisplaySafe(o: Origin, v: CapturedBytes, isUnsafe: Category)
    requires EscapesSafe(isUnsafe)
    ensures Safe(DisplayText(o, v, isUnsafe), isUnsafe)
  {
    UnitsSafe(Units(v.bytes), isUnsafe);
    assert IsEscape('@') && IsEscape(ELLIPSIS);
  }

  // ----- what is shown as it is -----

  function Utf8Text(text: string): seq<Byte> {
    if text == "" then [] else Utf8(text[0]) + Utf8Text(text[1..])
  }

  function Characters(text: string): (units: seq<Unit>)
    ensures |units| == |text|
    ensures forall i :: 0 <= i < |text| ==> units[i] == Character(text[i])
  {
    seq(|text|, i requires 0 <= i < |text| => Character(text[i]))
  }

  lemma LeadingDecodes(c: char, rest: seq<Byte>)
    ensures Leading(Utf8(c) + rest) == Some(c)
  {
    var n := c as nat;
    if 0x80 <= n < 0x800 { Digits2(n); }
    else if 0x800 <= n < 0x10000 { Digits3(n); }
    else if 0x10000 <= n { Digits4(n); }
  }

  lemma Digits2(n: nat)
    requires 0x80 <= n < 0x800
    ensures Point2(0xC0 + n / 64, 0x80 + n % 64) == n && 0xC0 <= 0xC0 + n / 64 < 0xE0
  {
  }

  lemma Digits3(n: nat)
    requires 0x800 <= n < 0x10000
    ensures Point3(0xE0 + n / 4096, 0x80 + n / 64 % 64, 0x80 + n % 64) == n && 0xE0 <= 0xE0 + n / 4096 < 0xF0
  {
    assert n / 64 / 64 == n / 4096;
  }

  lemma Digits4(n: nat)
    requires 0x10000 <= n < 0x110000
    ensures Point4(0xF0 + n / 262144, 0x80 + n / 4096 % 64, 0x80 + n / 64 % 64, 0x80 + n % 64) == n
    ensures 0xF0 <= 0xF0 + n / 262144 < 0xF8
  {
    assert n / 64 / 64 == n / 4096 && n / 4096 / 64 == n / 262144;
  }

  /** Encoded text splits into its characters. */
  lemma {:induction false} UnitsOfText(text: string)
    ensures Units(Utf8Text(text)) == Characters(text)
  {
    if text != "" {
      var rest := Utf8Text(text[1..]);
      LeadingDecodes(text[0], rest);
      UnitsOfText(text[1..]);
      assert (Utf8(text[0]) + rest)[|Utf8(text[0])|..] == rest;
      assert Characters(text) == [Character(text[0])] + Characters(text[1..]);
    }
  }

  lemma {:induction false} SafeUnits(text: string, isUnsafe: Category)
    requires forall i :: 0 <= i < |text| ==> text[i] != '\\' && (text[i] == ' ' || !isUnsafe(text[i]))
    ensures UnitsText(Characters(text), isUnsafe) == text
  {
    if text != "" {
      SafeUnits(text[1..], isUnsafe);
      assert Characters(text)[1..] == Characters(text[1..]);
      assert text == [text[0]] + text[1..];
    }
  }

  /** Text without backslashes and unsafe characters is shown as it is. */
  lemma SafeUnchanged(o: Origin, text: string, omitted: bool, isUnsafe: Category)
    requires forall i :: 0 <= i < |text| ==> text[i] != '\\' && (text[i] == ' ' || !isUnsafe(text[i]))
    ensures DisplayText(o, CapturedBytes(Utf8Text(text), omitted), isUnsafe) ==
            Prefix(o) + text + if omitted then [ELLIPSIS] else ""
  {
    UnitsOfText(text);
    SafeUnits(text, isUnsafe);
  }

  // ----- reading back -----

  function HexPrefix(text: string): (digits: string)
    ensures AllHexDigits(digits) && |digits| <= |text|
  {
    if text == "" || !IsHexDigit(text[0]) then "" else [text[0]] + HexPrefix(text[1..])
  }

  predicate IsScalar(n: nat) {
    n < 0xD800 || 0xE000 <= n < 0x110000
  }

  function Parsed(text: string): seq<Byte>
    decreases |text|
  {
    if text == "" then []
    else if text[0] != '\\' then Utf8(text[0]) + Parsed(text[1..])
    else if |text| >= 2 && text[1] == '\\' then Utf8('\\') + Parsed(text[2..])
    else if |text| >= 4 && text[1] == 'x' && IsHexDigit(text[2]) && IsHexDigit(text[3]) then
      [16 * DigitValue(text[2]) + DigitValue(text[3])] + Parsed(text[4..])
    else if |text| >= 3 && text[1] == 'u' then
      var digits := HexPrefix(text[3..]);
      if IsScalar(HexValue(digits)) && |text| >= 4 + |digits|
      then Utf8(HexValue(digits) as char) + Parsed(text[4 + |digits|..])
      else []
    else []
  }

  /** A capture longer than the origin allows can only end in the omission mark. */
  function ReadBack(o: Origin, text: string): CapturedBytes {
    var bytes := Parsed(if |text| >= |Prefix(o)| then text[|Prefix(o)|..] else "");
    if |bytes| > MaximumLen(o) then CapturedBytes(bytes[..MaximumLen(o)], true) else CapturedBytes(bytes, false)
  }

  lemma {:induction false} HexPrefixOf(digits: string, rest: string)
    requires AllHexDigits(digits) && (rest == "" || !IsHexDigit(rest[0]))
    ensures HexPrefix(digits + rest) == digits
  {
    if digits == "" {
      assert digits + rest == rest;
    } else {
      assert (digits + rest)[1..] == digits[1..] + rest;
      HexPrefixOf(digits[1..], rest);
    }
  }

  lemma EscapedCharacterParses(c: char, rest: string)
    ensures Parsed(['\\', 'u', '{'] + Hex(c as nat) + ['}'] + rest) == Utf8(c) + Parsed(rest)
  {
    var digits := Hex(c as nat);
    var text := ['\\', 'u', '{'] + digits + ['}'] + rest;
    HexRoundTrip(c as nat);
    assert text[3..] == digits + (['}'] + rest);
    HexPrefixOf(digits, ['}'] + rest);
    assert text[4 + |digits|..] == rest;
  }

  lemma UnitParses(u: Unit, isUnsafe: Category, rest: string)
    ensures Parsed(UnitText(u, isUnsafe) + rest) == Encoding(u) + Parsed(rest)
  {
    var text := UnitText(u, isUnsafe) + rest;
    match u
    case Character(c) =>
      if c == '\\' {
        assert text[2..] == rest;
      } else if c != ' ' && isUnsafe(c) {
        assert text == ['\\', 'u', '{'] + Hex(c as nat) + ['}'] + rest;
        EscapedCharacterParses(c, rest);
      } else {
        assert text[1..] == rest;
      }
    case Invalid(b) =>
      assert text[4..] == rest;
  }

  lemma {:induction false} UnitsParse(units: seq<Unit>, isUnsafe: Category, rest: string)
    ensures Parsed(UnitsText(units, isUnsafe) + rest) == Encodings(units) + Parsed(rest)
  {
    if units == [] {
      assert "" + rest == rest;
    } else {
      var tail := UnitsText(units[1..], isUnsafe);
      UnitsParse(units[1..], isUnsafe, rest);
      UnitParses(units[0], isUnsafe, tail + rest);
      Regrouped(UnitText(units[0], isUnsafe), tail, rest);
      Regrouped(Encoding(units[0]), Encodings(units[1..]), Parsed(rest));
    }
  }

  function Mark(v: CapturedBytes): string {
    if v.bytesOmitted then [ELLIPSIS] else ""
  }

  lemma MarkParses(v: CapturedBytes)
    ensures |Parsed(Mark(v))| == if v.bytesOmitted then 3 else 0
  {
    if v.bytesOmitted { assert Mark(v)[1..] == ""; }
  }

  /** Parsing the printed text gives the bytes, then those of an omission mark. */
  lemma DisplayParses(o: Origin, v: CapturedBytes, isUnsafe: Category)
    ensures |DisplayText(o, v, isUnsafe)| >= |Prefix(o)|
    ensures Parsed(DisplayText(o, v, isUnsafe)[|Prefix(o)|..]) == v.bytes + Parsed(Mark(v))
  {
    var body := UnitsText(Units(v.bytes), isUnsafe);
    UnitsEncode(v.bytes);
    UnitsParse(Units(v.bytes), isUnsafe, Mark(v));
    WithoutPrefix(Prefix(o), body, Mark(v));
  }

  lemma WithoutPrefix(prefix: string, body: string, mark: string)
    ensures (prefix + body + mark)[|prefix|..] == body + mark
  {
  }

  /** The display of a valid value reads back as that value, although an
      ellipsis within the data is printed as it is. */
  lemma DisplayRoundTrip(o: Origin, v: CapturedBytes, isUnsafe: Category)
    requires ValidFor(o, v)
    ensures ReadBack(o, DisplayText(o, v, isUnsafe)) == v
  {
    DisplayParses(o, v, isUnsafe);
    MarkParses(v);
    var bytes := v.bytes + Parsed(Mark(v));
    if v.bytesOmitted {
      assert bytes[..MaximumLen(o)] == v.bytes;
    } else {
      assert bytes == v.bytes;
    }
  }

  /** Two valid values of one origin never print alike, whatever the character categories. */
  lemma DisplayInjective(o: Origin, v: CapturedBytes, w: CapturedBytes, isUnsafe: Category)
    requires ValidFor(o, v) && ValidFor(o, w)
    requires DisplayText(o, v, isUnsafe) == DisplayText(o, w, isUnsafe)
    ensures v == w
  {
    DisplayRoundTrip(o, v, isUnsafe);
    DisplayRoundTrip(o, w, isUnsafe);
  }
}
