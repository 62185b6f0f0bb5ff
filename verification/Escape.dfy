/** The batch protocol's byte escaping (lltop/src/batch.rs). */
module Escape {
  import opened Events
  import opened Text

  predicate IsPlainByte(b: Byte) {
    48 <= b <= 57 || 65 <= b <= 90 || 97 <= b <= 122 || b == 95 || b == 45 || b == 46 || b == 47
  }

  function EscapedByte(b: Byte): string {
    if IsPlainByte(b) then [b as char] else ['\\', 'x', DigitChar(b / 16), DigitChar(b % 16)]
  }

  function EscapedBytes(bytes: seq<Byte>): string {
    if bytes == [] then "" else EscapedByte(bytes[0]) + EscapedBytes(bytes[1..])
  }

  function Escaped(value: CapturedBytes): string {
    EscapedBytes(value.bytes) + if value.bytesOmitted then [ELLIPSIS] else ""
  }

  lemma {:induction false} EscapedBytesExtends(bytes: seq<Byte>, b: Byte)
    ensures EscapedBytes(bytes + [b]) == EscapedBytes(bytes) + EscapedByte(b)
  {
    if bytes == [] {
      assert (bytes + [b])[1..] == [];
    } else {
      assert (bytes + [b])[1..] == bytes[1..] + [b];
      EscapedBytesExtends(bytes[1..], b);
    }
  }

  /** `escape`: bytes in order, then the omission mark. */
  method Escape(value: CapturedBytes) returns (escaped: string)
    ensures escaped == Escaped(value)
    ensures Unescaped(escaped) == value
    ensures forall i :: 0 <= i < |escaped| ==> IsProtocolChar(escaped[i])
  {
    escaped := "";
    for n := 0 to |value.bytes|
      invariant escaped == EscapedBytes(value.bytes[..n])
    {
      var byte := value.bytes[n];
      EscapedBytesExtends(value.bytes[..n], byte);
      assert value.bytes[..n + 1] == value.bytes[..n] + [byte];
      if IsPlainByte(byte) {
        escaped := escaped + [byte as char];
      } else {
        escaped := escaped + ['\\', 'x', DigitChar(byte / 16), DigitChar(byte % 16)];
      }
    }
    assert value.bytes[..|value.bytes|] == value.bytes;
    if value.bytesOmitted {
      escaped := escaped + [ELLIPSIS];
    }
    EscapeRoundTrip(value);
    EscapedChars(value);
  }

  // ----- the left inverse -----

  function UnescapedBytes(text: string): seq<Byte> {
    if text == "" then []
    else if |text| >= 4 && text[0] == '\\' && IsHexDigit(text[2]) && IsHexDigit(text[3])
    then [16 * DigitValue(text[2]) + DigitValue(text[3])] + UnescapedBytes(text[4..])
    else if text[0] as int < 256 then [text[0] as int] + UnescapedBytes(text[1..])
    else UnescapedBytes(text[1..])
  }

  function Unescaped(text: string): CapturedBytes {
    if text != "" && text[|text| - 1] == ELLIPSIS
    then CapturedBytes(UnescapedBytes(text[..|text| - 1]), true)
    else CapturedBytes(UnescapedBytes(text), false)
  }

  lemma {:induction false} EscapedBytesRoundTrip(bytes: seq<Byte>)
    ensures UnescapedBytes(EscapedBytes(bytes)) == bytes
  {
    if bytes != [] {
      EscapedBytesRoundTrip(bytes[1..]);
      var b, rest := bytes[0], EscapedBytes(bytes[1..]);
      if IsPlainByte(b) {
        assert EscapedBytes(bytes)[1..] == rest;
      } else {
        assert EscapedBytes(bytes)[4..] == rest;
      }
      assert bytes == [b] + bytes[1..];
    }
  }

  /** Characters a captured value can put on a line: letters, digits, `_-./`,
      the escape's backslash and the omission mark. No separator is among them. */
  predicate IsProtocolChar(c: char) {
    IsEscapeChar(c) || c == ELLIPSIS
  }

  predicate IsEscapeChar(c: char) {
    '0' <= c <= '9' || 'A' <= c <= 'Z' || 'a' <= c <= 'z' || c in "_-./\\"
  }

  lemma {:induction false} EscapedBytesChars(bytes: seq<Byte>)
    ensures forall i :: 0 <= i < |EscapedBytes(bytes)| ==> IsEscapeChar(EscapedBytes(bytes)[i])
  {
    if bytes != [] {
      EscapedBytesChars(bytes[1..]);
      var b := bytes[0];
      assert forall i :: 0 <= i < |EscapedByte(b)| ==> IsEscapeChar(EscapedByte(b)[i]);
    }
  }

  lemma EscapedChars(value: CapturedBytes)
    ensures forall i :: 0 <= i < |Escaped(value)| ==> IsProtocolChar(Escaped(value)[i])
  {
    EscapedBytesChars(value.bytes);
  }

  /** The text determines the bytes and the omission flag. */
  lemma EscapeRoundTrip(value: CapturedBytes)
    ensures Unescaped(Escaped(value)) == value
  {
    var text := EscapedBytes(value.bytes);
    EscapedBytesRoundTrip(value.bytes);
    EscapedBytesChars(value.bytes);
    if value.bytesOmitted {
      assert (text + [ELLIPSIS])[..|text|] == text;
    } else {
      assert text + "" == text;
      assert text != "" ==> IsEscapeChar(text[|text| - 1]);
    }
  }

  lemma EscapedExcludes(value: CapturedBytes, c: char)
    requires !IsProtocolChar(c)
    ensures c !in Escaped(value)
  {
    EscapedChars(value);
  }

  function AsBytes(text: string): seq<Byte>
    requires forall i :: 0 <= i < |text| ==> text[i] < '\U{80}'
  {
    seq(|text|, i requires 0 <= i < |text| => text[i] as int)
  }

  /** Letters, digits and the four plain marks stand for themselves. */
  lemma PlainUnchanged(text: string, omitted: bool)
    requires forall i :: 0 <= i < |text| ==>
               '0' <= text[i] <= '9' || 'A' <= text[i] <= 'Z' || 'a' <= text[i] <= 'z' || text[i] in "_-./"
    ensures Escaped(CapturedBytes(AsBytes(text), omitted)) == text + if omitted then [ELLIPSIS] else ""
  {
    PlainBytes(text);
  }

  lemma {:induction false} PlainBytes(text: string)
    requires forall i :: 0 <= i < |text| ==>
               '0' <= text[i] <= '9' || 'A' <= text[i] <= 'Z' || 'a' <= text[i] <= 'z' || text[i] in "_-./"
    ensures EscapedBytes(AsBytes(text)) == text
  {
    if text != "" {
      PlainBytes(text[1..]);
      assert AsBytes(text)[1..] == AsBytes(text[1..]);
      assert EscapedByte(AsBytes(text)[0]) == [text[0]];
      assert text == [text[0]] + text[1..];
    }
  }
}
