/** Numbers, separated lists and lines as text. */
module Text {
  /** The mark of a capture that was cut short. */
  const ELLIPSIS: char := '\U{2026}'

  // ----- numbers -----

  predicate IsHexDigit(c: char) {
    '0' <= c <= '9' || 'a' <= c <= 'f'
  }

  predicate AllHexDigits(s: string) {
    forall i :: 0 <= i < |s| ==> IsHexDigit(s[i])
  }

  function DigitChar(d: nat): (c: char)
    requires d < 16
    ensures IsHexDigit(c) && DigitValue(c) == d
  {
    if d < 10 then '0' + d as char else 'a' + (d - 10) as char
  }

  function DigitValue(c: char): nat
    requires IsHexDigit(c)
  {
    if c <= '9' then (c - '0') as nat else (c - 'a') as nat + 10
  }

  /** Lowercase hexadecimal without prefix or padding. */
  function Hex(n: nat): string {
    if n < 16 then [DigitChar(n)] else Hex(n / 16) + [DigitChar(n % 16)]
  }

  function Decimal(n: nat): string {
    if n < 10 then [DigitChar(n)] else Decimal(n / 10) + [DigitChar(n % 10)]
  }

  function HexValue(s: string): nat
    requires AllHexDigits(s)
  {
    if s == "" then 0 else HexValue(s[..|s| - 1]) * 16 + DigitValue(s[|s| - 1])
  }

  function DecimalValue(s: string): nat
    requires AllHexDigits(s)
  {
    if s == "" then 0 else DecimalValue(s[..|s| - 1]) * 10 + DigitValue(s[|s| - 1])
  }

  lemma {:induction false} HexRoundTrip(n: nat)
    ensures Hex(n) != "" && AllHexDigits(Hex(n)) && HexValue(Hex(n)) == n
  {
    if n < 16 {
      assert Hex(n)[..0] == "";
    } else {
      HexRoundTrip(n / 16);
      assert Hex(n)[..|Hex(n)| - 1] == Hex(n / 16);
    }
  }

  lemma {:induction false} DecimalRoundTrip(n: nat)
    ensures Decimal(n) != "" && AllHexDigits(Decimal(n)) && DecimalValue(Decimal(n)) == n
  {
    if n < 10 {
      assert Decimal(n)[..0] == "";
    } else {
      DecimalRoundTrip(n / 10);
      assert Decimal(n)[..|Decimal(n)| - 1] == Decimal(n / 10);
    }
  }

  lemma HexInjective(a: nat, b: nat)
    requires Hex(a) == Hex(b)
    ensures a == b
  {
    HexRoundTrip(a);
    HexRoundTrip(b);
  }

  // ----- separated lists -----

  function Join(tokens: seq<string>, sep: string): string {
    if tokens == [] then ""
    else if |tokens| == 1 then tokens[0]
    else tokens[0] + sep + Join(tokens[1..], sep)
  }

  function Split(line: string, sep: char): (tokens: seq<string>)
    ensures tokens != []
  {
    if line == "" then [""]
    else
      var rest := Split(line[1..], sep);
      if line[0] == sep then [""] + rest else [[line[0]] + rest[0]] + rest[1..]
  }

  lemma {:induction false} SplitToken(token: string, rest: string, sep: char)
    requires sep !in token
    ensures Split(token + [sep] + rest, sep) == [token] + Split(rest, sep)
  {
    var line := token + [sep] + rest;
    if token == "" {
      assert line[1..] == rest;
    } else {
      assert line[1..] == token[1..] + [sep] + rest;
      SplitToken(token[1..], rest, sep);
      assert [token[0]] + token[1..] == token;
    }
  }

  lemma {:induction false} SplitSingle(token: string, sep: char)
    requires sep !in token
    ensures Split(token, sep) == [token]
  {
    if token != "" {
      SplitSingle(token[1..], sep);
      assert [token[0]] + token[1..] == token;
    }
  }

  /** Splitting recovers the tokens, when no token holds the separator. */
  lemma {:induction false} SplitJoin(tokens: seq<string>, sep: char)
    requires tokens != []
    requires forall i :: 0 <= i < |tokens| ==> sep !in tokens[i]
    ensures Split(Join(tokens, [sep]), sep) == tokens
  {
    if |tokens| == 1 {
      SplitSingle(tokens[0], sep);
    } else {
      var rest := tokens[1..];
      SplitJoin(rest, sep);
      SplitToken(tokens[0], Join(rest, [sep]), sep);
      assert tokens == [tokens[0]] + rest;
    }
  }

  lemma DigitsOnly(s: string, c: char)
    requires AllHexDigits(s) && !IsHexDigit(c)
    ensures c !in s
  {
  }
}
