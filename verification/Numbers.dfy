/** Fixed-width unsigned numbers in either byte order. */
module Numbers {
  import opened Events

  datatype ByteOrder = LittleEndian | BigEndian

  function Limit(size: nat): nat {
    if size == 0 then 1 else 256 * Limit(size - 1)
  }

  lemma Limits()
    ensures Limit(4) == 0x1_0000_0000 && Limit(8) == 0x1_0000_0000_0000_0000
  {
    assert Limit(4) == 256 * (256 * (256 * (256 * Limit(0))));
    assert Limit(8) == 256 * (256 * (256 * (256 * Limit(4))));
  }

  /** How the producer stores a number. */
  function Encoded(order: ByteOrder, n: nat, size: nat): (bytes: seq<Byte>)
    ensures |bytes| == size
  {
    if size == 0 then []
    else if order.LittleEndian? then [n % 256] + Encoded(order, n / 256, size - 1)
    else Encoded(order, n / 256, size - 1) + [n % 256]
  }

  /** `from_ne_bytes`. */
  function Value(order: ByteOrder, bytes: seq<Byte>): nat {
    if bytes == [] then 0
    else if order.LittleEndian? then bytes[0] + 256 * Value(order, bytes[1..])
    else Value(order, bytes[..|bytes| - 1]) * 256 + bytes[|bytes| - 1]
  }

  lemma {:induction false} ValueOfEncoded(order: ByteOrder, n: nat, size: nat)
    requires n < Limit(size)
    ensures Value(order, Encoded(order, n, size)) == n
  {
    if size > 0 {
      ValueOfEncoded(order, n / 256, size - 1);
      var bytes := Encoded(order, n, size);
      if order.LittleEndian? {
        assert bytes[1..] == Encoded(order, n / 256, size - 1);
      } else {
        assert bytes[..size - 1] == Encoded(order, n / 256, size - 1);
      }
    }
  }

  lemma LowByte(low: Byte, high: nat)
    ensures (low + 256 * high) % 256 == low && (low + 256 * high) / 256 == high
  {
  }

  lemma {:induction false} EncodedOfValue(order: ByteOrder, bytes: seq<Byte>)
    ensures Value(order, bytes) < Limit(|bytes|)
    ensures Encoded(order, Value(order, bytes), |bytes|) == bytes
  {
    if bytes != [] {
      var n := |bytes| - 1;
      var low := if order.LittleEndian? then bytes[0] else bytes[n];
      var rest := if order.LittleEndian? then bytes[1..] else bytes[..n];
      EncodedOfValue(order, rest);
      LowByte(low, Value(order, rest));
      assert Value(order, bytes) == low + 256 * Value(order, rest);
      assert bytes == if order.LittleEndian? then [low] + rest else rest + [low];
    }
  }

  /** The bytes encode the number exactly when they are read as it. */
  lemma ReadIffEncoded(order: ByteOrder, bytes: seq<Byte>, n: nat)
    ensures Value(order, bytes) == n <==> n < Limit(|bytes|) && bytes == Encoded(order, n, |bytes|)
  {
    EncodedOfValue(order, bytes);
    if n < Limit(|bytes|) { ValueOfEncoded(order, n, |bytes|); }
  }
}
