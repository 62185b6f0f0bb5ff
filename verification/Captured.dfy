/** Bytes captured from the kernel, and the rules of their three origins (src/event/string.rs). */
module Captured {
  import opened Events

  datatype Origin = Pathname | Command | AbstractUnixSocketName

  predicate AllowsNul(o: Origin) {
    o.AbstractUnixSocketName?
  }

  function MaximumLen(o: Origin): nat {
    match o
    case Pathname => 256
    case Command => 15
    case AbstractUnixSocketName => 107
  }

  predicate SupportsOmission(o: Origin) {
    o.Pathname?
  }

  datatype CaptureError =
    | InteriorNul(position: nat)
    | TooLong(length: nat, maximum: nat)
    | OmissionNotSupported
    | OmissionRequiresFullCapacity(length: nat, capacity: nat)

  datatype Result<+T, +E> = Ok(value: T) | Err(error: E) {
    predicate IsFailure() { Err? }
    function PropagateFailure<U>(): Result<U, E> requires Err? { Err(error) }
    function Extract(): T requires Ok? { value }
  }

  /** The values an origin can have. Omission means a full capture. */
  predicate ValidFor(o: Origin, v: CapturedBytes) {
    && (AllowsNul(o) || 0 !in v.bytes)
    && |v.bytes| <= MaximumLen(o)
    && (v.bytesOmitted ==> SupportsOmission(o) && |v.bytes| == MaximumLen(o))
  }

  function NulFrom(bytes: seq<Byte>, i: nat): (n: nat)
    requires i <= |bytes|
    ensures i <= n <= |bytes|
    ensures forall j :: i <= j < n ==> bytes[j] != 0
    ensures n < |bytes| ==> bytes[n] == 0
    decreases |bytes| - i
  {
    if i == |bytes| || bytes[i] == 0 then i else NulFrom(bytes, i + 1)
  }

  /** The first position of a NUL, or the length when there is none. */
  function FirstNul(bytes: seq<Byte>): (n: nat)
    ensures n <= |bytes|
    ensures forall j :: 0 <= j < n ==> bytes[j] != 0
    ensures n < |bytes| ==> bytes[n] == 0
  {
    NulFrom(bytes, 0)
  }

  /** `CapturedBytes::new`: accepts exactly the valid values, and otherwise names the first rule broken. */
  function New(o: Origin, bytes: seq<Byte>, omitted: bool): (r: Result<CapturedBytes, CaptureError>)
    ensures r.Ok? <==> ValidFor(o, CapturedBytes(bytes, omitted))
    ensures r.Ok? ==> r.value == CapturedBytes(bytes, omitted)
    ensures r.Err? && r.error.InteriorNul? ==>
              r.error.position < |bytes| && bytes[r.error.position] == 0 && 0 !in bytes[..r.error.position]
    ensures r.Err? && !r.error.InteriorNul? ==> AllowsNul(o) || 0 !in bytes
  {
    var nul := FirstNul(bytes);
    if !AllowsNul(o) && nul < |bytes| then Err(InteriorNul(nul))
    else if |bytes| > MaximumLen(o) then Err(TooLong(|bytes|, MaximumLen(o)))
    else if omitted && !SupportsOmission(o) then Err(OmissionNotSupported)
    else if omitted && |bytes| != MaximumLen(o) then Err(OmissionRequiresFullCapacity(|bytes|, MaximumLen(o)))
    else Ok(CapturedBytes(bytes, omitted))
  }
}
