/** How handlers copy names out of kernel memory (src/bpf/landlock_observability.bpf.c),
    and that the decoder recovers exactly what was there. */
module Capture {
  import opened Events
  import opened Captured
  import opened Numbers
  import opened Wire

  const PATH_BUFFER := PATH_SIZE + 2
  /** The family field of a socket address and the namespace NUL. */
  const ABSTRACT_PREFIX := 3

  // ----- paths -----

  /** A C string in kernel memory, without its terminator; none when reading it faults. */
  type KernelText = s: Option<seq<Byte>> | s.Some? ==> 0 !in s.value witness None

  /** What a path field holds after a capture. */
  function PathField(text: seq<Byte>): (field: seq<Byte>)
    ensures |field| == PATH_SIZE
  {
    if |text| >= PATH_SIZE then text[..PATH_SIZE] else text + seq(PATH_SIZE - |text|, _ => 0)
  }

  /** The kernel helper: copies what fits, always terminates, and counts the terminator. */
  method ProbeReadKernelStr(buffer: array<Byte>, source: KernelText) returns (length: int)
    requires buffer.Length > 0
    modifies buffer
    ensures length < 0 <==> source.None?
    ensures source.Some? ==>
              && length == 1 + (if |source.value| < buffer.Length then |source.value| else buffer.Length - 1)
              && buffer[..length - 1] == source.value[..length - 1]
              && buffer[length - 1] == 0
              && forall k :: length <= k < buffer.Length ==> buffer[k] == old(buffer[k])
  {
    if source.None? {
      return -14;
    }
    var text, i := source.value, 0;
    while i < |text| && i < buffer.Length - 1
      invariant 0 <= i <= |text| && i < buffer.Length
      invariant buffer[..i] == text[..i]
      invariant forall k :: i <= k < buffer.Length ==> buffer[k] == old(buffer[k])
    {
      buffer[i] := text[i];
      i := i + 1;
    }
    buffer[i] := 0;
    length := i + 1;
  }

  method CapturePath(dst: array<Byte>, source: KernelText) returns (ok: bool, bytesOmitted: Byte)
    requires dst.Length == PATH_SIZE
    modifies dst
    ensures ok <==> source.Some?
    ensures !ok ==> dst[..] == old(dst[..])
    ensures ok ==> dst[..] == PathField(source.value)
    ensures ok ==> bytesOmitted == if |source.value| > PATH_SIZE then 1 else 0
  {
    bytesOmitted := 0;
    var buffer := new Byte[PATH_BUFFER](_ => 0);
    var length := ProbeReadKernelStr(buffer, source);
    if length < 0 {
      return false, 0;
    }
    forall k | 0 <= k < PATH_SIZE {
      dst[k] := buffer[k];
    }
    bytesOmitted := if length > PATH_SIZE + 1 then 1 else 0;
    ok := true;
    assert forall k :: 0 <= k < length - 1 ==> buffer[k] == buffer[..length - 1][k];
    assert forall k :: 0 <= k < length - 1 ==> source.value[k] == source.value[..length - 1][k];
  }

  /** A captured path, read back from anywhere in a record, is the path's first 256 bytes,
      marked as cut short exactly when there were more. */
  lemma PathRecovered(data: seq<Byte>, offset: nat, omittedOffset: nat, text: seq<Byte>)
    requires 0 !in text
    requires offset + PATH_SIZE <= |data| && omittedOffset < |data|
    requires data[offset..offset + PATH_SIZE] == PathField(text)
    requires data[omittedOffset] == if |text| > PATH_SIZE then 1 else 0
    ensures CapturedAt(data, offset, omittedOffset) ==
            Ok(CapturedBytes(if |text| > PATH_SIZE then text[..PATH_SIZE] else text, |text| > PATH_SIZE))
  {
    var kept := if |text| > PATH_SIZE then text[..PATH_SIZE] else text;
    var field := PathField(text);
    assert forall k :: 0 <= k < |kept| ==> field[k] == text[k] && text[k] in text;
    assert |kept| < PATH_SIZE ==> field[|kept|] == 0;
    assert FirstNul(field) == |kept|;
    assert field[..|kept|] == kept;
    assert 0 !in kept;
  }

  // ----- abstract UNIX socket names -----

  /** A bound address: its length, and the bytes readable from the start of its path. */
  datatype UnixAddress = UnixAddress(len: int, sunPath: seq<Byte>)

  /** An abstract address whose whole name is readable and fits. */
  predicate IsAbstract(a: UnixAddress) {
    && ABSTRACT_PREFIX <= a.len <= ABSTRACT_PREFIX + ABSTRACT_NAME_MAX
    && a.len - ABSTRACT_PREFIX < |a.sunPath|
    && a.sunPath[0] == 0
  }

  /** The bytes after the namespace NUL; an unbound peer has none. */
  function NameOf(address: Option<UnixAddress>): (name: seq<Byte>)
    requires address.Some? ==> IsAbstract(address.value)
    ensures |name| <= ABSTRACT_NAME_MAX
  {
    if address.None? then [] else address.value.sunPath[1..address.value.len - ABSTRACT_PREFIX + 1]
  }

  /** Copies `size` bytes, or faults before changing anything that is kept. */
  method ProbeReadKernel(dst: array<Byte>, size: nat, memory: seq<Byte>, start: nat) returns (fault: bool)
    requires size <= dst.Length
    modifies dst
    ensures fault <==> start + size > |memory|
    ensures !fault ==> dst[..size] == memory[start..start + size] && dst[size..] == old(dst[size..])
    ensures fault ==> dst[..] == old(dst[..])
  {
    fault := start + size > |memory|;
    if !fault {
      forall k | 0 <= k < size {
        dst[k] := memory[start + k];
      }
    }
  }

  method CaptureAbstractName(dst: array<Byte>, address: Option<UnixAddress>) returns (ok: bool, length: nat)
    requires dst.Length == ABSTRACT_NAME_MAX
    modifies dst
    ensures ok <==> address.Some? ==> IsAbstract(address.value)
    ensures ok ==>
            length == |NameOf(address)| && dst[..length] == NameOf(address) && dst[length..] == old(dst[length..])
    ensures !ok ==> dst[..] == old(dst[..]) && length == 0
  {
    length := 0;
    if address.None? {
      return true, 0;
    }
    var a := address.value;
    if a.len < ABSTRACT_PREFIX || a.len > ABSTRACT_PREFIX + ABSTRACT_NAME_MAX {
      return false, 0;
    }
    var nameLength := a.len - ABSTRACT_PREFIX;
    var namespace := new Byte[1](_ => 0);
    var fault := ProbeReadKernel(namespace, 1, a.sunPath, 0);
    if fault {
      return false, 0;
    }
    assert namespace[0] == namespace[..1][0] == a.sunPath[0];
    if namespace[0] != 0 {
      return false, 0;
    }
    if nameLength > 0 {
      fault := ProbeReadKernel(dst, nameLength, a.sunPath, 1);
      if fault {
        return false, 0;
      }
    }
    return true, nameLength;
  }

  /** A captured name, read back from a record, is the name byte for byte, its NULs included. */
  lemma AbstractNameRecovered(order: ByteOrder, data: seq<Byte>, lengthOffset: nat, nameOffset: nat,
                              address: Option<UnixAddress>)
    requires address.Some? ==> IsAbstract(address.value)
    requires lengthOffset + 4 <= |data| && nameOffset + ABSTRACT_NAME_MAX <= |data|
    requires data[lengthOffset..lengthOffset + 4] == Encoded(order, |NameOf(address)|, 4)
    requires data[nameOffset..nameOffset + |NameOf(address)|] == NameOf(address)
    ensures AbstractNameAt(order, data, lengthOffset, nameOffset) == Ok(CapturedBytes(NameOf(address), false))
  {
    Limits();
    ValueOfEncoded(order, |NameOf(address)|, 4);
  }

  /** Different peers' names never become the same captured name. */
  lemma AbstractNamesDistinct(a: UnixAddress, b: UnixAddress)
    requires IsAbstract(a) && IsAbstract(b)
    ensures NameOf(Some(a)) == NameOf(Some(b)) <==>
            a.len == b.len && a.sunPath[..a.len - ABSTRACT_PREFIX + 1] == b.sunPath[..b.len - ABSTRACT_PREFIX + 1]
  {
    var m, n := a.len - ABSTRACT_PREFIX + 1, b.len - ABSTRACT_PREFIX + 1;
    assert a.sunPath[..m] == [0] + a.sunPath[1..m];
    assert b.sunPath[..n] == [0] + b.sunPath[1..n];
    if m == n && a.sunPath[..m] == b.sunPath[..n] {
      assert a.sunPath[..m][1..] == a.sunPath[1..m];
      assert b.sunPath[..n][1..] == b.sunPath[1..n];
    }
  }
}
