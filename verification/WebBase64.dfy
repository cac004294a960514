/** toBase64 and fromBase64: bytes by way of a binary string, one character a byte. */
module WebBase64 {
  import opened Wrappers
  import opened Base64

  function Binary(bytes: Bytes): string {
    seq(|bytes|, i requires 0 <= i < |bytes| => bytes[i] as char)
  }

  predicate IsBinary(s: string) {
    forall i :: 0 <= i < |s| ==> s[i] as int < 256
  }

  function CodesOf(binary: string): Option<Bytes> {
    if IsBinary(binary) then Some(seq(|binary|, i requires 0 <= i < |binary| => binary[i] as int % 256)) else None
  }

  /** btoa: an error when a character is not a byte. */
  function Btoa(binary: string): Option<string> {
    match CodesOf(binary)
    case Some(bytes) => Some(Encode(bytes))
    case None => None
  }

  function Atob(s: string): Option<string> {
    match StrictDecode(s)
    case Some(bytes) => Some(Binary(bytes))
    case None => None
  }

  lemma CodesOfBinary(bytes: Bytes)
    ensures CodesOf(Binary(bytes)) == Some(bytes)
  {
    var binary := Binary(bytes);
    assert IsBinary(binary);
    assert CodesOf(binary).value == bytes;
  }

  method ToBase64(buffer: Bytes) returns (base64: string)
    ensures base64 == Encode(buffer)
    ensures StrictDecode(base64) == Some(buffer)
  {
    var binary := "";
    for i := 0 to |buffer|
      invariant binary == Binary(buffer[..i])
    {
      binary := binary + [buffer[i] as char];
    }
    assert buffer[..|buffer|] == buffer;
    CodesOfBinary(buffer);
    StrictRoundTrip(buffer);
    base64 := Btoa(binary).value;
  }

  method FromBase64(base64: string) returns (bytes: Option<Bytes>)
    ensures bytes == StrictDecode(base64)
  {
    var decoded := Atob(base64);
    if decoded.None? {
      return None;
    }
    var binary := decoded.value;
    var buffer := new Byte[|binary|];
    for i := 0 to |binary|
      invariant buffer[..i] == StrictDecode(base64).value[..i]
    {
      buffer[i] := binary[i] as int;
    }
    assert buffer[..] == buffer[..|binary|] == StrictDecode(base64).value;
    bytes := Some(buffer[..]);
  }
}
