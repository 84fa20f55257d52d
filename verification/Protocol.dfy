/** The innermost codec: one type byte in front of every application payload. */
module Protocol {
  import opened Bytes

  const TYPE_AUTH: byte := 1
  const TYPE_VDHCP: byte := 2
  const TYPE_IP: byte := 3

  function Pack(t: byte, payload: Bytes): Bytes {
    [t] + payload
  }

  datatype UnpackError = EmptyPayload | UnknownType(t: byte)

  function Unpack(b: Bytes): Result<(byte, Bytes), UnpackError> {
    if |b| < 1 then Err(EmptyPayload)
    else if b[0] == TYPE_AUTH || b[0] == TYPE_VDHCP || b[0] == TYPE_IP then Ok((b[0], b[1..]))
    else Err(UnknownType(b[0]))
  }

  /** Unpack undoes Pack, and whatever Unpack accepts is a packed payload of a known type. */
  lemma UnpackExactly(b: Bytes, t: byte, payload: Bytes)
    ensures Unpack(b) == Ok((t, payload)) <==>
            b == Pack(t, payload) && TYPE_AUTH <= t <= TYPE_IP
  {
    if b != [] {
      assert b == [b[0]] + b[1..];
    }
    assert Pack(t, payload)[1..] == payload;
  }
}
