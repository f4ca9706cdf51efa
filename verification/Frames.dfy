/** The frame around every message: four bytes of length, one of type, then the payload. */
module Frames {
  import opened Wrappers

  const WORD := 0x1_0000_0000

  function BigEndian(n: nat): (bytes: Bytes)
    requires n < WORD
    ensures |bytes| == 4
  {
    [n / 0x100 / 0x100 / 0x100, n / 0x100 / 0x100 % 0x100, n / 0x100 % 0x100, n % 0x100]
  }

  function FromBigEndian(b: Bytes): (n: nat)
    requires |b| == 4
    ensures n < WORD
  {
    ((b[0] as int * 0x100 + b[1]) * 0x100 + b[2]) * 0x100 + b[3]
  }

  /** The first byte weighs most. */
  lemma {:induction false} FirstByteWeighsMost(b: Bytes)
    requires |b| == 4
    ensures FromBigEndian(b) == b[0] as int * 0x100_0000 + b[1] as int * 0x1_0000 + b[2] as int * 0x100 + b[3]
  {
  }

  lemma {:induction false} BigEndianRoundTrip(n: nat)
    requires n < WORD
    ensures FromBigEndian(BigEndian(n)) == n
  {
    var n1 := n / 0x100;
    var n2 := n1 / 0x100;
    assert n == n1 * 0x100 + n % 0x100 && n1 == n2 * 0x100 + n1 % 0x100;
  }

  lemma {:induction false} LastByte(high: nat, low: Byte)
    ensures (high * 0x100 + low) / 0x100 == high && (high * 0x100 + low) % 0x100 == low
  {
  }

  lemma {:induction false} BigEndianOnto(b: Bytes)
    requires |b| == 4
    ensures BigEndian(FromBigEndian(b)) == b
  {
    LastByte(b[0], b[1]);
    LastByte(b[0] as int * 0x100 + b[1], b[2]);
    LastByte((b[0] as int * 0x100 + b[1]) * 0x100 + b[2], b[3]);
  }

  /** The length is cast to 32 bits. */
  function Encoded(msgType: Byte, payload: Bytes): (frame: Bytes) {
    BigEndian(|payload| % WORD) + [msgType] + payload
  }

  function Decoded(frame: Bytes): Result<(Byte, Bytes), string> {
    if |frame| < 5 then Err("Frame too short") else
      var length := FromBigEndian(frame[..4]);
      if |frame| < 5 + length then Err("Truncated frame") else Ok((frame[4], frame[5..5 + length]))
  }

  method SendFramed(msgType: Byte, payload: Bytes) returns (frame: Bytes)
    ensures frame == Encoded(msgType, payload)
  {
    frame := [];
    frame := frame + BigEndian(|payload| % WORD);
    frame := frame + [msgType];
    frame := frame + payload;
  }

  lemma {:induction false} HeaderOf(msgType: Byte, payload: Bytes, tail: Bytes)
    ensures var frame := Encoded(msgType, payload) + tail;
      |frame| == 5 + |payload| + |tail|
      && FromBigEndian(frame[..4]) == |payload| % WORD
      && frame[4] == msgType
      && frame[5..] == payload + tail
  {
    BigEndianRoundTrip(|payload| % WORD);
    assert (Encoded(msgType, payload) + tail)[..4] == BigEndian(|payload| % WORD);
  }

  /** A frame is read back, whatever bytes follow it, exactly when its payload is shorter than 2^32. */
  lemma {:induction false} RoundTripIff(msgType: Byte, payload: Bytes, tail: Bytes)
    ensures Decoded(Encoded(msgType, payload) + tail) == Ok((msgType, payload)) <==> |payload| < WORD
  {
    HeaderOf(msgType, payload, tail);
    var frame := Encoded(msgType, payload) + tail;
    var length := |payload| % WORD;
    assert frame[5..5 + length] == (payload + tail)[..length];
    if |payload| < WORD {
      assert (payload + tail)[..length] == payload;
    }
  }

  /** No proper prefix of a frame is taken for a frame. */
  lemma {:induction false} PrefixRejected(msgType: Byte, payload: Bytes, cut: nat)
    requires |payload| < WORD && cut < |Encoded(msgType, payload)|
    ensures Decoded(Encoded(msgType, payload)[..cut]).Err?
  {
    var frame := Encoded(msgType, payload);
    HeaderOf(msgType, payload, []);
    assert frame + [] == frame;
    if cut >= 5 {
      assert frame[..cut][..4] == frame[..4];
    }
  }

  /** Whatever is accepted is the frame of what is returned, followed by a tail. */
  lemma {:induction false} AcceptedIsEncoded(frame: Bytes) returns (tail: Bytes)
    requires Decoded(frame).Ok?
    ensures var (msgType, payload) := Decoded(frame).value;
      |payload| < WORD && frame == Encoded(msgType, payload) + tail
  {
    var (msgType, payload) := Decoded(frame).value;
    tail := frame[5 + |payload|..];
    BigEndianOnto(frame[..4]);
    var length := FromBigEndian(frame[..4]);
    assert |payload| == length && length % WORD == length;
    assert Encoded(msgType, payload) == frame[..4] + [msgType] + payload;
    assert frame == frame[..4] + [msgType] + payload + tail;
  }
}
