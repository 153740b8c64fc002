/**
 The wire format of the binary port: a little-endian u32 length followed by
 that many payload bytes, frames back to back on one byte stream.
 */
module Framing {
  import opened Prelude

  const LENGTH_BYTES: nat := 4
  const MAX_MESSAGE_SIZE_BYTES: nat := 4 * 1024 * 1024
  const U32_RANGE: nat := 0x1_0000_0000

  /** 256 to the power `k`: how many numbers `k` bytes can express. */
  function Range(k: nat): (r: nat)
    ensures r >= 1
  {
    if k == 0 then 1 else 256 * Range(k - 1)
  }

  /** Digit `i` of `n` in base 256, lowest first. */
  function Digit(n: nat, i: nat): byte
    decreases i
  {
    if i == 0 then n % 256 else Digit(n / 256, i - 1)
  }

  /** The `k` low-order base-256 digits of `n`, lowest first: `u32::to_le_bytes` for k = 4. */
  function ToLittleEndian(n: nat, k: nat): (bytes: Bytes)
    ensures |bytes| == k
  {
    seq(k, i requires 0 <= i < k => Digit(n, i))
  }

  /** The number those digits stand for: `u32::from_le_bytes` for four bytes. */
  function FromLittleEndian(bytes: Bytes): nat {
    if bytes == [] then 0
    else
      var low: int := bytes[0];
      low + 256 * FromLittleEndian(bytes[1..])
  }

  lemma {:induction false} LittleEndianRoundTrip(n: nat, k: nat)
    requires n < Range(k)
    ensures FromLittleEndian(ToLittleEndian(n, k)) == n
    decreases k
  {
    if k > 0 {
      LittleEndianRoundTrip(n / 256, k - 1);
      assert ToLittleEndian(n, k)[0] == n % 256;
      assert ToLittleEndian(n, k)[1..] == ToLittleEndian(n / 256, k - 1);
    }
  }

  /** Byte `i` of a written number has the place value 256^i, least significant first... */
  lemma {:induction false} WrittenPlaceValue(n: nat, k: nat, i: nat)
    requires i < k
    ensures ToLittleEndian(n, k)[i] == n / Range(i) % 256
  {
    DigitPlaceValue(n, i);
  }

  lemma {:induction false} DigitPlaceValue(n: nat, i: nat)
    ensures Digit(n, i) == n / Range(i) % 256
    decreases i
  {
    if i > 0 {
      DigitPlaceValue(n / 256, i - 1);
      DivideTwice(n, Range(i - 1));
    }
  }

  lemma {:induction false} DivideTwice(n: nat, d: nat)
    requires d >= 1
    ensures n / 256 / d == n / (256 * d)
  {
    var q := n / 256 / d;
    var r := n / 256 % d;
    assert n / 256 == d * q + r;
    assert n == 256 * (d * q) + (256 * r + n % 256);
    assert 256 * (d * q) == (256 * d) * q;
    QuotientIs(n, 256 * d, q, 256 * r + n % 256);
  }

  lemma {:induction false} QuotientIs(n: nat, d: nat, q: nat, r: nat)
    requires n == d * q + r && r < d
    ensures n / d == q
  {
    assert n == d * (n / d) + n % d;
    Multiples(d, n / d, q);
    Multiples(d, q, n / d);
  }

  /** ... and so has byte `i` of a number being read. */
  function PlaceValues(bytes: Bytes, k: nat): nat
    requires k <= |bytes|
  {
    if k == 0 then 0
    else
      var digit: int := bytes[k - 1];
      PlaceValues(bytes, k - 1) + digit * Range(k - 1)
  }

  lemma {:induction false} ReadPlaceValues(bytes: Bytes)
    ensures FromLittleEndian(bytes) == PlaceValues(bytes, |bytes|)
    decreases |bytes|
  {
    if bytes != [] {
      ReadPlaceValues(bytes[1..]);
      PlaceValuesShift(bytes, |bytes| - 1);
    }
  }

  lemma {:induction false} PlaceValuesShift(bytes: Bytes, k: nat)
    requires k < |bytes|
    ensures var low: int := bytes[0]; PlaceValues(bytes, k + 1) == low + 256 * PlaceValues(bytes[1..], k)
    decreases k
  {
    if k > 0 {
      PlaceValuesShift(bytes, k - 1);
      var digit: int := bytes[k];
      assert bytes[1..][k - 1] == bytes[k];
      assert digit * Range(k) == 256 * (digit * Range(k - 1));
    } else {
      var low: int := bytes[0];
      assert PlaceValues(bytes, 1) == 0 + low * Range(0);
    }
  }

  lemma {:induction false} FourBytesExpressU32()
    ensures Range(LENGTH_BYTES) == U32_RANGE
  {
  }

  /** The bytes written for one payload; `as u32` keeps the length modulo 2^32. */
  function Frame(payload: Bytes): (frame: Bytes)
    ensures |frame| == LENGTH_BYTES + |payload|
  {
    ToLittleEndian(|payload| % U32_RANGE, LENGTH_BYTES) + payload
  }

  /** A payload whose length the u32 prefix can express. */
  predicate Fits(payload: Bytes) {
    |payload| < U32_RANGE
  }

  predicate AllFit(payloads: seq<Bytes>) {
    forall i :: 0 <= i < |payloads| ==> Fits(payloads[i])
  }

  /** Several payloads, framed back to back. */
  function FrameAll(payloads: seq<Bytes>): Bytes {
    if payloads == [] then [] else FrameAll(payloads[..|payloads| - 1]) + Frame(payloads[|payloads| - 1])
  }

  /** How long the frame starting at the head of `bytes` is, once its prefix is there. */
  function FrameLength(bytes: Bytes): nat
    requires |bytes| >= LENGTH_BYTES
  {
    LENGTH_BYTES + FromLittleEndian(bytes[..LENGTH_BYTES])
  }

  /** Does `bytes` begin with a whole frame? */
  predicate HasFrame(bytes: Bytes) {
    |bytes| >= LENGTH_BYTES && |bytes| >= FrameLength(bytes)
  }

  /** What a reader of the stream makes of it: the payloads of the whole frames... */
  function Frames(bytes: Bytes): seq<Bytes>
    decreases |bytes|
  {
    if HasFrame(bytes) then
      [bytes[LENGTH_BYTES..FrameLength(bytes)]] + Frames(bytes[FrameLength(bytes)..])
    else []
  }

  /** ... and the bytes after the last whole frame. */
  function LeftOver(bytes: Bytes): Bytes
    decreases |bytes|
  {
    if HasFrame(bytes) then LeftOver(bytes[FrameLength(bytes)..]) else bytes
  }

  /** The length prefix announces the true length exactly for payloads below 4 GiB. */
  lemma {:induction false} LengthPrefixIsExactIff(payload: Bytes, bytes: Bytes)
    requires |bytes| >= LENGTH_BYTES && bytes[..LENGTH_BYTES] == Frame(payload)[..LENGTH_BYTES]
    ensures FrameLength(bytes) == |Frame(payload)| <==> Fits(payload)
  {
    var announced := |payload| % U32_RANGE;
    FourBytesExpressU32();
    LittleEndianRoundTrip(announced, LENGTH_BYTES);
    assert Frame(payload)[..LENGTH_BYTES] == ToLittleEndian(announced, LENGTH_BYTES);
  }

  /** The size check makes the narrowing cast of the length harmless. */
  lemma {:induction false} SizeCheckPreventsTruncation(payload: Bytes)
    requires |payload| <= MAX_MESSAGE_SIZE_BYTES
    ensures Fits(payload)
    ensures FrameLength(Frame(payload)) == |Frame(payload)|
  {
    LengthPrefixIsExactIff(payload, Frame(payload));
  }

  /** What goes out for one payload, byte for byte: its length, lowest byte first, and then the payload. */
  lemma {:induction false} FrameOnTheWire(payload: Bytes)
    requires Fits(payload)
    ensures Frame(payload)[0] == |payload| % 256
    ensures Frame(payload)[1] == |payload| / 256 % 256
    ensures Frame(payload)[2] == |payload| / 65536 % 256
    ensures Frame(payload)[3] == |payload| / 16777216 % 256
    ensures Frame(payload)[4..] == payload
  {
    assert Range(1) == 256 && Range(2) == 65536 && Range(3) == 16777216;
    assert |payload| % U32_RANGE == |payload|;
    WrittenPlaceValue(|payload|, 4, 0);
    WrittenPlaceValue(|payload|, 4, 1);
    WrittenPlaceValue(|payload|, 4, 2);
    WrittenPlaceValue(|payload|, 4, 3);
  }

  /** How the four bytes of a length prefix are read. */
  lemma {:induction false} LengthFromTheWire(bytes: Bytes)
    requires |bytes| >= 4
    ensures var b0: int, b1: int, b2: int, b3: int := bytes[0], bytes[1], bytes[2], bytes[3];
            FrameLength(bytes) == 4 + b0 + 256 * b1 + 65536 * b2 + 16777216 * b3
  {
    var prefix := bytes[..4];
    ReadPlaceValues(prefix);
    assert Range(1) == 256 && Range(2) == 65536 && Range(3) == 16777216;
    assert PlaceValues(prefix, 1) == prefix[0] as int;
    var b1: int := prefix[1];
    assert PlaceValues(prefix, 2) == PlaceValues(prefix, 1) + b1 * Range(1);
    var b2: int := prefix[2];
    assert PlaceValues(prefix, 3) == PlaceValues(prefix, 2) + b2 * Range(2);
    var b3: int := prefix[3];
    assert PlaceValues(prefix, 4) == PlaceValues(prefix, 3) + b3 * Range(3);
  }

  lemma {:induction false} FrameDeclaresItsLength(payload: Bytes, rest: Bytes)
    requires Fits(payload)
    ensures HasFrame(Frame(payload) + rest)
    ensures FrameLength(Frame(payload) + rest) == |Frame(payload)|
  {
    var bytes := Frame(payload) + rest;
    assert bytes[..LENGTH_BYTES] == Frame(payload)[..LENGTH_BYTES];
    LengthPrefixIsExactIff(payload, bytes);
  }

  /** Bytes short of a whole frame contain no frame. */
  lemma {:induction false} PartialFrameHasNone(payload: Bytes, n: nat)
    requires Fits(payload) && n < |Frame(payload)|
    ensures !HasFrame(Frame(payload)[..n])
    ensures Frames(Frame(payload)[..n]) == []
  {
    var bytes := Frame(payload)[..n];
    if n >= LENGTH_BYTES {
      assert bytes[..LENGTH_BYTES] == Frame(payload)[..LENGTH_BYTES];
      LengthPrefixIsExactIff(payload, bytes);
    }
  }

  lemma {:induction false} FrameAllSplit(first: Bytes, rest: seq<Bytes>)
    ensures FrameAll([first] + rest) == Frame(first) + FrameAll(rest)
    decreases |rest|
  {
    var all := [first] + rest;
    var n := |rest| - 1;
    if rest == [] {
      assert all[..0] == [] && FrameAll(all[..0]) == [] && all[0] == first;
      assert [] + Frame(first) == Frame(first) + [];
    } else {
      assert all[..|rest|] == [first] + rest[..n] && all[|rest|] == rest[n];
      FrameAllSplit(first, rest[..n]);
      Assoc(Frame(first), FrameAll(rest[..n]), Frame(rest[n]));
    }
  }

  /** A stream that starts with a frame is read as that frame and then the rest. */
  lemma {:induction false} FramesOfFrame(payload: Bytes, rest: Bytes)
    requires Fits(payload)
    ensures Frames(Frame(payload) + rest) == [payload] + Frames(rest)
    ensures LeftOver(Frame(payload) + rest) == LeftOver(rest)
  {
    var frame := Frame(payload);
    FrameDeclaresItsLength(payload, rest);
    Cut(frame, rest);
    assert (frame + rest)[LENGTH_BYTES..|frame|] == frame[LENGTH_BYTES..] == payload;
  }

  /** Reading back what was written, in the middle of a frame or not. */
  lemma {:induction false} FramesRoundTrip(payloads: seq<Bytes>, tail: Bytes)
    requires AllFit(payloads)
    requires !HasFrame(tail)
    ensures Frames(FrameAll(payloads) + tail) == payloads
    ensures LeftOver(FrameAll(payloads) + tail) == tail
    decreases |payloads|
  {
    if payloads == [] {
      assert FrameAll(payloads) + tail == tail;
    } else {
      var first, rest := payloads[0], payloads[1..];
      assert payloads == [first] + rest;
      FrameAllSplit(first, rest);
      Assoc(Frame(first), FrameAll(rest), tail);
      FramesOfFrame(first, FrameAll(rest) + tail);
      FramesRoundTrip(rest, tail);
    }
  }

  /** Any sequence of payloads that pass the size check is read back exactly, with nothing left over. */
  lemma {:induction false} FramingRoundTrip(payloads: seq<Bytes>)
    requires forall i :: 0 <= i < |payloads| ==> |payloads[i]| <= MAX_MESSAGE_SIZE_BYTES
    ensures Frames(FrameAll(payloads)) == payloads
    ensures LeftOver(FrameAll(payloads)) == []
  {
    FramesRoundTrip(payloads, []);
    assert FrameAll(payloads) + [] == FrameAll(payloads);
  }
}
