/** The 48 bytes on the wire: sections 7.3 and 8 of RFC 5905. */
module NtpPacket {
  import opened NtpCodec

  const CLIENT_VERSION: Byte := 4
  const MODE_CLIENT: Byte := 3
  const MODE_SERVER: Byte := 4

  // ----- big-endian words -----------------------------------------------------------

  function BeBytes(w: Word): (bs: seq<Byte>)
    ensures |bs| == 4
  {
    [w / 0x100_0000 % 0x100, w / 0x1_0000 % 0x100, w / 0x100 % 0x100, w % 0x100]
  }

  function ReadBe32(packet: seq<Byte>, offset: nat): Word
    requires offset + 4 <= |packet|
  {
    var a: int, b: int, c: int := packet[offset], packet[offset + 1], packet[offset + 2];
    a * 0x100_0000 + b * 0x1_0000 + c * 0x100 + packet[offset + 3]
  }

  function ReadTimestamp(packet: seq<Byte>, offset: nat): Timestamp
    requires offset + 8 <= |packet|
  {
    Timestamp(ReadBe32(packet, offset), ReadBe32(packet, offset + 4))
  }

  lemma WriteThenRead(w: Word)
    ensures ReadBe32(BeBytes(w), 0) == w
  {
    var q1 := w / 0x100;
    var q2 := q1 / 0x100;
    var q3 := q2 / 0x100;
    assert w / 0x1_0000 == q2 && w / 0x100_0000 == q3 && 0 <= q3 < 0x100;
  }

  lemma ReadThenWrite(packet: seq<Byte>, offset: nat)
    requires offset + 4 <= |packet|
    ensures BeBytes(ReadBe32(packet, offset)) == packet[offset..offset + 4]
  {
    var a: int, b: int, c: int := packet[offset], packet[offset + 1], packet[offset + 2];
    var v := ReadBe32(packet, offset);
    assert v / 0x100 == a * 0x1_0000 + b * 0x100 + c;
    assert v / 0x1_0000 == a * 0x100 + b;
    assert v / 0x100_0000 == a;
  }

  /** Writing and reading undo each other. */
  lemma BigEndianRoundTrip(w: Word, packet: seq<Byte>, offset: nat)
    requires offset + 4 <= |packet|
    ensures ReadBe32(BeBytes(w), 0) == w
    ensures BeBytes(ReadBe32(packet, offset)) == packet[offset..offset + 4]
  {
    WriteThenRead(w);
    ReadThenWrite(packet, offset);
  }

  /** Reading eight bytes gives this timestamp exactly when they are its bytes. */
  lemma TimestampBytes(packet: seq<Byte>, offset: nat, t: Timestamp)
    requires offset + 8 <= |packet|
    ensures ReadTimestamp(packet, offset) == t <==> packet[offset..offset + 8] == BeBytes(t.seconds) + BeBytes(t.fraction)
  {
    BigEndianRoundTrip(t.seconds, packet, offset);
    BigEndianRoundTrip(t.fraction, packet, offset + 4);
    assert packet[offset..offset + 8] == packet[offset..offset + 4] + packet[offset + 4..offset + 8];
    if packet[offset..offset + 8] == BeBytes(t.seconds) + BeBytes(t.fraction) {
      assert packet[offset..offset + 4] == (packet[offset..offset + 8])[..4] == BeBytes(t.seconds);
      assert packet[offset + 4..offset + 8] == (packet[offset..offset + 8])[4..] == BeBytes(t.fraction);
      assert ReadBe32(packet, offset) == ReadBe32(BeBytes(t.seconds), 0);
      assert ReadBe32(packet, offset + 4) == ReadBe32(BeBytes(t.fraction), 0);
    }
  }

  // ----- the request ------------------------------------------------------------------

  /** A client request: its first byte, 39 zeros, and the transmit timestamp. */
  function RequestBytes(transmit: Timestamp): (bs: seq<Byte>)
    ensures |bs| == PACKET_SIZE
  {
    [CLIENT_VERSION * 8 + MODE_CLIENT] + seq(39, _ => 0) + BeBytes(transmit.seconds) + BeBytes(transmit.fraction)
  }

  /** Version 4 and mode 3 in the first of 48 bytes, the transmit timestamp in the last eight, and
      zeros between. */
  lemma RequestLayout(transmit: Timestamp)
    ensures var bs := RequestBytes(transmit);
      && |bs| == 48 && bs[0] == 0x23
      && (forall i :: 1 <= i < 40 ==> bs[i] == 0)
      && ReadTimestamp(bs, 40) == transmit
  {
    var bs := RequestBytes(transmit);
    TimestampBytes(bs, 40, transmit);
    assert bs[40..48] == BeBytes(transmit.seconds) + BeBytes(transmit.fraction);
    hide BeBytes, ReadTimestamp;
  }

  method Put32(packet: array<Byte>, offset: nat, value: Word)
    requires offset + 4 <= packet.Length
    modifies packet
    ensures packet[..] == old(packet[..offset]) + BeBytes(value) + old(packet[offset + 4..])
  {
    packet[offset] := value / 0x100_0000 % 0x100;
    packet[offset + 1] := value / 0x1_0000 % 0x100;
    packet[offset + 2] := value / 0x100 % 0x100;
    packet[offset + 3] := value % 0x100;
  }

  method BuildRequest(transmit: Timestamp) returns (packet: array<Byte>)
    ensures fresh(packet) && packet[..] == RequestBytes(transmit)
  {
    packet := new Byte[PACKET_SIZE](_ => 0);
    packet[0] := CLIENT_VERSION * 8 + MODE_CLIENT;
    Put32(packet, 40, transmit.seconds);
    Put32(packet, 44, transmit.fraction);
  }

  // ----- the reply --------------------------------------------------------------------

  datatype ParseError = TooShort | BadVersion | BadMode

  datatype Result<+T, +E> = Ok(value: T) | Err(error: E)

  /** Root delay and dispersion are in nanoseconds. */
  datatype Response = Response(leap: Byte, version: Byte, mode: Byte, stratum: Byte, poll: Byte, precision: int,
                               rootDelay: int, rootDispersion: int, referenceId: Word,
                               origin: Timestamp, receive: Timestamp, transmit: Timestamp)

  function Version(b: Byte): Byte { b / 8 % 8 }

  function Mode(b: Byte): Byte { b % 8 }

  /** Two's complement of the given number of values. */
  function Signed(value: int, values: int): int
    requires 0 <= value < values
  {
    if value < values / 2 then value else value - values
  }

  function Parse(packet: seq<Byte>): Result<Response, ParseError> {
    if |packet| < PACKET_SIZE then Err(TooShort)
    else if Version(packet[0]) < 3 || Version(packet[0]) > 4 then Err(BadVersion)
    else if Mode(packet[0]) != MODE_SERVER then Err(BadMode)
    else Ok(Response(packet[0] / 64 % 4, Version(packet[0]), Mode(packet[0]), packet[1], packet[2], Signed(packet[3], 0x100),
                     FixedToNanos(Signed(ReadBe32(packet, 4), ERA)), FixedToNanos(ReadBe32(packet, 8)),
                     ReadBe32(packet, 12), ReadTimestamp(packet, 24), ReadTimestamp(packet, 32), ReadTimestamp(packet, 40)))
  }

  datatype Verdict = Usable | BadEcho | KissOfDeath | Unsynchronised

  function Classify(r: Response, expectedOrigin: Timestamp): Verdict {
    if r.stratum == 0 then KissOfDeath
    else if r.stratum >= 16 then Unsynchronised
    else if r.origin.seconds != expectedOrigin.seconds || r.origin.fraction != expectedOrigin.fraction then BadEcho
    else Usable
  }

  datatype KissCode = NoKiss | Rate | Deny | Restrict | OtherKiss

  const RATE: seq<Byte> := [82, 65, 84, 69]
  const DENY: seq<Byte> := [68, 69, 78, 89]
  const RSTR: seq<Byte> := [82, 83, 84, 82]

  function KissOf(r: Response): KissCode {
    if r.stratum != 0 then NoKiss
    else
      var code := BeBytes(r.referenceId);
      if code == RATE then Rate else if code == DENY then Deny else if code == RSTR then Restrict else OtherKiss
  }

  /** 2^(8 k), the shift of byte k from the right. */
  function Shift(k: nat): (p: int)
    ensures p > 0
  {
    if k == 0 then 1 else 0x100 * Shift(k - 1)
  }

  /** The loop of kiss_code over the four characters of the reference identifier. */
  method ReadKissCode(r: Response) returns (kiss: KissCode)
    ensures kiss == KissOf(r)
  {
    if r.stratum != 0 { return NoKiss; }
    var code := new Byte[4](_ => 0);
    var bytes := BeBytes(r.referenceId);
    assert Shift(0) == 1 && Shift(1) == 0x100 && Shift(2) == 0x1_0000 && Shift(3) == 0x100_0000;
    for i := 0 to 4
      invariant forall j :: 0 <= j < i ==> code[j] == bytes[j]
    {
      code[i] := r.referenceId / Shift(3 - i) % 0x100;
    }
    assert code[..] == bytes;
    if code[..] == RATE { return Rate; }
    if code[..] == DENY { return Deny; }
    if code[..] == RSTR { return Restrict; }
    return OtherKiss;
  }

  // ----- the echo check -----------------------------------------------------------------

  /** For every transmit timestamp and every datagram of at least 48 bytes: the reply is
      judged usable exactly when its version is 3 or 4, its mode is server, its stratum is
      1 to 15, and its origin bytes are the transmit bytes of the request. */
  lemma UsableExactly(transmit: Timestamp, packet: seq<Byte>)
    requires |packet| >= PACKET_SIZE
    ensures (Parse(packet).Ok? && Classify(Parse(packet).value, transmit) == Usable) <==>
            && 3 <= Version(packet[0]) <= 4
            && Mode(packet[0]) == MODE_SERVER
            && 1 <= packet[1] <= 15
            && packet[24..32] == RequestBytes(transmit)[40..48]
  {
    TimestampBytes(packet, 24, transmit);
    var request := RequestBytes(transmit);
    assert request[40..48] == BeBytes(transmit.seconds) + BeBytes(transmit.fraction);
  }

  /** A kiss-o'-death is seen before the echo: whatever its timestamps, a well-formed reply of
      stratum 0 carries a code, and the code is RATE, DENY or RSTR exactly for those letters. */
  lemma KissExactly(packet: seq<Byte>, transmit: Timestamp)
    requires Parse(packet).Ok?
    ensures var r := Parse(packet).value;
      && (Classify(r, transmit) == KissOfDeath <==> packet[1] == 0)
      && (KissOf(r) == Rate <==> packet[1] == 0 && packet[12..16] == RATE)
      && (KissOf(r) == Deny <==> packet[1] == 0 && packet[12..16] == DENY)
      && (KissOf(r) == Restrict <==> packet[1] == 0 && packet[12..16] == RSTR)
      && (KissOf(r) == NoKiss <==> packet[1] != 0)
  {
    BigEndianRoundTrip(0, packet, 12);
  }

  /** The number four bytes spell, the first being the highest. */
  function Spelled(packet: seq<Byte>, offset: nat): int
    requires offset + 4 <= |packet|
  {
    var a: int, b: int, c: int, d: int := packet[offset], packet[offset + 1], packet[offset + 2], packet[offset + 3];
    ((a * 256 + b) * 256 + c) * 256 + d
  }

  /** 32 bits as a signed number. */
  function TwosComplement(n: int): int { if n < 2_147_483_648 then n else n - 4_294_967_296 }

  /** Section 7.3 of RFC 5905: where the fields of a reply are. The root dispersion is the four
      bytes from the eighth, in units of 2^-16 s, within half a nanosecond. */
  lemma ReplyLayout(packet: seq<Byte>)
    requires Parse(packet).Ok?
    ensures |packet| >= 48 && packet[0] % 8 == 4 && 3 <= packet[0] / 8 % 8 <= 4
    ensures var r := Parse(packet).value;
      && r.leap == packet[0] / 64 && r.version == packet[0] / 8 % 8 && r.mode == 4
      && r.stratum == packet[1] && r.poll == packet[2]
      && r.precision == (if packet[3] < 128 then packet[3] as int else packet[3] as int - 256)
      && -32768 <= r.rootDelay * 65536 - TwosComplement(Spelled(packet, 4)) * 1_000_000_000 <= 32768
      && -32768 <= r.rootDispersion * 65536 - Spelled(packet, 8) * 1_000_000_000 <= 32768
      && r.referenceId == Spelled(packet, 12)
      && r.origin.seconds == Spelled(packet, 24) && r.origin.fraction == Spelled(packet, 28)
      && r.receive.seconds == Spelled(packet, 32) && r.receive.fraction == Spelled(packet, 36)
      && r.transmit.seconds == Spelled(packet, 40) && r.transmit.fraction == Spelled(packet, 44)
  {
    ReadSpells(packet, 4);
    ReadSpells(packet, 8);
    ReadSpells(packet, 12);
    FieldSpelled(packet, 24);
    FieldSpelled(packet, 32);
    FieldSpelled(packet, 40);
    FixedScale(ReadBe32(packet, 8));
    FixedScale(Signed(ReadBe32(packet, 4), ERA));
    hide ReadBe32, ReadTimestamp, Spelled, FixedToNanos;
  }

  lemma ReadSpells(packet: seq<Byte>, offset: nat)
    requires offset + 4 <= |packet|
    ensures ReadBe32(packet, offset) == Spelled(packet, offset)
  {}

  lemma FieldSpelled(packet: seq<Byte>, offset: nat)
    requires offset + 8 <= |packet|
    ensures ReadTimestamp(packet, offset).seconds == Spelled(packet, offset)
    ensures ReadTimestamp(packet, offset).fraction == Spelled(packet, offset + 4)
  {
    ReadSpells(packet, offset);
    ReadSpells(packet, offset + 4);
    hide ReadBe32, Spelled;
  }

  /** A reply is refused exactly when it is shorter than 48 bytes, of a version other than 3 and
      4, or of a mode other than 4. */
  lemma ParsedExactly(packet: seq<Byte>)
    ensures Parse(packet).Ok? <==> |packet| >= 48 && 3 <= packet[0] / 8 % 8 <= 4 && packet[0] % 8 == 4
    ensures Parse(packet) == Err(TooShort) <==> |packet| < 48
    ensures Parse(packet) == Err(BadVersion) <==> |packet| >= 48 && !(3 <= packet[0] / 8 % 8 <= 4)
  {
    hide ReadBe32, ReadTimestamp, FixedToNanos, Signed;
  }

  /** The codes are those letters. */
  lemma KissLetters()
    ensures RATE == ['R' as int, 'A' as int, 'T' as int, 'E' as int]
    ensures DENY == ['D' as int, 'E' as int, 'N' as int, 'Y' as int]
    ensures RSTR == ['R' as int, 'S' as int, 'T' as int, 'R' as int]
  {}

  /** Every parsed dispersion is non-negative and below 65536 s. */
  lemma DispersionRange(packet: seq<Byte>)
    requires Parse(packet).Ok?
    ensures 0 <= Parse(packet).value.rootDispersion <= 0x1_0000 * SECOND
  {
    var fixed := ReadBe32(packet, 8);
    var n := fixed * SECOND;
    assert (n + 0x8000) / 0x1_0000 <= 0x1_0000 * SECOND;
  }
}
