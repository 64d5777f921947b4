/** Native control frames and the classification of the server's replies. */
module ControlFrames {
  import opened Prelude

  const MAGIC: Bytes := [0x41, 0x41, 0x42, 0x42]
  const NATIVE_CONTROL_FRAME_LEN: nat := 40
  const COMMAND_REPLY_BODY_EXPECTED_LEN: nat := 36
  const COMMAND_REPLY_MIN_LEN: nat := 4

  datatype NativeControlType =
    | SendIp
    | RxAck
    | TxAck
    | ServerReset
    | Recovered
    | IpBusy
    | Shutdown
    | IpConflict
    | IpKick
    | Heartbeat
    | Unknown(code: u32)
  {
    function Code(): u32 {
      match this
      case SendIp => 0
      case RxAck => 1
      case TxAck => 2
      case ServerReset => 3
      case Recovered => 4
      case IpBusy => 5
      case Shutdown => 8
      case IpConflict => 9
      case IpKick => 14
      case Heartbeat => 15
      case Unknown(v) => v
    }
  }

  function FromCode(code: u32): NativeControlType {
    match code
    case 0 => SendIp
    case 1 => RxAck
    case 2 => TxAck
    case 3 => ServerReset
    case 4 => Recovered
    case 5 => IpBusy
    case 8 => Shutdown
    case 9 => IpConflict
    case 14 => IpKick
    case 15 => Heartbeat
    case v => Unknown(v)
  }

  /** No code is lost, and the only types that do not survive are unknown types carrying a known
      code, which `FromCode` never makes. */
  lemma CodesRoundTrip(code: u32, t: NativeControlType)
    ensures FromCode(code).Code() == code
    ensures FromCode(t.Code()) == t <==> (t.Unknown? ==> t.code !in {0, 1, 2, 3, 4, 5, 8, 9, 14, 15})
  {
  }

  /** The codes of the protocol. */
  lemma CodeTable()
    ensures [SendIp.Code(), RxAck.Code(), TxAck.Code(), ServerReset.Code(), Recovered.Code(), IpBusy.Code()]
            == [0, 1, 2, 3, 4, 5]
    ensures [Shutdown.Code(), IpConflict.Code(), IpKick.Code(), Heartbeat.Code()] == [8, 9, 14, 15]
  {
  }

  predicate StartsWith(data: Bytes, prefix: Bytes) {
    |prefix| <= |data| && data[..|prefix|] == prefix
  }

  function CodeAt(data: Bytes, i: nat): u32
    requires i + 4 <= |data|
  {
    FromLittleEndian32(data[i], data[i + 1], data[i + 2], data[i + 3])
  }

  function ParseNativeControlFrame(data: Bytes): Option<NativeControlType> {
    if |data| != NATIVE_CONTROL_FRAME_LEN || !StartsWith(data, MAGIC) then None
    else Some(FromCode(CodeAt(data, 4)))
  }

  datatype WireError = InvalidFrame | TooShort

  function ParseCommandControlReply(data: Bytes): Result<NativeControlType, WireError> {
    if StartsWith(data, MAGIC) then
      match ParseNativeControlFrame(data)
      case Some(t) => Ok(t)
      case None => Err(InvalidFrame)
    else if |data| < COMMAND_REPLY_MIN_LEN then Err(TooShort)
    else Ok(FromCode(CodeAt(data, 0)))
  }

  // ---------------------------------------------------------------- stream acknowledgements

  datatype StreamProfile = Rx | Tx
  {
    function ExpectedAck(): NativeControlType {
      match this
      case Rx => RxAck
      case Tx => TxAck
    }
  }

  datatype StreamAckReply = Expected | UnexpectedControl(control: NativeControlType) | NonControl

  datatype StreamOpenError = Retryable | Fatal(control: NativeControlType)

  function First(data: Bytes): Option<u8> {
    if data == [] then None else Some(data[0])
  }

  function TryU8(code: u32): Option<u8> {
    if code < 0x100 then Some(code) else None
  }

  function LegacyStreamAckMatches(reply: Bytes, expected: NativeControlType): bool {
    First(reply) == TryU8(expected.Code())
  }

  function Against(control: NativeControlType, expected: NativeControlType): StreamAckReply {
    if control == expected then Expected else UnexpectedControl(control)
  }

  function ClassifyStreamAckReply(reply: Bytes, expected: NativeControlType): StreamAckReply {
    match ParseNativeControlFrame(reply)
    case Some(control) => Against(control, expected)
    case None =>
      if LegacyStreamAckMatches(reply, expected) then Expected
      else if |reply| == COMMAND_REPLY_BODY_EXPECTED_LEN && ParseCommandControlReply(reply).Ok? then
        Against(ParseCommandControlReply(reply).value, expected)
      else NonControl
  }

  predicate IsTerminalStreamControl(control: NativeControlType) {
    control.Shutdown? || control.IpKick? || control.IpConflict?
  }

  /** No error, or why the handshake is not acknowledged. */
  function ValidateStreamAck(profile: StreamProfile, reply: Bytes): Option<StreamOpenError> {
    match ClassifyStreamAckReply(reply, profile.ExpectedAck())
    case Expected => None
    case UnexpectedControl(control) => Some(if IsTerminalStreamControl(control) then Fatal(control) else Retryable)
    case NonControl => Some(Retryable)
  }

  /** A frame: 40 bytes that begin with "AABB". */
  predicate IsFrame(reply: Bytes) {
    |reply| == 40 && reply[..4] == [0x41, 0x41, 0x42, 0x42]
  }

  /** The four bytes of a code that ends the session: 8, 9 or 14. */
  predicate IsTerminalCode(code: Bytes) {
    code == [8, 0, 0, 0] || code == [9, 0, 0, 0] || code == [14, 0, 0, 0]
  }

  /** The number of four bytes, the least significant first. */
  function LeastFirst(a: int, b: int, c: int, d: int): int {
    a + 256 * b + 65536 * c + 16777216 * d
  }

  /** A code is four bytes, the least significant first. */
  lemma CodeBytes(data: Bytes, i: nat, code: u8)
    requires i + 4 <= |data|
    ensures CodeAt(data, i) == code <==> data[i..i + 4] == [code, 0, 0, 0]
    ensures CodeAt(data, i) == LeastFirst(data[i], data[i + 1], data[i + 2], data[i + 3])
  {
    assert data[i..i + 4] == [data[i], data[i + 1], data[i + 2], data[i + 3]];
  }

  lemma CodesBytes(data: Bytes, i: nat)
    requires i + 4 <= |data|
    ensures forall code: u8 :: code in {1, 2, 8, 9, 14, 15} ==>
              (CodeAt(data, i) == code <==> data[i..i + 4] == [code, 0, 0, 0])
  {
    forall code: u8 ensures CodeAt(data, i) == code <==> data[i..i + 4] == [code, 0, 0, 0] {
      CodeBytes(data, i, code);
    }
  }

  /** Over all byte strings: accepted are the frames with the expected code and the non-frames whose
      first byte is that code; fatal are the codes 8, 9 and 14 in a frame or in a 36-byte body;
      everything else is retried. */
  lemma StreamAckClassification(profile: StreamProfile, reply: Bytes)
    ensures var code: u8 := if profile.Rx? then 1 else 2;
            && (ValidateStreamAck(profile, reply).None? <==>
                  if IsFrame(reply) then reply[4..8] == [code, 0, 0, 0] else reply != [] && reply[0] == code)
            && (ValidateStreamAck(profile, reply).Some? && ValidateStreamAck(profile, reply).value.Fatal? <==>
                  if IsFrame(reply) then IsTerminalCode(reply[4..8]) else |reply| == 36 && IsTerminalCode(reply[..4]))
  {
    var expected := profile.ExpectedAck();
    if IsFrame(reply) {
      CodesRoundTrip(CodeAt(reply, 4), expected);
      CodesBytes(reply, 4);
    } else if |reply| == 36 {
      CodesRoundTrip(CodeAt(reply, 0), expected);
      CodesBytes(reply, 0);
    }
  }

  /** The branch for 36-byte bodies never acknowledges: a body with the expected code has it as its
      first byte, which the legacy test has already accepted. */
  lemma BodyBranchNeverAcknowledges(profile: StreamProfile, reply: Bytes)
    requires ParseNativeControlFrame(reply).None? && !LegacyStreamAckMatches(reply, profile.ExpectedAck())
    requires |reply| == COMMAND_REPLY_BODY_EXPECTED_LEN && ParseCommandControlReply(reply).Ok?
    ensures ParseCommandControlReply(reply).value != profile.ExpectedAck()
  {
    CodesRoundTrip(CodeAt(reply, 0), profile.ExpectedAck());
  }

  // ---------------------------------------------------------------- received data

  datatype RxVerdict = Skip | Forward | Reject(control: NativeControlType)

  /** Acknowledgements are swallowed, data is passed on, any other control frame is an error. */
  function ShouldForwardRxPayload(data: Bytes): RxVerdict {
    match ParseNativeControlFrame(data)
    case Some(RxAck) => Skip
    case Some(control) => Reject(control)
    case None => Forward
  }

  /** Everything is passed on but 40-byte frames; of these the one with code 1 is swallowed, and any other
      ends the stream with its code. */
  lemma ReceivedDataMeaning(data: Bytes)
    ensures ShouldForwardRxPayload(data) == Forward <==> !IsFrame(data)
    ensures ShouldForwardRxPayload(data) == Skip <==> IsFrame(data) && data[4..8] == [1, 0, 0, 0]
    ensures IsFrame(data) && data[4..8] != [1, 0, 0, 0] ==>
              && ShouldForwardRxPayload(data).Reject?
              && ShouldForwardRxPayload(data).control.Code() == LeastFirst(data[4], data[5], data[6], data[7])
  {
    if IsFrame(data) {
      CodeBytes(data, 4, 1);
      CodesRoundTrip(CodeAt(data, 4), RxAck);
    }
  }

  // ---------------------------------------------------------------- command heartbeats

  datatype HeartbeatIo = WriteFailed | ReadFailed | Replied(reply: Bytes)

  datatype HeartbeatOutcome = Acked | RetryableFailure | FatalFailure

  function ClassifyCommandHeartbeatReply(data: Bytes): HeartbeatOutcome {
    match ParseCommandControlReply(data)
    case Err(_) => FatalFailure
    case Ok(Heartbeat) => Acked
    case Ok(_) => FatalFailure
  }

  function SendCommandHeartbeat(io: HeartbeatIo): HeartbeatOutcome {
    match io
    case WriteFailed => RetryableFailure
    case ReadFailed => RetryableFailure
    case Replied(reply) => if reply == [] then RetryableFailure else ClassifyCommandHeartbeatReply(reply)
  }

  /** A heartbeat is retried exactly when no reply byte came; a reply is an acknowledgement exactly
      when it carries code 15, in a 40-byte frame if it begins with "AABB". */
  lemma HeartbeatClassification(io: HeartbeatIo)
    ensures SendCommandHeartbeat(io) == RetryableFailure <==> (io.Replied? ==> io.reply == [])
    ensures SendCommandHeartbeat(io) == Acked <==>
              io.Replied? && |io.reply| >= 4
              && (if io.reply[..4] == [0x41, 0x41, 0x42, 0x42] then IsFrame(io.reply) && io.reply[4..8] == [15, 0, 0, 0]
                  else io.reply[..4] == [15, 0, 0, 0])
  {
    if io.Replied? && |io.reply| >= 8 {
      CodesRoundTrip(CodeAt(io.reply, 4), Heartbeat);
      CodeBytes(io.reply, 4, 15);
    }
    if io.Replied? && |io.reply| >= 4 {
      CodesRoundTrip(CodeAt(io.reply, 0), Heartbeat);
      CodeBytes(io.reply, 0, 15);
    }
  }
}
