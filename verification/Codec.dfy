/**
 * CEC messages and their bytes: the message classes, MessageEncoder and MessageDecoder, on values. The methods that
 * do the same work in place, with the source's loops, are in CodecMethods.
 */
module Codec {
  import opened Base

  type Nibble = x: int | 0 <= x < 16

  datatype Header = Header(from: Nibble, to: Nibble)

  /** The message classes without operands. The last five have no case in the decoder. */
  datatype Plain =
    | ImageViewOn | TextViewOn | RequestActiveSource | Standby | GetCECVersion | GetMenuLanguage | GiveOSDName
    | GivePhysicalAddress | GiveDeviceVendorID | GiveDevicePowerStatus | Abort | UserControlReleased | InitiateArc
    | TerminateArc | GiveFeatures | Polling
    | GiveAudioStatus | RequestArcInitiation | ReportArcInitiation | RequestArcTermination | ReportArcTermination

  /** An operand is the byte string inside a CECBytes; a list of them is one of the classes' vectors. */
  datatype Message =
    | NoOperands(kind: Plain)
    | ActiveSource(address: Bytes)
    | InActiveSource(address: Bytes)
    | CECVersion(version: Bytes)
    | SetMenuLanguage(language: Bytes)
    | SetOSDName(name: Bytes)
    | SetOSDString(text: Bytes)
    | ReportPhysicalAddress(address: Bytes, deviceType: Bytes)
    | DeviceVendorID(vendor: Bytes)
    | ReportPowerStatus(status: Bytes)
    | FeatureAbort(feature: nat, reason: Bytes)
    | RoutingChange(address: Bytes, target: Bytes)
    | RoutingInformation(address: Bytes)
    | SetStreamPath(address: Bytes)
    | RequestShortAudioDescriptor(formats: seq<Bytes>)
    | ReportShortAudioDescriptor(descriptors: seq<Bytes>)
    | SystemAudioModeRequest(address: Bytes)
    | SetSystemAudioMode(status: Bytes)
    | ReportAudioStatus(status: Bytes)
    | UserControlPressed(command: Bytes)
    | ReportFeatures(version: Bytes, types: Bytes, rc: seq<Bytes>, features: seq<Bytes>)
    | RequestCurrentLatency(address: Bytes)
    | ReportCurrentLatency(address: Bytes, latency: seq<Bytes>)

  /** The code the source gives to the message that has no opcode byte. */
  const POLLING := 0x200

  function PlainOpcode(k: Plain): nat {
    match k
    case ImageViewOn => 0x04
    case TextViewOn => 0x0D
    case RequestActiveSource => 0x85
    case Standby => 0x36
    case GetCECVersion => 0x9F
    case GetMenuLanguage => 0x91
    case GiveOSDName => 0x46
    case GivePhysicalAddress => 0x83
    case GiveDeviceVendorID => 0x8C
    case GiveDevicePowerStatus => 0x8F
    case Abort => 0xFF
    case UserControlReleased => 0x45
    case InitiateArc => 0xC0
    case TerminateArc => 0xC5
    case GiveFeatures => 0xA5
    case Polling => POLLING
    case GiveAudioStatus => 0x71
    case RequestArcInitiation => 0xC3
    case ReportArcInitiation => 0xC1
    case RequestArcTermination => 0xC4
    case ReportArcTermination => 0xC2
  }

  function Opcode(m: Message): nat {
    match m
    case NoOperands(k) => PlainOpcode(k)
    case ActiveSource(_) => 0x82
    case InActiveSource(_) => 0x9D
    case CECVersion(_) => 0x9E
    case SetMenuLanguage(_) => 0x32
    case SetOSDName(_) => 0x47
    case SetOSDString(_) => 0x64
    case ReportPhysicalAddress(_, _) => 0x84
    case DeviceVendorID(_) => 0x87
    case ReportPowerStatus(_) => 0x90
    case FeatureAbort(_, _) => 0x00
    case RoutingChange(_, _) => 0x80
    case RoutingInformation(_) => 0x81
    case SetStreamPath(_) => 0x86
    case RequestShortAudioDescriptor(_) => 0xA4
    case ReportShortAudioDescriptor(_) => 0xA3
    case SystemAudioModeRequest(_) => 0x70
    case SetSystemAudioMode(_) => 0x72
    case ReportAudioStatus(_) => 0x7A
    case UserControlPressed(_) => 0x44
    case ReportFeatures(_, _, _, _) => 0xA6
    case RequestCurrentLatency(_) => 0xA7
    case ReportCurrentLatency(_, _) => 0xA8
  }

  // ---- encoding

  function Flatten(parts: seq<Bytes>): Bytes {
    if parts == [] then [] else parts[0] + Flatten(parts[1..])
  }

  /** OpCode::serialize: nothing for POLLING, otherwise the low byte. */
  function OpcodeBytes(op: nat): Bytes {
    if op == POLLING then [] else [op % 256]
  }

  /** The address F.F.F.F stands for "not given" in two messages, and is not sent. */
  function Optional(address: Bytes): Bytes {
    if address == [0xFF, 0xFF] then [] else address
  }

  function Operands(m: Message): Bytes {
    match m
    case NoOperands(_) => []
    case ActiveSource(a) => a
    case InActiveSource(a) => a
    case CECVersion(v) => v
    case SetMenuLanguage(l) => l
    case SetOSDName(n) => n
    case SetOSDString(t) => t
    case ReportPhysicalAddress(a, d) => a + d
    case DeviceVendorID(v) => v
    case ReportPowerStatus(p) => p
    case FeatureAbort(f, r) => OpcodeBytes(f) + r
    case RoutingChange(a, b) => a + b
    case RoutingInformation(a) => a
    case SetStreamPath(a) => a
    case RequestShortAudioDescriptor(fs) => Flatten(fs)
    case ReportShortAudioDescriptor(ds) => Flatten(ds)
    case SystemAudioModeRequest(a) => Optional(a)
    case SetSystemAudioMode(p) => p
    case ReportAudioStatus(p) => p
    case UserControlPressed(c) => c
    case ReportFeatures(v, t, rc, fs) => v + t + Flatten(rc) + Flatten(fs)
    case RequestCurrentLatency(a) => Optional(a)
    case ReportCurrentLatency(a, l) => a + Flatten(l)
  }

  function HeaderByte(h: Header): Byte {
    h.from * 16 + h.to
  }

  function Assembled(h: Header, op: nat, operands: Bytes): Bytes {
    [HeaderByte(h)] + OpcodeBytes(op) + operands
  }

  function Encode(h: Header, m: Message): Bytes {
    Assembled(h, Opcode(m), Operands(m))
  }

  // ---- decoding

  /** Rejected: an exception the decoder catches. Undefined: the source computes with a wrapped-around length. */
  datatype Parsed<+T> = Accepted(value: T) | Rejected | Undefined {
    predicate IsFailure() {
      !Accepted?
    }

    function PropagateFailure<U>(): Parsed<U>
      requires IsFailure()
    {
      if Rejected? then Rejected else Undefined
    }

    function Extract(): T
      requires !IsFailure()
    {
      value
    }
  }

  /**
   * The frame constructor of CECBytes. It cuts the length to what is left of the frame and rejects an empty operand;
   * the subclasses' own limits are not in force yet when it runs.
   */
  function Slice(operands: Bytes, start: nat, count: nat): Parsed<Bytes> {
    if start > |operands| then Undefined
    else
      var n := if start + count > |operands| then |operands| - start else count;
      if n == 0 then Rejected else Accepted(operands[start..start + n])
  }

  predicate Extended(b: Byte) { b >= 0x80 }

  /** One more than the number of bytes with bit 7 set in a row from `i` on. */
  function ChainLength(s: Bytes, i: nat): (n: nat)
    ensures 1 <= n
    ensures i <= |s| ==> n <= |s| - i + 1
    decreases |s| - i
  {
    if i < |s| && Extended(s[i]) then 1 + ChainLength(s, i + 1) else 1
  }

  function Singles(s: Bytes): seq<Bytes> {
    if s == [] then [] else [[s[0]]] + Singles(s[1..])
  }

  /** The whole groups of three bytes. */
  function Triples(s: Bytes): seq<Bytes> {
    if |s| < 3 then [] else [s[..3]] + Triples(s[3..])
  }

  function ParseFeatures(s: Bytes): Parsed<Message> {
    var version :- Slice(s, 0, 1);
    var types :- Slice(s, 1, 1);
    var rcLength := ChainLength(s, 2);
    var rc :- Slice(s, 2, rcLength);
    var features :- Slice(s, 2 + rcLength, ChainLength(s, 2 + rcLength));
    Accepted(ReportFeatures(version, types, [rc], [features]))
  }

  function ParseLatency(s: Bytes): Parsed<Message> {
    var address :- Slice(s, 0, 2);
    var n := if |s| > 5 then 5 else |s|;
    if n < 2 then Undefined
    else
      var latency :- Slice(s, 2, n - 2);
      Accepted(ReportCurrentLatency(address, [latency]))
  }

  function PlainOf(op: nat): Option<Plain> {
    match op
    case 0x04 => Some(ImageViewOn)
    case 0x0D => Some(TextViewOn)
    case 0x85 => Some(RequestActiveSource)
    case 0x36 => Some(Standby)
    case 0x9F => Some(GetCECVersion)
    case 0x91 => Some(GetMenuLanguage)
    case 0x46 => Some(GiveOSDName)
    case 0x83 => Some(GivePhysicalAddress)
    case 0x8C => Some(GiveDeviceVendorID)
    case 0x8F => Some(GiveDevicePowerStatus)
    case 0xFF => Some(Abort)
    case 0x45 => Some(UserControlReleased)
    case 0xC0 => Some(InitiateArc)
    case 0xC5 => Some(TerminateArc)
    case 0xA5 => Some(GiveFeatures)
    case _ => None
  }

  /** The decoder's cases with operands; None where it has no case, or only an empty one. */
  function ParseOperands(op: nat, s: Bytes): Option<Parsed<Message>> {
    match op
    case 0x82 => Some(var a :- Slice(s, 0, 2); Accepted(ActiveSource(a)))
    case 0x9D => Some(var a :- Slice(s, 0, 2); Accepted(InActiveSource(a)))
    case 0x9E => Some(var v :- Slice(s, 0, 1); Accepted(CECVersion(v)))
    case 0x32 => Some(var l :- Slice(s, 0, 3); Accepted(SetMenuLanguage(l)))
    case 0x47 => Some(var n :- Slice(s, 0, 14); Accepted(SetOSDName(n)))
    case 0x64 => Some(var t :- Slice(s, 0, 13); Accepted(SetOSDString(t)))
    case 0x84 => Some(var a :- Slice(s, 0, 2); var d :- Slice(s, 2, 1); Accepted(ReportPhysicalAddress(a, d)))
    case 0x87 => Some(var v :- Slice(s, 0, 3); Accepted(DeviceVendorID(v)))
    case 0x90 => Some(var p :- Slice(s, 0, 1); Accepted(ReportPowerStatus(p)))
    case 0x00 => Some(if s == [] then Rejected else var r :- Slice(s, 1, 1); Accepted(FeatureAbort(s[0], r)))
    case 0x80 => Some(var a :- Slice(s, 0, 2); var b :- Slice(s, 2, 2); Accepted(RoutingChange(a, b)))
    case 0x81 => Some(var a :- Slice(s, 0, 2); Accepted(RoutingInformation(a)))
    case 0x86 => Some(var a :- Slice(s, 0, 2); Accepted(SetStreamPath(a)))
    case 0xA4 => Some(Accepted(RequestShortAudioDescriptor(Singles(if |s| > 4 then s[..4] else s))))
    case 0xA3 => Some(Accepted(ReportShortAudioDescriptor(Triples(s))))
    case 0x70 => Some(var a :- Slice(s, 0, 2); Accepted(SystemAudioModeRequest(a)))
    case 0x72 => Some(var p :- Slice(s, 0, 1); Accepted(SetSystemAudioMode(p)))
    case 0x7A => Some(var p :- Slice(s, 0, 1); Accepted(ReportAudioStatus(p)))
    case 0x44 => Some(var c :- Slice(s, 0, 1); Accepted(UserControlPressed(c)))
    case 0xA6 => Some(ParseFeatures(s))
    case 0xA7 => Some(var a :- Slice(s, 0, 2); Accepted(RequestCurrentLatency(a)))
    case 0xA8 => Some(ParseLatency(s))
    case _ => None
  }

  /** What MessageDecoder::decode comes to: one call of `process`, or none. */
  datatype Decoded =
    | Processed(message: Message, header: Header)
    | Ignored
    | Dropped
    | Thrown
    | Unspecified

  /** The decoder's switch. */
  function Dispatch(op: Byte, operands: Bytes, h: Header): Decoded {
    if PlainOf(op).Some? then Processed(NoOperands(PlainOf(op).value), h)
    else match ParseOperands(op, operands)
      case None => Ignored
      case Some(Accepted(m)) => Processed(m, h)
      case Some(Rejected) => Dropped
      case Some(Undefined) => Unspecified
  }

  function Decode(frame: Bytes): Decoded {
    if frame == [] then Thrown
    else
      var h := Header(High(frame[0]), Low(frame[0]));
      if |frame| == 1 then Processed(NoOperands(Polling), h) else Dispatch(frame[1], frame[2..], h)
  }

  /** A message on its way through a fresh frame; encoding one that does not fit throws, and nothing is decoded. */
  function Conveyed(h: Header, m: Message): Decoded {
    if |Encode(h, m)| > MAX_LENGTH then Thrown else Decode(Encode(h, m))
  }
}
