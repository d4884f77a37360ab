/** Serialising and parsing as the source does them: into a frame, out of a frame, with its loops. */
module CodecMethods {
  import opened Base
  import opened Frames
  import opened Codec
  import opened CodecProofs

  // ---- encoding: ok is false where the source lets out_of_range escape, with a full frame left behind

  /** Header::serialize: append the destination, then put the initiator into the high half of the byte just written. */
  method AppendHeader(h: Header, out: CECFrame) returns (ok: bool)
    requires out.Valid()
    modifies out, out.buf
    ensures out.Valid()
    ensures ok <==> |old(out.Contents())| < MAX_LENGTH
    ensures out.Contents() == Clip(old(out.Contents()) + [HeaderByte(h)])
  {
    ok := out.Append(h.to);
    if !ok {
      assert old(out.Contents()) == (old(out.Contents()) + [HeaderByte(h)])[..MAX_LENGTH];
      return;
    }
    var last := out.len - 1;
    var b := out.At(last);
    ok := out.Put(last, h.from * 16 + b.value);
  }

  method AppendOpcode(op: nat, out: CECFrame) returns (ok: bool)
    requires out.Valid()
    modifies out, out.buf
    ensures out.Valid()
    ensures ok <==> |old(out.Contents())| + |OpcodeBytes(op)| <= MAX_LENGTH
    ensures out.Contents() == Clip(old(out.Contents()) + OpcodeBytes(op))
  {
    if op == POLLING {
      assert old(out.Contents()) + [] == old(out.Contents());
      return true;
    }
    ok := out.AppendBytes([op % 256]);
  }

  /** Appending in two goes, of which the second does not happen when the first fails. */
  lemma ClipTwice(start: Bytes, first: Bytes, second: Bytes)
    ensures |start + first| <= MAX_LENGTH ==> Clip(start + first) + second == start + (first + second)
    ensures |start + first| > MAX_LENGTH ==> Clip(start + first) == Clip(start + (first + second))
  {
    assert (start + first) + second == start + (first + second);
  }

  /** The loops over operand vectors: the serialize methods of four message classes. */
  method AppendAll(parts: seq<Bytes>, out: CECFrame) returns (ok: bool)
    requires out.Valid()
    modifies out, out.buf
    ensures out.Valid()
    ensures ok <==> |old(out.Contents())| + |Flatten(parts)| <= MAX_LENGTH
    ensures out.Contents() == Clip(old(out.Contents()) + Flatten(parts))
  {
    ghost var start := out.Contents();
    ok := true;
    assert parts[..0] == [] && start + [] == start;
    for i := 0 to |parts|
      invariant out.Valid() && ok
      invariant out.Contents() == start + Flatten(parts[..i])
    {
      FlattenAppend(parts[..i], parts[i]);
      assert parts[..i + 1] == parts[..i] + [parts[i]];
      assert start + Flatten(parts[..i + 1]) == (start + Flatten(parts[..i])) + parts[i];
      ok := out.AppendBytes(parts[i]);
      if !ok {
        FlattenPrefix(parts, i + 1);
        var more :| Flatten(parts) == Flatten(parts[..i + 1]) + more;
        ClipTwice(start, Flatten(parts[..i + 1]), more);
        return;
      }
    }
    assert parts[..|parts|] == parts;
  }

  lemma {:induction false} FlattenAppend(parts: seq<Bytes>, part: Bytes)
    ensures Flatten(parts + [part]) == Flatten(parts) + part
  {
    if parts == [] {
      FlattenOne(part);
    } else {
      FlattenAppend(parts[1..], part);
      assert (parts + [part])[1..] == parts[1..] + [part];
    }
  }

  lemma {:induction false} FlattenPrefix(parts: seq<Bytes>, n: nat)
    requires n <= |parts|
    ensures exists more :: Flatten(parts) == Flatten(parts[..n]) + more
  {
    if n == 0 {
      assert Flatten(parts) == Flatten(parts[..0]) + Flatten(parts);
    } else {
      FlattenPrefix(parts[1..], n - 1);
      assert parts[..n][1..] == parts[1..][..n - 1];
      var more :| Flatten(parts[1..]) == Flatten(parts[1..][..n - 1]) + more;
      assert Flatten(parts) == Flatten(parts[..n]) + more;
    }
  }

  method AppendTwo(first: Bytes, rest: seq<Bytes>, out: CECFrame) returns (ok: bool)
    requires out.Valid()
    modifies out, out.buf
    ensures out.Valid()
    ensures ok <==> |old(out.Contents())| + |first + Flatten(rest)| <= MAX_LENGTH
    ensures out.Contents() == Clip(old(out.Contents()) + (first + Flatten(rest)))
  {
    ClipTwice(out.Contents(), first, Flatten(rest));
    ok := out.AppendBytes(first);
    if ok {
      ok := AppendAll(rest, out);
    }
  }

  method AppendFeatures(v: Bytes, t: Bytes, rc: seq<Bytes>, fs: seq<Bytes>, out: CECFrame) returns (ok: bool)
    requires out.Valid()
    modifies out, out.buf
    ensures out.Valid()
    ensures ok <==> |old(out.Contents())| + |v + t + Flatten(rc) + Flatten(fs)| <= MAX_LENGTH
    ensures out.Contents() == Clip(old(out.Contents()) + (v + t + Flatten(rc) + Flatten(fs)))
  {
    ClipTwice(out.Contents(), v + t + Flatten(rc), Flatten(fs));
    ok := AppendTwo(v + t, rc, out);
    if ok {
      ok := AppendAll(fs, out);
    }
  }

  method AppendPair(first: Bytes, second: Bytes, out: CECFrame) returns (ok: bool)
    requires out.Valid()
    modifies out, out.buf
    ensures out.Valid()
    ensures ok <==> |old(out.Contents())| + |first + second| <= MAX_LENGTH
    ensures out.Contents() == Clip(old(out.Contents()) + (first + second))
  {
    ClipTwice(out.Contents(), first, second);
    ok := out.AppendBytes(first);
    if ok {
      ok := out.AppendBytes(second);
    }
  }

  /** Feature Abort starts with an opcode, serialised like the one of the message itself. */
  method AppendAbort(feature: nat, reason: Bytes, out: CECFrame) returns (ok: bool)
    requires out.Valid()
    modifies out, out.buf
    ensures out.Valid()
    ensures ok <==> |old(out.Contents())| + |OpcodeBytes(feature) + reason| <= MAX_LENGTH
    ensures out.Contents() == Clip(old(out.Contents()) + (OpcodeBytes(feature) + reason))
  {
    ClipTwice(out.Contents(), OpcodeBytes(feature), reason);
    ok := AppendOpcode(feature, out);
    if ok {
      ok := out.AppendBytes(reason);
    }
  }

  /** The two messages that send nothing for the address F.F.F.F, all four digits of which they look at. */
  method AppendOptional(address: Bytes, out: CECFrame) returns (ok: bool)
    requires out.Valid() && |address| >= 2
    modifies out, out.buf
    ensures out.Valid()
    ensures ok <==> |old(out.Contents())| + |Optional(address)| <= MAX_LENGTH
    ensures out.Contents() == Clip(old(out.Contents()) + Optional(address))
  {
    if |address| == 2 && High(address[0]) == 15 && Low(address[0]) == 15 && High(address[1]) == 15 && Low(address[1]) == 15 {
      assert address == [0xFF, 0xFF];
      assert old(out.Contents()) + [] == old(out.Contents());
      return true;
    }
    ok := out.AppendBytes(address);
  }

  /** The messages that consist of one operand. */
  method AppendSingle(m: Message, out: CECFrame) returns (ok: bool)
    requires out.Valid() && IsSingle(m)
    modifies out, out.buf
    ensures out.Valid()
    ensures ok <==> |old(out.Contents())| + |Operands(m)| <= MAX_LENGTH
    ensures out.Contents() == Clip(old(out.Contents()) + Operands(m))
  {
    var operand := match m {
      case ActiveSource(a) => a
      case InActiveSource(a) => a
      case CECVersion(v) => v
      case SetMenuLanguage(l) => l
      case SetOSDName(n) => n
      case SetOSDString(s) => s
      case DeviceVendorID(v) => v
      case ReportPowerStatus(s) => s
      case RoutingInformation(a) => a
      case SetStreamPath(a) => a
      case SetSystemAudioMode(s) => s
      case ReportAudioStatus(s) => s
      case UserControlPressed(c) => c
    };
    ok := out.AppendBytes(operand);
  }

  predicate IsSingle(m: Message) {
    m.ActiveSource? || m.InActiveSource? || m.CECVersion? || m.SetMenuLanguage? || m.SetOSDName? || m.SetOSDString?
    || m.DeviceVendorID? || m.ReportPowerStatus? || m.RoutingInformation? || m.SetStreamPath? || m.SetSystemAudioMode?
    || m.ReportAudioStatus? || m.UserControlPressed?
  }

  /** The `serialize` of each message class. */
  method AppendOperands(m: Message, out: CECFrame) returns (ok: bool)
    requires out.Valid() && EncodeDefined(m)
    modifies out, out.buf
    ensures out.Valid()
    ensures ok <==> |old(out.Contents())| + |Operands(m)| <= MAX_LENGTH
    ensures out.Contents() == Clip(old(out.Contents()) + Operands(m))
  {
    if IsSingle(m) {
      ok := AppendSingle(m, out);
    } else {
      ok := AppendSeveral(m, out);
    }
  }

  method AppendSeveral(m: Message, out: CECFrame) returns (ok: bool)
    requires out.Valid() && EncodeDefined(m) && !IsSingle(m)
    modifies out, out.buf
    ensures out.Valid()
    ensures ok <==> |old(out.Contents())| + |Operands(m)| <= MAX_LENGTH
    ensures out.Contents() == Clip(old(out.Contents()) + Operands(m))
  {
    match m {
      case NoOperands(_) =>
        assert out.Contents() + [] == out.Contents();
        ok := true;
      case ReportPhysicalAddress(a, d) => ok := AppendPair(a, d, out);
      case RoutingChange(a, b) => ok := AppendPair(a, b, out);
      case FeatureAbort(f, r) => ok := AppendAbort(f, r, out);
      case SystemAudioModeRequest(a) => ok := AppendOptional(a, out);
      case RequestCurrentLatency(a) => ok := AppendOptional(a, out);
      case RequestShortAudioDescriptor(fs) => ok := AppendAll(fs, out);
      case ReportShortAudioDescriptor(ds) => ok := AppendAll(ds, out);
      case ReportCurrentLatency(a, l) => ok := AppendTwo(a, l, out);
      case ReportFeatures(v, t, rc, fs) => ok := AppendFeatures(v, t, rc, fs, out);
    }
  }

  /** MessageEncoder::encode: the whole message behind whatever the frame already holds. */
  method EncodeInto(h: Header, m: Message, out: CECFrame) returns (ok: bool)
    requires out.Valid() && EncodeDefined(m)
    modifies out, out.buf
    ensures out.Valid()
    ensures ok <==> |old(out.Contents())| + |Encode(h, m)| <= MAX_LENGTH
    ensures out.Contents() == Clip(old(out.Contents()) + Encode(h, m))
  {
    var head, op := [HeaderByte(h)], OpcodeBytes(Opcode(m));
    ClipTwice(out.Contents(), head, op);
    ClipTwice(out.Contents(), head + op, Operands(m));
    assert out.Contents() + Encode(h, m) == out.Contents() + (head + op + Operands(m));
    ok := AppendHeader(h, out);
    if ok {
      ok := AppendOpcode(Opcode(m), out);
    }
    if ok {
      ok := AppendOperands(m, out);
    }
  }

  // ---- decoding

  /** The frame constructor of CECBytes. */
  method CutOperand(frame: CECFrame, start: nat, count: nat) returns (p: Parsed<Bytes>)
    requires frame.Valid()
    ensures p == Slice(frame.Contents(), start, count)
  {
    if start > frame.len {
      return Undefined;
    }
    var n := if start + count > frame.len then frame.len - start else count;
    assert frame.buf[start..start + n] == frame.Contents()[start..start + n];
    return if n == 0 then Rejected else Accepted(frame.buf[start..start + n]);
  }

  /** The two loops of ReportFeatures that follow the extension bits. */
  method MeasureChain(frame: CECFrame, start: nat) returns (n: nat)
    requires frame.Valid()
    ensures n == ChainLength(frame.Contents(), start)
  {
    var i := start;
    n := 1;
    while i < frame.len && Extended(frame.buf[i])
      invariant i >= start && n >= 1
      invariant n - 1 + ChainLength(frame.Contents(), i) == ChainLength(frame.Contents(), start)
    {
      n, i := n + 1, i + 1;
    }
  }

  method FeaturesFrom(frame: CECFrame) returns (p: Parsed<Message>)
    requires frame.Valid()
    ensures p == ParseFeatures(frame.Contents())
  {
    var version := CutOperand(frame, 0, 1);
    if version.IsFailure() { return version.PropagateFailure(); }
    var types := CutOperand(frame, 1, 1);
    if types.IsFailure() { return types.PropagateFailure(); }
    var rcLength := MeasureChain(frame, 2);
    var rc := CutOperand(frame, 2, rcLength);
    if rc.IsFailure() { return rc.PropagateFailure(); }
    var length := MeasureChain(frame, 2 + rcLength);
    var features := CutOperand(frame, 2 + rcLength, length);
    if features.IsFailure() { return features.PropagateFailure(); }
    return Accepted(ReportFeatures(version.value, types.value, [rc.value], [features.value]));
  }

  method FormatsFrom(frame: CECFrame) returns (formats: seq<Bytes>)
    requires frame.Valid()
    ensures ParseOperands(0xA4, frame.Contents()) == Some(Accepted(RequestShortAudioDescriptor(formats)))
  {
    var number := if frame.len > 4 then 4 else frame.len;
    ghost var s := frame.Contents()[..number];
    formats := [];
    assert s[0..] == s;
    for i := 0 to number
      invariant formats + Singles(s[i..]) == Singles(s)
    {
      var format := CutOperand(frame, i, 1);
      assert frame.Contents()[i..i + 1] == [s[i]] && s[i..][1..] == s[i + 1..];
      assert formats + Singles(s[i..]) == (formats + [[s[i]]]) + Singles(s[i + 1..]);
      formats := formats + [format.value];
    }
    assert formats + [] == formats;
    assert frame.len <= 4 ==> s == frame.Contents();
  }

  method DescriptorsFrom(frame: CECFrame) returns (descriptors: seq<Bytes>)
    requires frame.Valid()
    ensures ParseOperands(0xA3, frame.Contents()) == Some(Accepted(ReportShortAudioDescriptor(descriptors)))
  {
    ghost var s := frame.Contents();
    descriptors := [];
    assert s[3 * 0..] == s;
    for i := 0 to frame.len / 3
      invariant descriptors + Triples(s[3 * i..]) == Triples(s)
    {
      var descriptor := CutOperand(frame, 3 * i, 3);
      ghost var rest := s[3 * i..];
      assert rest[3..] == s[3 * (i + 1)..] && rest[..3] == s[3 * i..3 * i + 3];
      assert descriptors + Triples(rest) == (descriptors + [rest[..3]]) + Triples(rest[3..]);
      descriptors := descriptors + [descriptor.value];
    }
    assert descriptors + [] == descriptors;
  }

  method LatencyFrom(frame: CECFrame) returns (p: Parsed<Message>)
    requires frame.Valid()
    ensures p == ParseLatency(frame.Contents())
  {
    var address := CutOperand(frame, 0, 2);
    if address.IsFailure() { return address.PropagateFailure(); }
    var length := if frame.len > 5 then 5 else frame.len;
    if length < 2 {
      return Undefined;
    }
    var latency := CutOperand(frame, 2, length - 2);
    if latency.IsFailure() { return latency.PropagateFailure(); }
    return Accepted(ReportCurrentLatency(address.value, [latency.value]));
  }

  method AbortFrom(frame: CECFrame) returns (p: Parsed<Message>)
    requires frame.Valid()
    ensures ParseOperands(0x00, frame.Contents()) == Some(p)
  {
    var feature := frame.At(0);
    if feature.None? {
      return Rejected;
    }
    var reason := CutOperand(frame, 1, 1);
    if reason.IsFailure() { return reason.PropagateFailure(); }
    return Accepted(FeatureAbort(feature.value, reason.value));
  }

  method PhysicalAddressFrom(frame: CECFrame) returns (p: Parsed<Message>)
    requires frame.Valid()
    ensures ParseOperands(0x84, frame.Contents()) == Some(p)
  {
    var address := CutOperand(frame, 0, 2);
    if address.IsFailure() { return address.PropagateFailure(); }
    var device := CutOperand(frame, 2, 1);
    if device.IsFailure() { return device.PropagateFailure(); }
    return Accepted(ReportPhysicalAddress(address.value, device.value));
  }

  method RoutingFrom(frame: CECFrame) returns (p: Parsed<Message>)
    requires frame.Valid()
    ensures ParseOperands(0x80, frame.Contents()) == Some(p)
  {
    var from := CutOperand(frame, 0, 2);
    if from.IsFailure() { return from.PropagateFailure(); }
    var to := CutOperand(frame, 2, 2);
    if to.IsFailure() { return to.PropagateFailure(); }
    return Accepted(RoutingChange(from.value, to.value));
  }

  /** The messages made from one operand: how long it may be, and what it becomes. */
  method SingleFrom(op: Byte, frame: CECFrame) returns (p: Option<Parsed<Message>>)
    requires frame.Valid() && op !in {0xA6, 0xA4, 0xA3, 0xA8, 0x00, 0x84, 0x80}
    ensures p == ParseOperands(op, frame.Contents())
  {
    if op !in {0x82, 0x9D, 0x9E, 0x32, 0x47, 0x64, 0x87, 0x90, 0x81, 0x86, 0x70, 0x72, 0x7A, 0x44, 0xA7} {
      return None;
    }
    var size :=
      if op in {0x82, 0x9D, 0x81, 0x86, 0x70, 0xA7} then 2
      else if op in {0x32, 0x87} then 3
      else if op == 0x47 then 14
      else if op == 0x64 then 13
      else 1;
    var cut := CutOperand(frame, 0, size);
    if cut.IsFailure() {
      return Some(cut.PropagateFailure());
    }
    var v := cut.value;
    return Some(Accepted(match op
      case 0x82 => ActiveSource(v)
      case 0x9D => InActiveSource(v)
      case 0x9E => CECVersion(v)
      case 0x32 => SetMenuLanguage(v)
      case 0x47 => SetOSDName(v)
      case 0x64 => SetOSDString(v)
      case 0x87 => DeviceVendorID(v)
      case 0x90 => ReportPowerStatus(v)
      case 0x81 => RoutingInformation(v)
      case 0x86 => SetStreamPath(v)
      case 0x70 => SystemAudioModeRequest(v)
      case 0x72 => SetSystemAudioMode(v)
      case 0x7A => ReportAudioStatus(v)
      case 0x44 => UserControlPressed(v)
      case _ => RequestCurrentLatency(v)));
  }

  /** MessageDecoder::decode. */
  method DecodeFrame(frame: CECFrame) returns (d: Decoded)
    requires frame.Valid()
    ensures d == Decode(frame.Contents())
  {
    var first := frame.At(0);
    if first.None? {
      return Thrown;
    }
    var h := Header(High(first.value), Low(first.value));
    if frame.len == 1 {
      return Processed(NoOperands(Polling), h);
    }
    var operands := frame.SubFrame(2, 0);
    var op := frame.At(1);
    assert operands.Contents() == frame.Contents()[2..];
    d := DispatchFrame(op.value, operands, h);
  }

  method OperandsFrom(op: Byte, frame: CECFrame) returns (p: Option<Parsed<Message>>)
    requires frame.Valid()
    ensures p == ParseOperands(op, frame.Contents())
  {
    if op == 0xA6 {
      var m := FeaturesFrom(frame);
      p := Some(m);
    } else if op == 0xA8 {
      var m := LatencyFrom(frame);
      p := Some(m);
    } else if op == 0x00 {
      var m := AbortFrom(frame);
      p := Some(m);
    } else if op == 0x84 {
      var m := PhysicalAddressFrom(frame);
      p := Some(m);
    } else if op == 0x80 {
      var m := RoutingFrom(frame);
      p := Some(m);
    } else if op == 0xA4 {
      var formats := FormatsFrom(frame);
      p := Some(Accepted(RequestShortAudioDescriptor(formats)));
    } else if op == 0xA3 {
      var descriptors := DescriptorsFrom(frame);
      p := Some(Accepted(ReportShortAudioDescriptor(descriptors)));
    } else {
      p := SingleFrom(op, frame);
    }
  }

  method DispatchFrame(op: Byte, operands: CECFrame, h: Header) returns (d: Decoded)
    requires operands.Valid()
    ensures d == Dispatch(op, operands.Contents(), h)
  {
    if PlainOf(op).Some? {
      return Processed(NoOperands(PlainOf(op).value), h);
    }
    var p := OperandsFrom(op, operands);
    match p {
      case None => d := Ignored;
      case Some(Accepted(m)) => d := Processed(m, h);
      case Some(Rejected) => d := Dropped;
      case Some(Undefined) => d := Unspecified;
    }
  }

  /**
   * The whole way of a message through a fresh frame, with MessageEncoder and then MessageDecoder: it makes the one
   * `process` call with that message and header exactly when it survives and fits.
   */
  method Convey(h: Header, m: Message) returns (d: Decoded)
    requires Built(m)
    ensures d == Processed(Joined(m), h) <==> Survives(m) && |Encode(h, m)| <= MAX_LENGTH
    ensures d == Thrown <==> |Encode(h, m)| > MAX_LENGTH
    ensures d == Conveyed(h, m)
  {
    RoundTrip(h, m);
    var frame := new CECFrame();
    var ok := EncodeInto(h, m, frame);
    assert [] + Encode(h, m) == Encode(h, m);
    if ok {
      d := DecodeFrame(frame);
      OnlyNothingIsThrown(Encode(h, m));
    } else {
      d := Thrown;
    }
  }

  lemma OnlyNothingIsThrown(frame: Bytes)
    ensures Decode(frame) == Thrown <==> frame == []
  {
  }

  // ---- the accessors of the variable-length operands

  /** The first chain of a byte string, cut off where the string ends. */
  function FirstChain(s: Bytes): Bytes {
    var n := ChainLength(s, 0);
    if n > |s| then s else s[..n]
  }

  /** getRcProfileVal and getDeviceFeaturesVal. */
  method ChainValues(str: Bytes) returns (values: Bytes)
    ensures values == FirstChain(str)
  {
    values := [];
    var i := 0;
    while i < |str|
      invariant i <= |str| && values == str[..i]
      invariant i + ChainLength(str, i) == ChainLength(str, 0)
    {
      values := values + [str[i]];
      if Extended(str[i]) {
        i := i + 1;
      } else {
        break;
      }
    }
  }

  /** The accessors give back all of a stored operand exactly when it is one chain. */
  lemma FirstChainIsWhole(s: Bytes)
    requires s != []
    ensures FirstChain(s) == s <==> OpenChain(s)
  {
    ChainLengthMeans(s, 0);
    if FirstChain(s) == s {
      assert |s| <= ChainLength(s, 0);
    }
    if OpenChain(s) {
      assert s[0..] == s;
      LastChainLength(s, 0);
    }
  }

  /** For every Report Features the decoder accepts, both accessors give back the whole operand. */
  lemma DecodedFeaturesAreWhole(frame: Bytes)
    requires Decode(frame).Processed? && Decode(frame).message.ReportFeatures?
    ensures var m := Decode(frame).message;
      |m.rc| == 1 && |m.features| == 1 && FirstChain(m.rc[0]) == m.rc[0] && FirstChain(m.features[0]) == m.features[0]
  {
    FeaturesOpcode(frame[1], frame[2..], Decode(frame).header);
    var n, k := FeaturesParts(frame[2..]);
    FirstChainIsWhole(frame[2..][2..2 + n]);
    FirstChainIsWhole(frame[2..][2 + n..2 + n + k]);
  }

  lemma FeaturesOpcode(op: Byte, s: Bytes, h: Header)
    requires Dispatch(op, s, h).Processed? && Dispatch(op, s, h).message.ReportFeatures?
    ensures op == 0xA6 && ParseFeatures(s) == Accepted(Dispatch(op, s, h).message)
  {
  }
}
