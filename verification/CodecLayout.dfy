/**
 * What the decoder accepts, said without its cuts: how long the operands of each message are declared to be, and that
 * a frame decodes to a message exactly when its bytes are laid out like that.
 */
module CodecLayout {
  import opened Base
  import opened Codec
  import opened CodecProofs

  /** An operand with the size that its class declares: the MAX_LEN of the source. */
  datatype Field = Field(bytes: Bytes, size: nat)

  /** The operands of the messages with a fixed number of them, in the order of the frame; latency is one of them. */
  function Layout(m: Message): seq<Field> {
    match m
    case ActiveSource(a) => [Field(a, 2)]
    case InActiveSource(a) => [Field(a, 2)]
    case CECVersion(v) => [Field(v, 1)]
    case SetMenuLanguage(l) => [Field(l, 3)]
    case SetOSDName(n) => [Field(n, 14)]
    case SetOSDString(t) => [Field(t, 13)]
    case ReportPhysicalAddress(a, d) => [Field(a, 2), Field(d, 1)]
    case DeviceVendorID(v) => [Field(v, 3)]
    case ReportPowerStatus(p) => [Field(p, 1)]
    case FeatureAbort(f, r) => [Field(if f < 256 then [f] else [], 1), Field(r, 1)]
    case RoutingChange(a, b) => [Field(a, 2), Field(b, 2)]
    case RoutingInformation(a) => [Field(a, 2)]
    case SetStreamPath(a) => [Field(a, 2)]
    case SystemAudioModeRequest(a) => [Field(a, 2)]
    case SetSystemAudioMode(p) => [Field(p, 1)]
    case ReportAudioStatus(p) => [Field(p, 1)]
    case UserControlPressed(c) => [Field(c, 1)]
    case RequestCurrentLatency(a) => [Field(a, 2)]
    case ReportCurrentLatency(a, l) => [Field(a, 2), Field(if |l| == 1 then l[0] else [], 3)]
    case _ => []
  }

  predicate HasLayout(m: Message) {
    !m.NoOperands? && !m.RequestShortAudioDescriptor? && !m.ReportShortAudioDescriptor? && !m.ReportFeatures?
  }

  /**
   * The fields lie one behind the other from the start of `s` on. Each has its declared size if there are as many bytes
   * left, otherwise all that are left, and at least one; what follows the last is ignored.
   */
  predicate LaidOut(s: Bytes, fields: seq<Field>) {
    fields != [] ==>
      var b, size := fields[0].bytes, fields[0].size;
      b != [] && b <= s && (|b| == size || (|b| < size && b == s)) && LaidOut(s[|b|..], fields[1..])
  }

  /** One-byte formats, at most four of them. */
  predicate FormatsOf(s: Bytes, formats: seq<Bytes>) {
    && |formats| == (if |s| > 4 then 4 else |s|)
    && forall i :: 0 <= i < |formats| ==> formats[i] == [s[i]]
  }

  /** As many groups of three bytes as there are. */
  predicate DescriptorsOf(s: Bytes, descriptors: seq<Bytes>) {
    && |descriptors| == |s| / 3
    && forall i :: 0 <= i < |descriptors| ==> descriptors[i] == s[3 * i..3 * i + 3]
  }

  /** Version and device types, then a closed chain, then a chain that is closed or ends the frame. */
  predicate FeaturesOf(s: Bytes, v: Bytes, t: Bytes, rc: Bytes, fs: Bytes) {
    && |v| == 1 && |t| == 1 && ClosedChain(rc) && OpenChain(fs)
    && v + t + rc + fs <= s && (ClosedChain(fs) || v + t + rc + fs == s)
  }

  /** The operand bytes `s` say `m`. */
  predicate Conforms(s: Bytes, m: Message) {
    match m
    case NoOperands(k) => HasDecoder(k)
    case RequestShortAudioDescriptor(fs) => FormatsOf(s, fs)
    case ReportShortAudioDescriptor(ds) => DescriptorsOf(s, ds)
    case ReportFeatures(v, t, rc, fs) => |rc| == 1 && |fs| == 1 && FeaturesOf(s, v, t, rc[0], fs[0])
    case _ => LaidOut(s, Layout(m))
  }

  /** The decoder's case for `m` accepts it from exactly the operands that say it. */
  predicate Agrees(s: Bytes, m: Message) {
    ParseOperands(Opcode(m), s) == Some(Accepted(m)) <==> Conforms(s, m)
  }

  // ---- the cuts

  lemma LaidOutOne(s: Bytes, b: Bytes, size: nat)
    requires size > 0
    ensures LaidOut(s, [Field(b, size)]) <==> Slice(s, 0, size) == Accepted(b)
  {
    assert [Field(b, size)][1..] == [];
    var n := if size > |s| then |s| else size;
    assert s[0..n] == s[..n] && s[..|s|] == s;
    if b <= s {
      assert s[..|b|] == b;
    }
  }

  lemma LaidOutTwo(s: Bytes, a: Bytes, b: Bytes, first: nat, size: nat)
    requires first > 0 && size > 0
    ensures LaidOut(s, [Field(a, first), Field(b, size)]) <==>
      Slice(s, 0, first) == Accepted(a) && Slice(s, first, size) == Accepted(b)
  {
    var fields := [Field(a, first), Field(b, size)];
    assert fields[1..] == [Field(b, size)];
    LaidOutOne(s, a, first);
    if |s| >= first {
      var rest := s[first..];
      LaidOutOne(rest, b, size);
      assert forall n: nat :: n <= |rest| ==> rest[0..n] == s[first..first + n];
    }
  }

  lemma {:induction false} SinglesAre(s: Bytes, parts: seq<Bytes>)
    ensures parts == Singles(s) <==> |parts| == |s| && forall i :: 0 <= i < |parts| ==> parts[i] == [s[i]]
  {
    SinglesLength(s);
    forall i | 0 <= i < |s| ensures Singles(s)[i] == [s[i]] {
      SinglesAt(s, i);
    }
  }

  lemma {:induction false} TriplesAt(s: Bytes)
    ensures |Triples(s)| == |s| / 3
    ensures forall i :: 0 <= i < |Triples(s)| ==> Triples(s)[i] == s[3 * i..3 * i + 3]
  {
    if |s| >= 3 {
      var rest := s[3..];
      TriplesAt(rest);
      forall i | 0 <= i < |Triples(s)| ensures Triples(s)[i] == s[3 * i..3 * i + 3] {
        if i > 0 {
          assert Triples(s)[i] == Triples(rest)[i - 1];
          assert rest[3 * (i - 1)..3 * (i - 1) + 3] == s[3 * i..3 * i + 3];
        }
      }
    }
  }

  lemma {:induction false} TriplesAre(s: Bytes, parts: seq<Bytes>)
    ensures parts == Triples(s) <==> DescriptorsOf(s, parts)
  {
    TriplesAt(s);
  }

  lemma {:induction false} FormatsAre(s: Bytes, fs: seq<Bytes>)
    ensures ParseOperands(0xA4, s) == Some(Accepted(RequestShortAudioDescriptor(fs))) <==> FormatsOf(s, fs)
  {
    var t := if |s| > 4 then s[..4] else s;
    SinglesAre(t, fs);
  }

  // ---- Report Features

  lemma {:induction false} LongestChain(s: Bytes, i: nat, chain: Bytes)
    requires i <= |s| && chain <= s[i..] && OpenChain(chain) && (ClosedChain(chain) || chain == s[i..])
    ensures Slice(s, i, ChainLength(s, i)) == Accepted(chain)
  {
    var n := |chain|;
    assert chain == s[i..][..n] == s[i..i + n];
    if ClosedChain(chain) {
      ClosedChainLength(s, i, chain);
    } else {
      LastChainLength(s, i);
    }
  }

  lemma FeaturePieces(s: Bytes, v: Bytes, t: Bytes, rc: Bytes, fs: Bytes)
    requires |v| == 1 && |t| == 1 && v + t + rc + fs <= s
    ensures s[0..1] == v && s[1..2] == t && rc <= s[2..] && fs <= s[2 + |rc|..]
    ensures v + t + rc + fs == s ==> fs == s[2 + |rc|..]
  {
    var whole := v + t + rc + fs;
    assert whole[0..1] == v && whole[1..2] == t && whole[2..2 + |rc|] == rc && whole[2 + |rc|..] == fs;
    assert s[..|whole|] == whole;
    assert s[2..][..|rc|] == whole[2..2 + |rc|];
    assert s[2 + |rc|..][..|fs|] == whole[2 + |rc|..];
  }

  lemma {:induction false} FeaturesParsed(s: Bytes, v: Bytes, t: Bytes, rc: Bytes, fs: Bytes)
    requires FeaturesOf(s, v, t, rc, fs)
    ensures ParseFeatures(s) == Accepted(ReportFeatures(v, t, [rc], [fs]))
  {
    FeaturePieces(s, v, t, rc, fs);
    ClosedChainLength(s, 2, rc);
    LongestChain(s, 2, rc);
    LongestChain(s, 2 + |rc|, fs);
  }

  lemma {:induction false} LastChainEnds(s: Bytes, i: nat)
    requires i < |s| && Slice(s, i, ChainLength(s, i)).Accepted?
    ensures var c := Slice(s, i, ChainLength(s, i)).value; OpenChain(c) && (ClosedChain(c) || c == s[i..])
  {
    ChainLengthMeans(s, i);
  }

  lemma {:induction false} FeaturesFound(s: Bytes)
    requires ParseFeatures(s).Accepted?
    ensures var m := ParseFeatures(s).value; m.ReportFeatures? && Conforms(s, m)
  {
    var n, k := FeaturesParts(s);
    FourPieces(s, n, k);
    ClosedChainLength(s, 2, s[2..2 + n]);
    LastChainEnds(s, 2 + n);
  }

  lemma {:induction false} FeaturesAre(s: Bytes, m: Message)
    requires m.ReportFeatures?
    ensures Agrees(s, m)
  {
    if ParseFeatures(s) == Accepted(m) {
      FeaturesFound(s);
    }
    if Conforms(s, m) {
      FeaturesParsed(s, m.version, m.types, m.rc[0], m.features[0]);
      assert m.rc == [m.rc[0]] && m.features == [m.features[0]];
    }
  }

  // ---- every message

  lemma {:induction false} OneOperandIs(s: Bytes, m: Message)
    requires HasLayout(m) && |Layout(m)| == 1
    ensures Agrees(s, m)
  {
    var f := Layout(m)[0];
    LaidOutOne(s, f.bytes, f.size);
  }

  lemma {:induction false} LatencyIs(s: Bytes, m: Message)
    requires m.ReportCurrentLatency?
    ensures Agrees(s, m)
  {
    var l := Layout(m)[1].bytes;
    LaidOutTwo(s, m.address, l, 2, 3);
    if |m.latency| == 1 {
      assert m.latency == [l];
    }
    if |s| >= 2 {
      assert Slice(s, 2, 3) == Slice(s, 2, (if |s| > 5 then 5 else |s|) - 2);
    }
  }

  lemma {:induction false} TwoOperandsAre(s: Bytes, m: Message)
    requires m.ReportPhysicalAddress? || m.RoutingChange?
    ensures Agrees(s, m)
  {
    var f := Layout(m);
    LaidOutTwo(s, f[0].bytes, f[1].bytes, f[0].size, f[1].size);
  }

  lemma {:induction false} AbortIs(s: Bytes, m: Message)
    requires m.FeatureAbort?
    ensures Agrees(s, m)
  {
    var f := Layout(m)[0].bytes;
    LaidOutTwo(s, f, m.reason, 1, 1);
    if s != [] {
      assert s[0..1] == [s[0]];
      assert f == [s[0]] <==> m.feature == s[0];
    }
  }

  lemma {:induction false} ListsAre(s: Bytes, m: Message)
    requires m.RequestShortAudioDescriptor? || m.ReportShortAudioDescriptor?
    ensures Agrees(s, m)
  {
    if m.RequestShortAudioDescriptor? {
      FormatsAre(s, m.formats);
    } else {
      TriplesAre(s, m.descriptors);
    }
  }

  lemma {:induction false} OperandsAre(s: Bytes, m: Message)
    requires !m.NoOperands?
    ensures Agrees(s, m)
  {
    if HasLayout(m) && |Layout(m)| == 1 {
      OneOperandIs(s, m);
    } else if m.ReportCurrentLatency? {
      LatencyIs(s, m);
    } else if m.FeatureAbort? {
      AbortIs(s, m);
    } else if HasLayout(m) {
      TwoOperandsAre(s, m);
    } else if m.ReportFeatures? {
      FeaturesAre(s, m);
    } else {
      ListsAre(s, m);
    }
  }

  /** The bytes after the header say `m`: nothing at all is Polling, otherwise the first is the message's code. */
  predicate Says(rest: Bytes, m: Message) {
    if m == NoOperands(Polling) then rest == []
    else rest != [] && rest[0] == Opcode(m) && Conforms(rest[1..], m)
  }

  lemma DispatchIs(op: Byte, s: Bytes, h: Header, m: Message)
    ensures Dispatch(op, s, h) == Processed(m, h) <==> m != NoOperands(Polling) && op == Opcode(m) && Conforms(s, m)
  {
    if PlainOf(op).Some? {
      PlainOpcodeOf(op);
    }
    if m.NoOperands? {
      OpcodeOfPlain(m.kind);
    } else {
      OpcodeOfOperands(m);
      OperandsAre(s, m);
    }
    if ParseOperands(op, s).Some? && ParseOperands(op, s).value.Accepted? {
      OperandsAgain(op, s);
    }
  }

  /**
   * Exactly which frames decode to which message: those whose first byte holds the two addresses and whose others say
   * the message, byte by byte.
   */
  lemma DecodesExactly(frame: Bytes, h: Header, m: Message)
    ensures Decode(frame) == Processed(m, h) <==> frame != [] && frame[0] == HeaderByte(h) && Says(frame[1..], m)
  {
    HeaderSurvives(h);
    if |frame| > 1 {
      DispatchIs(frame[1], frame[2..], Header(High(frame[0]), Low(frame[0])), m);
      assert frame[1..][1..] == frame[2..];
    }
  }

  // ---- sizes

  function Total(fields: seq<Field>): nat {
    if fields == [] then 0 else fields[0].size + Total(fields[1..])
  }

  predicate Whole(fields: seq<Field>) {
    forall i :: 0 <= i < |fields| ==> |fields[i].bytes| == fields[i].size
  }

  lemma {:induction false} LaidOutSizes(s: Bytes, fields: seq<Field>)
    requires LaidOut(s, fields)
    ensures forall i :: 0 <= i < |fields| ==> 1 <= |fields[i].bytes| <= fields[i].size
    ensures Whole(fields) <==> |s| >= Total(fields)
  {
    if fields != [] {
      var rest := fields[1..];
      LaidOutSizes(s[|fields[0].bytes|..], rest);
      assert forall i :: 1 <= i < |fields| ==> fields[i] == rest[i - 1];
      assert forall i :: 0 <= i < |rest| ==> rest[i] == fields[i + 1];
    }
  }

  lemma {:induction false} LaidOutLonger(s: Bytes, extra: Bytes, fields: seq<Field>)
    requires LaidOut(s, fields) && extra != []
    ensures LaidOut(s + extra, fields) <==> Whole(fields)
  {
    if fields != [] {
      var b, rest := fields[0].bytes, fields[1..];
      assert Whole(fields) <==> |b| == fields[0].size && Whole(rest) by {
        assert forall i :: 1 <= i < |fields| ==> fields[i] == rest[i - 1];
        assert forall i :: 0 <= i < |rest| ==> rest[i] == fields[i + 1];
      }
      assert (s + extra)[|b|..] == s[|b|..] + extra && (s + extra)[..|b|] == s[..|b|];
      if |b| == fields[0].size {
        LaidOutLonger(s[|b|..], extra, rest);
      }
    }
  }

  /** Nothing that follows can belong to the message. */
  predicate Complete(m: Message) {
    match m
    case NoOperands(k) => k != Polling
    case RequestShortAudioDescriptor(fs) => |fs| == 4
    case ReportShortAudioDescriptor(_) => false
    case ReportFeatures(_, _, _, fs) => |fs| == 1 && ClosedChain(fs[0])
    case _ => Whole(Layout(m))
  }

  lemma {:induction false} FeaturesLonger(s: Bytes, extra: Bytes, v: Bytes, t: Bytes, rc: Bytes, fs: Bytes)
    requires FeaturesOf(s, v, t, rc, fs) && extra != []
    ensures FeaturesOf(s + extra, v, t, rc, fs) <==> ClosedChain(fs)
  {
    var whole := v + t + rc + fs;
    assert whole <= s + extra by {
      assert (s + extra)[..|whole|] == s[..|whole|];
    }
  }

  lemma {:induction false} ListsLonger(s: Bytes, extra: Bytes, m: Message)
    requires Conforms(s, m) && extra != [] && (m.RequestShortAudioDescriptor? || m.ReportShortAudioDescriptor?)
    ensures Conforms(s + extra, m) <==>
      if m.RequestShortAudioDescriptor? then |m.formats| == 4 else |s + extra| / 3 == |s| / 3
  {
    var longer := s + extra;
    assert forall i :: 0 <= i < |s| ==> longer[i] == s[i];
    assert forall i :: 0 <= i < |s| / 3 ==> longer[3 * i..3 * i + 3] == s[3 * i..3 * i + 3];
  }

  lemma {:induction false} ConformsLonger(s: Bytes, extra: Bytes, m: Message)
    requires Conforms(s, m) && extra != [] && m != NoOperands(Polling)
    ensures Conforms(s + extra, m) <==>
      if m.ReportShortAudioDescriptor? then |s + extra| / 3 == |s| / 3 else Complete(m)
  {
    if m.RequestShortAudioDescriptor? || m.ReportShortAudioDescriptor? {
      ListsLonger(s, extra, m);
    } else if m.ReportFeatures? {
      FeaturesLonger(s, extra, m.version, m.types, m.rc[0], m.features[0]);
    } else if HasLayout(m) {
      LaidOutLonger(s, extra, Layout(m));
    }
  }

  /**
   * Bytes appended to a frame change nothing exactly when the message was complete: its operands had their declared
   * sizes, or there were four formats, or the last chain was closed, or the bytes do not make up another descriptor.
   */
  lemma LongerFrame(frame: Bytes, extra: Bytes)
    requires Decode(frame).Processed? && extra != []
    ensures var m := Decode(frame).message;
      Decode(frame + extra) == Decode(frame) <==>
        if m.ReportShortAudioDescriptor? then (|frame + extra| - 2) / 3 == (|frame| - 2) / 3 else Complete(m)
  {
    var h, m := Decode(frame).header, Decode(frame).message;
    DecodesExactly(frame, h, m);
    DecodesExactly(frame + extra, h, m);
    if |frame| > 1 {
      var s := frame[2..];
      ConformsLonger(s, extra, m);
      assert (frame + extra)[1..][1..] == s + extra && frame[1..][1..] == s;
    }
  }

  /**
   * No operand is longer than its class declares, and none is empty; all have the declared size if and only if the frame
   * has bytes for that.
   */
  lemma DeclaredSizes(frame: Bytes)
    requires Decode(frame).Processed?
    ensures var m := Decode(frame).message;
      && (forall i :: 0 <= i < |Layout(m)| ==> 1 <= |Layout(m)[i].bytes| <= Layout(m)[i].size)
      && (HasLayout(m) ==> (Whole(Layout(m)) <==> |frame| - 2 >= Total(Layout(m))))
      && (m.RequestShortAudioDescriptor? ==>
            |m.formats| == (if |frame| > 6 then 4 else |frame| - 2) && AllOfLength(m.formats, 1))
      && (m.ReportShortAudioDescriptor? ==> |m.descriptors| == (|frame| - 2) / 3 && AllOfLength(m.descriptors, 3))
      && (m.ReportFeatures? ==> |m.version| == 1 && |m.types| == 1 && |m.rc| == 1 && |m.features| == 1)
  {
    var d := Decode(frame);
    DecodesExactly(frame, d.header, d.message);
    if HasLayout(d.message) {
      LaidOutSizes(frame[1..][1..], Layout(d.message));
    }
  }

  // ---- what is sent

  function Joint(fields: seq<Field>): Bytes {
    if fields == [] then [] else fields[0].bytes + Joint(fields[1..])
  }

  /** The address F.F.F.F is left out, and a feature above one byte truncated; all other operands are sent in full. */
  predicate SentInFull(m: Message) {
    HasLayout(m) && !Omitted(m) && (m.FeatureAbort? ==> m.feature < 256) && (m.ReportCurrentLatency? ==> |m.latency| == 1)
  }

  lemma JointTwo(a: Field, b: Field)
    ensures Joint([a]) == a.bytes && Joint([a, b]) == a.bytes + b.bytes
  {
    assert [a][1..] == [] && [b][1..] == [] && [a, b][1..] == [b];
    assert Joint([b]) == b.bytes + [] && a.bytes + [] == a.bytes;
  }

  lemma {:induction false} OperandsAreJoint(m: Message)
    requires SentInFull(m)
    ensures Operands(m) == Joint(Layout(m))
  {
    var fields := Layout(m);
    JointTwo(fields[0], fields[|fields| - 1]);
    if m.ReportCurrentLatency? {
      assert m.latency == [m.latency[0]];
      FlattenOne(m.latency[0]);
    }
  }

  /** Operands are sent one behind the other as they are, even those that are too long to come back. */
  lemma EncodesInOrder(h: Header, m: Message)
    requires SentInFull(m)
    ensures Encode(h, m) == [HeaderByte(h), Opcode(m)] + Joint(Layout(m))
  {
    OpcodeOfOperands(m);
    OperandsAreJoint(m);
    AssembledBytes(h, Opcode(m), Operands(m));
  }

  // ---- codes

  /** The codes under which the decoder reports something, if the operands are there. */
  const DECODED: set<Byte> := {
    0x00, 0x04, 0x0D, 0x32, 0x36, 0x44, 0x45, 0x46, 0x47, 0x64, 0x70, 0x72, 0x7A,
    0x80, 0x81, 0x82, 0x83, 0x84, 0x85, 0x86, 0x87, 0x8C, 0x8F, 0x90, 0x91, 0x9D, 0x9E, 0x9F,
    0xA3, 0xA4, 0xA5, 0xA6, 0xA7, 0xA8, 0xC0, 0xC5, 0xFF
  }

  /** Frames with any other code are ignored, and no others are. */
  lemma IgnoredIff(frame: Bytes)
    ensures Decode(frame) == Ignored <==> |frame| >= 2 && frame[1] !in DECODED
  {
  }

  /** The messages that can be sent and not decoded, as they leave. */
  lemma SentOnly(h: Header, k: Plain, op: Byte)
    requires !HasDecoder(k)
    requires k.GiveAudioStatus? ==> op == 0x71
    requires k.ReportArcInitiation? ==> op == 0xC1
    requires k.ReportArcTermination? ==> op == 0xC2
    requires k.RequestArcInitiation? ==> op == 0xC3
    requires k.RequestArcTermination? ==> op == 0xC4
    ensures Encode(h, NoOperands(k)) == [HeaderByte(h), op]
    ensures Decode(Encode(h, NoOperands(k))) == Ignored
  {
    AssembledBytes(h, op, []);
    PlainSurvives(h, k);
  }
}
