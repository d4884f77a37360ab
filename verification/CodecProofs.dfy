/** How encoding and decoding of CEC messages undo each other. */
module CodecProofs {
  import opened Base
  import opened Codec

  // ---- which messages there are, and which survive the trip

  predicate AllOfLength(parts: seq<Bytes>, n: nat) {
    forall i :: 0 <= i < |parts| ==> |parts[i]| == n
  }

  /** What the constructors that applications use can build. They do not enforce the limits on strings. */
  predicate Built(m: Message) {
    match m
    case NoOperands(_) => true
    case ActiveSource(a) => |a| == 2
    case InActiveSource(a) => |a| == 2
    case CECVersion(v) => |v| == 1
    case SetMenuLanguage(l) => |l| <= 3
    case SetOSDName(_) => true
    case SetOSDString(_) => true
    case ReportPhysicalAddress(a, d) => |a| == 2 && |d| == 1
    case DeviceVendorID(v) => |v| <= 3
    case ReportPowerStatus(p) => |p| == 1
    case FeatureAbort(_, r) => |r| == 1
    case RoutingChange(a, b) => |a| == 2 && |b| == 2
    case RoutingInformation(a) => |a| == 2
    case SetStreamPath(a) => |a| == 2
    case RequestShortAudioDescriptor(fs) => |fs| <= 4 && AllOfLength(fs, 1)
    case ReportShortAudioDescriptor(ds) => AllOfLength(ds, 3)
    case SystemAudioModeRequest(a) => |a| == 2
    case SetSystemAudioMode(p) => |p| == 1
    case ReportAudioStatus(p) => |p| == 1
    case UserControlPressed(c) => |c| == 1
    case ReportFeatures(v, t, _, _) => |v| == 1 && |t| == 1
    case RequestCurrentLatency(a) => |a| == 2
    case ReportCurrentLatency(a, l) => |a| == 2 && 1 <= |Flatten(l)| <= 3
  }

  /** A non-empty string of bytes that all but the last announce another one. */
  predicate OpenChain(b: Bytes) {
    b != [] && forall i :: 0 <= i < |b| - 1 ==> Extended(b[i])
  }

  /** ... and the last does not. */
  predicate ClosedChain(b: Bytes) {
    OpenChain(b) && !Extended(b[|b| - 1])
  }

  predicate HasDecoder(k: Plain) {
    !k.GiveAudioStatus? && !k.RequestArcInitiation? && !k.ReportArcInitiation?
    && !k.RequestArcTermination? && !k.ReportArcTermination?
  }

  predicate Survives(m: Message) {
    match m
    case NoOperands(k) => HasDecoder(k)
    case SetMenuLanguage(l) => l != []
    case SetOSDName(n) => 1 <= |n| <= 14
    case SetOSDString(t) => 1 <= |t| <= 13
    case DeviceVendorID(v) => v != []
    case FeatureAbort(f, _) => f < 256
    case SystemAudioModeRequest(a) => a != [0xFF, 0xFF]
    case RequestCurrentLatency(a) => a != [0xFF, 0xFF]
    case ReportFeatures(_, _, rc, fs) => ClosedChain(Flatten(rc)) && OpenChain(Flatten(fs))
    case _ => true
  }

  /** The decoder returns each variable-length operand in one piece, however it was built. */
  function Joined(m: Message): Message {
    match m
    case ReportFeatures(v, t, rc, fs) => ReportFeatures(v, t, [Flatten(rc)], [Flatten(fs)])
    case ReportCurrentLatency(a, l) => ReportCurrentLatency(a, [Flatten(l)])
    case _ => m
  }

  // ---- lists of operands

  lemma {:induction false} FlattenSingles(parts: seq<Bytes>)
    requires AllOfLength(parts, 1)
    ensures |Flatten(parts)| == |parts| && Singles(Flatten(parts)) == parts
  {
    if parts != [] {
      FlattenSingles(parts[1..]);
      assert Flatten(parts)[1..] == Flatten(parts[1..]);
      assert parts == [parts[0]] + parts[1..] && parts[0] == [parts[0][0]];
    }
  }

  lemma {:induction false} SinglesFlatten(s: Bytes)
    ensures Flatten(Singles(s)) == s
  {
    if s != [] {
      SinglesFlatten(s[1..]);
      assert Singles(s)[1..] == Singles(s[1..]);
      assert s == [s[0]] + s[1..];
    }
  }

  lemma {:induction false} FlattenTriples(parts: seq<Bytes>)
    requires AllOfLength(parts, 3)
    ensures Triples(Flatten(parts)) == parts
  {
    if parts != [] {
      FlattenTriples(parts[1..]);
      assert Flatten(parts)[..3] == parts[0] && Flatten(parts)[3..] == Flatten(parts[1..]);
    }
  }

  lemma {:induction false} TriplesFlatten(s: Bytes)
    ensures Flatten(Triples(s)) <= s && AllOfLength(Triples(s), 3)
  {
    if |s| >= 3 {
      TriplesFlatten(s[3..]);
      assert s == s[..3] + s[3..];
      assert Flatten(Triples(s)) == s[..3] + Flatten(Triples(s[3..])) by {
        assert Triples(s)[1..] == Triples(s[3..]);
      }
    }
  }

  lemma FlattenOne(b: Bytes)
    ensures Flatten([b]) == b
  {
    assert [b][1..] == [];
    assert b + [] == b;
  }

  // ---- the extension chains of Report Features

  lemma {:induction false} ChainLengthMeans(s: Bytes, i: nat)
    ensures var n := ChainLength(s, i);
      && (forall j :: i <= j < i + n - 1 ==> j < |s| && Extended(s[j]))
      && (i + n - 1 < |s| ==> !Extended(s[i + n - 1]))
    decreases |s| - i
  {
    if i < |s| && Extended(s[i]) {
      ChainLengthMeans(s, i + 1);
    }
  }

  /** Only one split is possible: a closed chain at `i` is as long as ChainLength says, whatever follows it. */
  lemma {:induction false} ClosedChainLength(s: Bytes, i: nat, chain: Bytes)
    requires ClosedChain(chain) && i <= |s| && chain <= s[i..]
    ensures ChainLength(s, i) == |chain|
    decreases |chain|
  {
    assert s[i] == chain[0];
    if |chain| > 1 {
      assert Extended(chain[0]);
      var rest := chain[1..];
      assert forall j :: 0 <= j < |rest| ==> rest[j] == chain[j + 1];
      assert s[i + 1..] == s[i..][1..];
      ClosedChainLength(s, i + 1, rest);
    }
  }

  /** At the end of the frame a chain may also be open. */
  lemma {:induction false} LastChainLength(s: Bytes, i: nat)
    requires i < |s| && OpenChain(s[i..])
    ensures |s| - i <= ChainLength(s, i) <= |s| - i + 1
    decreases |s| - i
  {
    if i + 1 < |s| {
      var chain, rest := s[i..], s[i + 1..];
      assert s[i] == chain[0];
      assert forall j :: 0 <= j < |rest| ==> rest[j] == chain[j + 1];
      LastChainLength(s, i + 1);
    }
  }

  lemma FeatureSlices(v: Bytes, t: Bytes, rc: Bytes, fs: Bytes, count: nat)
    requires |v| == 1 && |t| == 1 && rc != [] && fs != [] && count >= |fs|
    ensures var s := v + t + rc + fs;
      && Slice(s, 0, 1) == Accepted(v) && Slice(s, 1, 1) == Accepted(t)
      && Slice(s, 2, |rc|) == Accepted(rc) && Slice(s, 2 + |rc|, count) == Accepted(fs)
  {
    var s := v + t + rc + fs;
    assert s[0..1] == v && s[1..2] == t && s[2..2 + |rc|] == rc && s[2 + |rc|..2 + |rc| + |fs|] == fs;
  }

  lemma {:induction false} FeatureChains(v: Bytes, t: Bytes, rc: Bytes, fs: Bytes)
    requires |v| == 1 && |t| == 1 && ClosedChain(rc) && OpenChain(fs)
    ensures var s := v + t + rc + fs; ChainLength(s, 2) == |rc| && ChainLength(s, 2 + |rc|) >= |fs|
  {
    var s := v + t + rc + fs;
    assert s[2..] == rc + fs && s[2 + |rc|..] == fs;
    ClosedChainLength(s, 2, rc);
    LastChainLength(s, 2 + |rc|);
  }

  lemma {:induction false} FeaturesSurvive(v: Bytes, t: Bytes, rc: Bytes, fs: Bytes)
    requires |v| == 1 && |t| == 1 && ClosedChain(rc) && OpenChain(fs)
    ensures ParseFeatures(v + t + rc + fs) == Accepted(ReportFeatures(v, t, [rc], [fs]))
  {
    FeatureChains(v, t, rc, fs);
    FeatureSlices(v, t, rc, fs, ChainLength(v + t + rc + fs, 2 + |rc|));
  }

  /** What an accepted Report Features says about the frame it came from. */
  lemma FeaturesParts(s: Bytes) returns (n: nat, k: nat)
    requires ParseFeatures(s).Accepted?
    ensures 0 < n && 0 < k && 2 + n + k <= |s|
    ensures ParseFeatures(s).value == ReportFeatures(s[0..1], s[1..2], [s[2..2 + n]], [s[2 + n..2 + n + k]])
    ensures ClosedChain(s[2..2 + n]) && OpenChain(s[2 + n..2 + n + k])
  {
    n := ChainLength(s, 2);
    ChainLengthMeans(s, 2);
    ChainLengthMeans(s, 2 + n);
    k := |Slice(s, 2 + n, ChainLength(s, 2 + n)).value|;
  }

  lemma FeaturesSurviveOnly(v: Bytes, t: Bytes, rc: Bytes, fs: Bytes)
    requires ParseFeatures(v + t + rc + fs) == Accepted(ReportFeatures(v, t, [rc], [fs]))
    ensures ClosedChain(rc) && OpenChain(fs)
  {
    var s := v + t + rc + fs;
    var n, k := FeaturesParts(s);
    assert [rc][0] == s[2..2 + n] && [fs][0] == s[2 + n..2 + n + k];
  }

  // ---- round trip

  lemma OpcodeOfPlain(k: Plain)
    ensures HasDecoder(k) && k != Polling ==> PlainOf(PlainOpcode(k)) == Some(k)
    ensures !HasDecoder(k) ==> PlainOf(PlainOpcode(k)).None? && ParseOperands(PlainOpcode(k), []).None?
  {
  }

  lemma HeaderSurvives(h: Header)
    ensures Header(High(HeaderByte(h)), Low(HeaderByte(h))) == h
  {
  }

  lemma OpcodeOfOperands(m: Message)
    requires !m.NoOperands?
    ensures PlainOf(Opcode(m)).None? && Opcode(m) < 256
  {
  }

  lemma AssembledBytes(h: Header, op: nat, operands: Bytes)
    requires op < 256
    ensures Assembled(h, op, operands) == [HeaderByte(h), op] + operands
    ensures Assembled(h, op, operands)[2..] == operands
  {
    var head: Bytes := [HeaderByte(h), op];
    assert [HeaderByte(h)] + OpcodeBytes(op) == head;
    DropHead(head, operands);
  }

  lemma DropHead(head: Bytes, rest: Bytes)
    ensures (head + rest)[|head|..] == rest
  {
  }

  lemma DecodeOperands(h: Header, m: Message)
    requires !m.NoOperands?
    ensures Opcode(m) < 256 && Decode(Encode(h, m)) == Dispatch(Opcode(m), Operands(m), h)
    ensures PlainOf(Opcode(m)).None?
  {
    OpcodeOfOperands(m);
    HeaderSurvives(h);
    AssembledBytes(h, Opcode(m), Operands(m));
  }

  lemma PlainSurvives(h: Header, k: Plain)
    ensures Decode(Encode(h, NoOperands(k))) == if HasDecoder(k) then Processed(NoOperands(k), h) else Ignored
  {
    HeaderSurvives(h);
    if k == Polling {
      assert Assembled(h, POLLING, []) == [HeaderByte(h)];
    } else {
      OpcodeOfPlain(k);
      PlainIsByte(k);
      AssembledBytes(h, PlainOpcode(k), []);
    }
  }

  lemma PlainIsByte(k: Plain)
    requires k != Polling
    ensures PlainOpcode(k) < 256
  {
  }

  lemma SliceWhole(s: Bytes, count: nat)
    requires count > 0
    ensures Slice(s, 0, count) == if s == [] then Rejected else Accepted(if |s| <= count then s else s[..count])
  {
    if s != [] {
      assert s[0..|s|] == s;
    }
  }

  lemma SlicePair(a: Bytes, b: Bytes, count: nat)
    requires |a| == 2 && count > 0
    ensures Slice(a + b, 0, 2) == Accepted(a)
    ensures Slice(a + b, 2, count) == if b == [] then Rejected else Accepted(if |b| <= count then b else b[..count])
  {
    assert (a + b)[0..2] == a;
    var n := if |b| <= count then |b| else count;
    assert (a + b)[2..2 + n] == b[..n] && b[..|b|] == b;
  }

  lemma AbortSurvives(f: nat, r: Bytes)
    requires |r| == 1
    ensures ParseOperands(0x00, OpcodeBytes(f) + r) ==
      if f == POLLING then Some(Rejected) else Some(Accepted(FeatureAbort(f % 256, r)))
  {
    if f != POLLING {
      assert (OpcodeBytes(f) + r)[1..2] == r;
    }
  }

  lemma LatencySurvives(a: Bytes, l: Bytes)
    requires |a| == 2 && 1 <= |l| <= 3
    ensures ParseLatency(a + l) == Accepted(ReportCurrentLatency(a, [l]))
  {
    SlicePair(a, l, |l|);
  }

  lemma FeaturesSurviveIff(v: Bytes, t: Bytes, rc: Bytes, fs: Bytes)
    requires |v| == 1 && |t| == 1
    ensures ParseFeatures(v + t + rc + fs) == Accepted(ReportFeatures(v, t, [rc], [fs])) <==> ClosedChain(rc) && OpenChain(fs)
  {
    if ClosedChain(rc) && OpenChain(fs) {
      FeaturesSurvive(v, t, rc, fs);
    }
    if ParseFeatures(v + t + rc + fs) == Accepted(ReportFeatures(v, t, [rc], [fs])) {
      FeaturesSurviveOnly(v, t, rc, fs);
    }
  }

  // The messages whose operands are lists.

  lemma {:induction false} FormatsSurvive(fs: seq<Bytes>)
    requires |fs| <= 4 && AllOfLength(fs, 1)
    ensures ParseOperands(0xA4, Flatten(fs)) == Some(Accepted(RequestShortAudioDescriptor(fs)))
  {
    FlattenSingles(fs);
  }

  lemma {:induction false} DescriptorsSurvive(ds: seq<Bytes>)
    requires AllOfLength(ds, 3)
    ensures ParseOperands(0xA3, Flatten(ds)) == Some(Accepted(ReportShortAudioDescriptor(ds)))
  {
    FlattenTriples(ds);
  }

  predicate SeveralOperands(m: Message) {
    m.ReportPhysicalAddress? || m.RoutingChange? || m.FeatureAbort? || m.RequestShortAudioDescriptor?
    || m.ReportShortAudioDescriptor?
  }

  lemma {:induction false} ReportFeaturesSurvives(v: Bytes, t: Bytes, rc: seq<Bytes>, fs: seq<Bytes>)
    requires |v| == 1 && |t| == 1
    ensures var m := ReportFeatures(v, t, rc, fs);
      ParseOperands(0xA6, Operands(m)) == Some(Accepted(Joined(m))) <==> Survives(m)
  {
    FeaturesSurviveIff(v, t, Flatten(rc), Flatten(fs));
  }

  lemma {:induction false} VariableOperandsSurvive(m: Message)
    requires Built(m) && (m.ReportFeatures? || m.ReportCurrentLatency?)
    ensures ParseOperands(Opcode(m), Operands(m)) == Some(Accepted(Joined(m))) <==> Survives(m)
  {
    if m.ReportFeatures? {
      ReportFeaturesSurvives(m.version, m.types, m.rc, m.features);
    } else {
      LatencySurvives(m.address, Flatten(m.latency));
    }
  }

  lemma {:induction false} OneOperandSurvives(m: Message)
    requires Built(m) && !m.NoOperands? && !SeveralOperands(m) && !m.ReportFeatures? && !m.ReportCurrentLatency?
    ensures ParseOperands(Opcode(m), Operands(m)) == Some(Accepted(Joined(m))) <==> Survives(m)
  {
    forall count: nat | count > 0
      ensures Slice(Operands(m), 0, count) ==
        if Operands(m) == [] then Rejected
        else Accepted(if |Operands(m)| <= count then Operands(m) else Operands(m)[..count])
    {
      SliceWhole(Operands(m), count);
    }
  }

  lemma {:induction false} SeveralOperandsSurvive(m: Message)
    requires Built(m) && SeveralOperands(m)
    ensures ParseOperands(Opcode(m), Operands(m)) == Some(Accepted(Joined(m))) <==> Survives(m)
  {
    match m {
      case ReportPhysicalAddress(a, d) => SlicePair(a, d, 1);
      case RoutingChange(a, b) => SlicePair(a, b, 2);
      case FeatureAbort(f, r) => AbortSurvives(f, r);
      case RequestShortAudioDescriptor(fs) => FormatsSurvive(fs);
      case ReportShortAudioDescriptor(ds) => DescriptorsSurvive(ds);
      case _ =>
    }
  }

  lemma {:induction false} OperandsSurvive(m: Message)
    requires Built(m) && !m.NoOperands?
    ensures ParseOperands(Opcode(m), Operands(m)) == Some(Accepted(Joined(m))) <==> Survives(m)
  {
    if SeveralOperands(m) {
      SeveralOperandsSurvive(m);
    } else if m.ReportFeatures? || m.ReportCurrentLatency? {
      VariableOperandsSurvive(m);
    } else {
      OneOperandSurvives(m);
    }
  }

  /** On byte strings of any length: which encodings decode to the message that was encoded. */
  lemma EncodingSurvives(h: Header, m: Message)
    requires Built(m)
    ensures Decode(Encode(h, m)) == Processed(Joined(m), h) <==> Survives(m)
  {
    if m.NoOperands? {
      PlainSurvives(h, m.kind);
    } else {
      DecodeOperands(h, m);
      OperandsSurvive(m);
    }
  }

  /**
   * Exactly which messages come back: encoding into a frame and decoding it yields one `process` call with the same
   * message and the same header if and only if the message survives and its encoding fits. Polling, the one-byte
   * frame, is among those that do.
   */
  lemma RoundTrip(h: Header, m: Message)
    requires Built(m)
    ensures Conveyed(h, m) == Processed(Joined(m), h) <==> Survives(m) && |Encode(h, m)| <= MAX_LENGTH
  {
    EncodingSurvives(h, m);
  }

  /** A Report Features that survives but does not fit: 130 one-byte operands that form one chain. */
  lemma LongFeaturesAreThrown(h: Header)
    ensures var m := ReportFeatures([6], [0x10], [[0]], seq(130, _ => [0x80]));
      Built(m) && Survives(m) && Conveyed(h, m) == Thrown
  {
    var parts: seq<Bytes> := seq(130, _ => [0x80]);
    FlattenSingles(parts);
    FlattenOne([0]);
    var chain := Flatten(parts);
    forall i | 0 <= i < |chain| ensures Extended(chain[i]) {
      SinglesAt(chain, i);
    }
  }

  lemma {:induction false} SinglesAt(s: Bytes, i: nat)
    requires i < |s|
    ensures |Singles(s)| == |s| && Singles(s)[i] == [s[i]]
  {
    if i > 0 {
      SinglesAt(s[1..], i - 1);
    } else if |s| > 1 {
      SinglesAt(s[1..], 0);
    }
  }

  /** What becomes of the address F.F.F.F: nothing is sent, and the decoder drops the message. */
  lemma OmittedAddressIsDropped(h: Header, m: Message)
    requires m == SystemAudioModeRequest([0xFF, 0xFF]) || m == RequestCurrentLatency([0xFF, 0xFF])
    ensures |Encode(h, m)| == 2 && Decode(Encode(h, m)) == Dropped
  {
    DecodeOperands(h, m);
  }

  // ---- normal form

  /** Serialising a one-byte address in these two messages reads past the operand, so nothing is said about them. */
  predicate EncodeDefined(m: Message) {
    (m.SystemAudioModeRequest? || m.RequestCurrentLatency?) ==> |m.address| >= 2
  }

  lemma SlicesAgain(s: Bytes, count: nat)
    requires Slice(s, 0, count).Accepted?
    ensures var a := Slice(s, 0, count).value; a <= s && a != [] && |a| <= count && Slice(a, 0, count) == Accepted(a)
  {
    var a := Slice(s, 0, count).value;
    assert a[0..|a|] == a;
  }

  lemma PairsAgain(s: Bytes, count: nat)
    requires Slice(s, 0, 2).Accepted? && Slice(s, 2, count).Accepted?
    ensures var a, b := Slice(s, 0, 2).value, Slice(s, 2, count).value;
      |a| == 2 && b != [] && |b| <= count && a + b <= s && Slice(a + b, 0, 2) == Accepted(a) && Slice(a + b, 2, count) == Accepted(b)
  {
    var a, b := Slice(s, 0, 2).value, Slice(s, 2, count).value;
    SlicePair(a, b, count);
  }

  lemma FourPieces(s: Bytes, n: nat, k: nat)
    requires 2 + n + k <= |s|
    ensures s[0..1] + s[1..2] + s[2..2 + n] + s[2 + n..2 + n + k] == s[..2 + n + k]
  {
  }

  lemma FeatureOperands(s: Bytes, n: nat, k: nat)
    requires 2 + n + k <= |s|
    ensures Operands(ReportFeatures(s[0..1], s[1..2], [s[2..2 + n]], [s[2 + n..2 + n + k]])) == s[..2 + n + k]
  {
    FlattenOne(s[2..2 + n]);
    FlattenOne(s[2 + n..2 + n + k]);
    FourPieces(s, n, k);
  }

  lemma FeaturesCut(s: Bytes, n: nat, k: nat)
    requires 2 + n + k <= |s| && ClosedChain(s[2..2 + n]) && OpenChain(s[2 + n..2 + n + k])
    ensures ParseFeatures(s[..2 + n + k]) ==
      Accepted(ReportFeatures(s[0..1], s[1..2], [s[2..2 + n]], [s[2 + n..2 + n + k]]))
  {
    FourPieces(s, n, k);
    FeaturesSurvive(s[0..1], s[1..2], s[2..2 + n], s[2 + n..2 + n + k]);
  }

  lemma {:induction false} FeaturesAgain(s: Bytes)
    requires ParseFeatures(s).Accepted?
    ensures var m := ParseFeatures(s).value; m.ReportFeatures? && Operands(m) <= s && ParseFeatures(Operands(m)) == Accepted(m)
  {
    var n, k := FeaturesParts(s);
    FeatureOperands(s, n, k);
    FeaturesCut(s, n, k);
  }

  lemma {:induction false} LatencyAgain(s: Bytes)
    requires ParseLatency(s).Accepted?
    ensures var m := ParseLatency(s).value; m.ReportCurrentLatency? && Operands(m) <= s && ParseLatency(Operands(m)) == Accepted(m)
  {
    var n := if |s| > 5 then 5 else |s|;
    var a, l := s[0..2], s[2..n];
    FlattenOne(l);
    LatencySurvives(a, l);
    assert a + l == s[..n];
  }

  lemma {:induction false} FormatsAgain(s: Bytes)
    ensures var fs := Singles(if |s| > 4 then s[..4] else s);
      |fs| <= 4 && Flatten(fs) <= s && ParseOperands(0xA4, Flatten(fs)) == Some(Accepted(RequestShortAudioDescriptor(fs)))
  {
    var t := if |s| > 4 then s[..4] else s;
    SinglesFlatten(t);
    SinglesLength(t);
  }

  lemma {:induction false} SinglesLength(s: Bytes)
    ensures |Singles(s)| == |s| && AllOfLength(Singles(s), 1)
  {
    if s != [] {
      SinglesLength(s[1..]);
    }
  }

  lemma {:induction false} DescriptorsAgain(s: Bytes)
    ensures var ds := Triples(s);
      Flatten(ds) <= s && ParseOperands(0xA3, Flatten(ds)) == Some(Accepted(ReportShortAudioDescriptor(ds)))
  {
    TriplesFlatten(s);
    FlattenTriples(Triples(s));
  }

  /** What an accepted message of operation `op` encodes to is a prefix of its operands, and is accepted as the same. */
  predicate Again(op: nat, s: Bytes, m: Message) {
    Opcode(m) == op && Operands(m) <= s && ParseOperands(op, Operands(m)) == Some(Accepted(m))
  }

  lemma {:induction false} ListsAgain(op: nat, s: Bytes)
    requires op == 0xA4 || op == 0xA3
    ensures ParseOperands(op, s).Some? && ParseOperands(op, s).value.Accepted?
    ensures Again(op, s, ParseOperands(op, s).value.value)
  {
    if op == 0xA4 {
      FormatsAgain(s);
    } else {
      DescriptorsAgain(s);
    }
  }

  lemma TwoOperandsAgain(op: nat, s: Bytes)
    requires op == 0x84 || op == 0x80
    requires ParseOperands(op, s).Some? && ParseOperands(op, s).value.Accepted?
    ensures var m := ParseOperands(op, s).value.value;
      Opcode(m) == op && Operands(m) <= s && ParseOperands(op, Operands(m)) == Some(Accepted(m))
  {
    if op == 0x84 {
      PairsAgain(s, 1);
    } else {
      PairsAgain(s, 2);
    }
  }

  lemma AbortAgain(s: Bytes)
    requires ParseOperands(0x00, s).Some? && ParseOperands(0x00, s).value.Accepted?
    ensures var m := ParseOperands(0x00, s).value.value;
      Opcode(m) == 0 && Operands(m) <= s && ParseOperands(0x00, Operands(m)) == Some(Accepted(m))
  {
    var m := FeatureAbort(s[0], s[1..2]);
    assert Operands(m) == s[..2] && s[..2][1..2] == s[1..2];
  }

  predicate Omitted(m: Message) {
    m == SystemAudioModeRequest([0xFF, 0xFF]) || m == RequestCurrentLatency([0xFF, 0xFF])
  }

  lemma {:induction false} OneOperandAgain(op: nat, s: Bytes)
    requires op !in {0xA4, 0xA3, 0xA6, 0xA8, 0x84, 0x80, 0x00}
    requires ParseOperands(op, s).Some? && ParseOperands(op, s).value.Accepted?
    ensures var m := ParseOperands(op, s).value.value;
      && !m.NoOperands? && Opcode(m) == op && Operands(m) <= s
      && (ParseOperands(op, Operands(m)) == Some(Accepted(m)) <==> !Omitted(m))
  {
    forall count: nat | count > 0 && Slice(s, 0, count).Accepted?
      ensures var a := Slice(s, 0, count).value; a <= s && a != [] && |a| <= count && Slice(a, 0, count) == Accepted(a)
    {
      SlicesAgain(s, count);
    }
  }

  lemma {:induction false} OperandsAgain(op: nat, s: Bytes)
    requires ParseOperands(op, s).Some? && ParseOperands(op, s).value.Accepted?
    ensures var m := ParseOperands(op, s).value.value;
      && !m.NoOperands? && Opcode(m) == op && Operands(m) <= s
      && (ParseOperands(op, Operands(m)) == Some(Accepted(m)) <==> !Omitted(m))
  {
    if op == 0xA4 || op == 0xA3 {
      ListsAgain(op, s);
    } else if op == 0xA6 {
      FeaturesAgain(s);
    } else if op == 0xA8 {
      LatencyAgain(s);
    } else if op == 0x84 || op == 0x80 {
      TwoOperandsAgain(op, s);
    } else if op == 0x00 {
      AbortAgain(s);
    } else {
      OneOperandAgain(op, s);
    }
  }

  lemma PlainOpcodeOf(op: nat)
    requires PlainOf(op).Some?
    ensures PlainOpcode(PlainOf(op).value) == op && op != POLLING && HasDecoder(PlainOf(op).value)
  {
  }

  lemma {:induction false} PlainNormalForm(h: Header, op: Byte)
    requires PlainOf(op).Some?
    ensures var m := NoOperands(PlainOf(op).value);
      Encode(h, m) == [HeaderByte(h), op] && Decode(Encode(h, m)) == Processed(m, h)
  {
    PlainOpcodeOf(op);
    PlainSurvives(h, PlainOf(op).value);
  }

  lemma EncodedIsPrefix(h: Header, m: Message, s: Bytes)
    requires !m.NoOperands? && Operands(m) <= s
    ensures Opcode(m) < 256 && Encode(h, m) <= [HeaderByte(h), Opcode(m)] + s
  {
    OpcodeOfOperands(m);
    AssembledBytes(h, Opcode(m), Operands(m));
    PrefixAgain([HeaderByte(h), Opcode(m)], Operands(m), s);
  }

  lemma PrefixAgain(head: Bytes, part: Bytes, whole: Bytes)
    requires part <= whole
    ensures head + part <= head + whole
  {
    assert whole[..|part|] == part;
    assert (head + whole)[..|head| + |part|] == head + part;
  }

  lemma DecodedAgain(h: Header, m: Message)
    requires !m.NoOperands?
    ensures Decode(Encode(h, m)) == Processed(m, h) <==> ParseOperands(Opcode(m), Operands(m)) == Some(Accepted(m))
  {
    DecodeOperands(h, m);
  }

  lemma OperandsNormalForm(h: Header, op: Byte, s: Bytes, m: Message)
    requires ParseOperands(op, s) == Some(Accepted(m))
    ensures Encode(h, m) <= [HeaderByte(h), op] + s
    ensures Decode(Encode(h, m)) == Processed(m, h) <==> !Omitted(m)
  {
    OperandsAgain(op, s);
    EncodedIsPrefix(h, m, s);
    DecodedAgain(h, m);
  }

  /**
   * Decoding puts a frame into normal form: what a frame decodes to encodes to a prefix of the frame, and that prefix
   * decodes to the same message again, except that F.F.F.F in the two messages above is not sent and then missed.
   */
  lemma NormalForm(frame: Bytes)
    requires Decode(frame).Processed? && EncodeDefined(Decode(frame).message)
    ensures var d := Decode(frame);
      && Encode(d.header, d.message) <= frame
      && (Decode(Encode(d.header, d.message)) == d <==> !Omitted(d.message))
  {
    var h := Decode(frame).header;
    assert HeaderByte(h) == frame[0];
    if |frame| == 1 {
      PlainSurvives(h, Polling);
      assert Encode(h, NoOperands(Polling)) == frame;
    } else {
      assert frame == [frame[0], frame[1]] + frame[2..];
      if PlainOf(frame[1]).Some? {
        PlainNormalForm(h, frame[1]);
      } else {
        OperandsNormalForm(h, frame[1], frame[2..], Decode(frame).message);
      }
    }
  }

  // ---- where the source's length arithmetic goes wrong

  /**
   * The frames on which the decoder's length subtraction wraps around: a single operand byte where an address and
   * something else belong, and a Report Features whose first chain runs to the end of the frame without closing.
   */
  lemma UnspecifiedIff(frame: Bytes)
    ensures Decode(frame) == Unspecified <==>
      && |frame| >= 3
      && ((frame[1] in {0x80, 0x84, 0xA8} && |frame| == 3)
          || (frame[1] == 0xA6 && |frame| >= 5 && forall j :: 4 <= j < |frame| ==> Extended(frame[j])))
  {
    if |frame| >= 5 && frame[1] == 0xA6 {
      var s := frame[2..];
      assert forall j :: 2 <= j < |s| ==> s[j] == frame[j + 2];
      assert forall j :: 4 <= j < |frame| ==> frame[j] == s[j - 2];
      ChainLengthMeans(s, 2);
    }
  }
}
