/** The bytes of PROBE, PROBE_REPLY and LOSS_REPORT (srv6_fabric/mrc/probe.py). */
module Wire {
  import opened Wrappers

  // ---------------------------------------------------------------------
  // Big-endian packing of a list of fixed-width fields
  // ---------------------------------------------------------------------

  function Pow256(n: nat): (p: nat)
    ensures p >= 1
  {
    if n == 0 then 1 else 0x100 * Pow256(n - 1)
  }

  function BigEndian(n: nat, v: nat): (b: seq<Byte>)
    requires v < Pow256(n)
    ensures |b| == n
  {
    if n == 0 then [] else BigEndian(n - 1, v / 0x100) + [v % 0x100]
  }

  function Val(b: seq<Byte>): nat {
    if b == [] then 0 else 0x100 * Val(b[..|b| - 1]) + b[|b| - 1]
  }

  lemma {:induction false} ValBound(b: seq<Byte>)
    ensures Val(b) < Pow256(|b|)
  {
    if b != [] {
      ValBound(b[..|b| - 1]);
    }
  }

  lemma {:induction false} ValOfBigEndian(n: nat, v: nat)
    requires v < Pow256(n)
    ensures Val(BigEndian(n, v)) == v
  {
    if n > 0 {
      ValOfBigEndian(n - 1, v / 0x100);
      assert BigEndian(n, v)[..n - 1] == BigEndian(n - 1, v / 0x100);
    }
  }

  lemma {:induction false} BigEndianOfVal(b: seq<Byte>)
    ensures Val(b) < Pow256(|b|) && BigEndian(|b|, Val(b)) == b
  {
    ValBound(b);
    if b != [] {
      ValBound(b[..|b| - 1]);
      BigEndianOfVal(b[..|b| - 1]);
      assert Val(b) / 0x100 == Val(b[..|b| - 1]) && Val(b) % 0x100 == b[|b| - 1];
    }
  }

  lemma {:induction false} ValZeroIff(b: seq<Byte>)
    ensures Val(b) == 0 <==> forall i :: 0 <= i < |b| ==> b[i] == 0
  {
    if b != [] {
      ValZeroIff(b[..|b| - 1]);
      assert b == b[..|b| - 1] + [b[|b| - 1]];
    }
  }

  function Size(widths: seq<nat>): nat {
    if widths == [] then 0 else widths[0] + Size(widths[1..])
  }

  ghost predicate Fits(widths: seq<nat>, vals: seq<nat>) {
    |vals| == |widths| && forall i :: 0 <= i < |vals| ==> vals[i] < Pow256(widths[i])
  }

  function Pack(widths: seq<nat>, vals: seq<nat>): (b: seq<Byte>)
    requires Fits(widths, vals)
    ensures |b| == Size(widths)
  {
    if widths == [] then [] else BigEndian(widths[0], vals[0]) + Pack(widths[1..], vals[1..])
  }

  function Unpack(widths: seq<nat>, b: seq<Byte>): (vals: seq<nat>)
    requires |b| == Size(widths)
    ensures |vals| == |widths|
  {
    if widths == [] then []
    else [Val(b[..widths[0]])] + Unpack(widths[1..], b[widths[0]..])
  }

  lemma {:induction false} UnpackFits(widths: seq<nat>, b: seq<Byte>)
    requires |b| == Size(widths)
    ensures Fits(widths, Unpack(widths, b))
  {
    if widths != [] {
      ValBound(b[..widths[0]]);
      UnpackFits(widths[1..], b[widths[0]..]);
    }
  }

  lemma {:induction false} UnpackPack(widths: seq<nat>, vals: seq<nat>)
    requires Fits(widths, vals)
    ensures Unpack(widths, Pack(widths, vals)) == vals
  {
    if widths != [] {
      var b := Pack(widths, vals);
      assert b[..widths[0]] == BigEndian(widths[0], vals[0]) && b[widths[0]..] == Pack(widths[1..], vals[1..]);
      ValOfBigEndian(widths[0], vals[0]);
      UnpackPack(widths[1..], vals[1..]);
    }
  }

  lemma PackFirst(widths: seq<nat>, v: nat, rest: seq<nat>)
    requires widths != [] && v < Pow256(widths[0]) && Fits(widths[1..], rest)
    ensures Fits(widths, [v] + rest)
    ensures Pack(widths, [v] + rest) == BigEndian(widths[0], v) + Pack(widths[1..], rest)
  {
    assert ([v] + rest)[1..] == rest;
  }

  lemma {:induction false} PackUnpack(widths: seq<nat>, b: seq<Byte>)
    requires |b| == Size(widths)
    ensures Fits(widths, Unpack(widths, b)) && Pack(widths, Unpack(widths, b)) == b
  {
    if widths != [] {
      var head, tail := b[..widths[0]], b[widths[0]..];
      BigEndianOfVal(head);
      PackUnpack(widths[1..], tail);
      PackFirst(widths, Val(head), Unpack(widths[1..], tail));
      assert b == head + tail;
    }
  }

  lemma RepackIffSame(widths: seq<nat>, b: seq<Byte>, vals: seq<nat>)
    requires |b| == Size(widths) && Fits(widths, vals)
    ensures Pack(widths, vals) == b <==> Unpack(widths, b) == vals
  {
    PackUnpack(widths, b);
    UnpackPack(widths, vals);
  }

  /** Where field k of a packed record stands. */
  function Offset(widths: seq<nat>, k: nat): (o: nat)
    requires k < |widths|
    ensures o + widths[k] <= Size(widths)
  {
    if k == 0 then 0 else widths[0] + Offset(widths[1..], k - 1)
  }

  function FieldBytes(widths: seq<nat>, b: seq<Byte>, k: nat): seq<Byte>
    requires |b| == Size(widths) && k < |widths|
  {
    b[Offset(widths, k)..Offset(widths, k) + widths[k]]
  }

  lemma FieldBytesOfRest(widths: seq<nat>, b: seq<Byte>, k: nat)
    requires |b| == Size(widths) && 0 < k < |widths|
    ensures |b[widths[0]..]| == Size(widths[1..])
    ensures FieldBytes(widths[1..], b[widths[0]..], k - 1) == FieldBytes(widths, b, k)
    ensures Unpack(widths, b)[k] == Unpack(widths[1..], b[widths[0]..])[k - 1]
  {
  }

  lemma FirstFieldBytes(widths: seq<nat>, b: seq<Byte>)
    requires |b| == Size(widths) && widths != []
    ensures Unpack(widths, b)[0] == Val(FieldBytes(widths, b, 0))
  {
    assert b[0..widths[0]] == b[..widths[0]];
  }

  lemma {:induction false} FieldAt(widths: seq<nat>, b: seq<Byte>, k: nat)
    requires |b| == Size(widths) && k < |widths|
    ensures Unpack(widths, b)[k] == Val(FieldBytes(widths, b, k))
  {
    if k == 0 {
      FirstFieldBytes(widths, b);
    } else {
      FieldBytesOfRest(widths, b, k);
      FieldAt(widths[1..], b[widths[0]..], k - 1);
    }
  }

  // ---------------------------------------------------------------------
  // PROBE and PROBE_REPLY
  // ---------------------------------------------------------------------

  const MAGIC_PROBE: nat := 0xA5
  const MAGIC_PROBE_REPLY: nat := 0xA6
  const MAGIC_LOSS_REPORT: nat := 0xA7
  const PROBE_VERSION: nat := 2
  const LOSS_REPORT_VERSION: nat := 1

  /** magic, version, req_id, plane_id, reserved, tx_ns, svc_time_ns, tenant_id, src_id, reply_port */
  const PROBE_FMT: seq<nat> := [1, 1, 2, 1, 1, 8, 8, 2, 2, 2]
  const PROBE_SIZE: nat := 28

  datatype Probe = Probe(reqId: int, planeId: int, txNs: int, tenantId: int, srcId: int, replyPort: int)
  datatype ProbeReply = ProbeReply(probe: Probe, svcTimeNs: int)

  predicate U8(v: int) { 0 <= v < 0x100 }
  predicate U16(v: int) { 0 <= v < 0x1_0000 }
  predicate U32(v: int) { 0 <= v < 0x1_0000_0000 }
  predicate U64(v: int) { 0 <= v < 0x1_0000_0000_0000_0000 }

  predicate ProbeInRange(p: Probe) {
    U16(p.reqId) && U8(p.planeId) && U64(p.txNs) && U16(p.tenantId) && U16(p.srcId) && U16(p.replyPort)
  }

  lemma Widths()
    ensures Pow256(1) == 0x100 && Pow256(2) == 0x1_0000 && Pow256(4) == 0x1_0000_0000
    ensures Pow256(8) == 0x1_0000_0000_0000_0000
  {
    assert Pow256(3) == 0x100_0000 && Pow256(5) == 0x100_0000_0000 && Pow256(6) == 0x1_0000_0000_0000;
  }

  lemma ProbeSize()
    ensures Size(PROBE_FMT) == PROBE_SIZE
  {
    assert PROBE_FMT[3..][3..] == [8, 2, 2, 2] && PROBE_FMT[3..] == [1, 1, 8, 8, 2, 2, 2];
    assert Size([2, 2]) == 4;
    assert Size([8, 2, 2, 2]) == 14;
    assert Size([1, 8, 8, 2, 2, 2]) == 23;
  }

  function ProbeFields(magic: nat, p: Probe, svc: nat): seq<nat>
    requires ProbeInRange(p)
  {
    [magic, PROBE_VERSION, p.reqId, p.planeId, 0, p.txNs, svc, p.tenantId, p.srcId, p.replyPort]
  }

  lemma ProbeFieldsFit(magic: nat, p: Probe, svc: nat)
    requires ProbeInRange(p) && U8(magic) && U64(svc)
    ensures Fits(PROBE_FMT, ProbeFields(magic, p, svc))
  {
    Widths();
  }

  function PackProbe(magic: nat, p: Probe, svc: nat): (b: seq<Byte>)
    requires ProbeInRange(p) && U8(magic) && U64(svc)
    ensures |b| == PROBE_SIZE
  {
    ProbeFieldsFit(magic, p, svc);
    ProbeSize();
    Pack(PROBE_FMT, ProbeFields(magic, p, svc))
  }

  function EncodeProbe(p: Probe): Result<seq<Byte>> {
    if ProbeInRange(p) then Ok(PackProbe(MAGIC_PROBE, p, 0)) else Err(FieldOutOfRange)
  }

  function EncodeProbeReply(r: ProbeReply): Result<seq<Byte>> {
    if ProbeInRange(r.probe) && U64(r.svcTimeNs) then Ok(PackProbe(MAGIC_PROBE_REPLY, r.probe, r.svcTimeNs))
    else Err(FieldOutOfRange)
  }

  function UnpackProbe(payload: seq<Byte>): (f: seq<nat>)
    requires |payload| >= PROBE_SIZE
    ensures |f| == 10
  {
    ProbeSize();
    Unpack(PROBE_FMT, payload[..PROBE_SIZE])
  }

  function DecodeProbePacket(payload: seq<Byte>, magic: nat): Result<seq<nat>> {
    if |payload| < PROBE_SIZE then Err(TooShort)
    else
      var f := UnpackProbe(payload);
      if f[0] != magic then Err(BadMagic)
      else if f[1] != PROBE_VERSION then Err(BadVersion)
      else Ok(f)
  }

  function ProbeOf(f: seq<nat>): Probe
    requires |f| == 10
  {
    Probe(f[2], f[3], f[5], f[7], f[8], f[9])
  }

  function DecodeProbe(payload: seq<Byte>): Result<Probe> {
    match DecodeProbePacket(payload, MAGIC_PROBE)
    case Ok(f) => Ok(ProbeOf(UnpackProbe(payload)))
    case Err(e) => Err(e)
  }

  function DecodeProbeReply(payload: seq<Byte>): Result<ProbeReply> {
    match DecodeProbePacket(payload, MAGIC_PROBE_REPLY)
    case Ok(f) => Ok(ProbeReply(ProbeOf(UnpackProbe(payload)), UnpackProbe(payload)[6]))
    case Err(e) => Err(e)
  }

  lemma UnpackPackedProbe(magic: nat, p: Probe, svc: nat, trailing: seq<Byte>)
    requires ProbeInRange(p) && U8(magic) && U64(svc)
    ensures UnpackProbe(PackProbe(magic, p, svc) + trailing) == ProbeFields(magic, p, svc)
  {
    ProbeFieldsFit(magic, p, svc);
    ProbeSize();
    assert (PackProbe(magic, p, svc) + trailing)[..PROBE_SIZE] == PackProbe(magic, p, svc);
    UnpackPack(PROBE_FMT, ProbeFields(magic, p, svc));
  }

  /** What encodes decodes to itself, whatever bytes follow, and to nothing else:
      a probe is never read as a reply. */
  lemma ProbeRoundTrip(p: Probe, trailing: seq<Byte>)
    ensures EncodeProbe(p).Ok? <==> ProbeInRange(p)
    ensures EncodeProbe(p).Ok? ==>
              && DecodeProbe(EncodeProbe(p).value + trailing) == Ok(p)
              && DecodeProbeReply(EncodeProbe(p).value + trailing) == Err(BadMagic)
  {
    if ProbeInRange(p) {
      UnpackPackedProbe(MAGIC_PROBE, p, 0, trailing);
    }
  }

  lemma ProbeReplyRoundTrip(r: ProbeReply, trailing: seq<Byte>)
    ensures EncodeProbeReply(r).Ok? <==> ProbeInRange(r.probe) && U64(r.svcTimeNs)
    ensures EncodeProbeReply(r).Ok? ==>
              && DecodeProbeReply(EncodeProbeReply(r).value + trailing) == Ok(r)
              && DecodeProbe(EncodeProbeReply(r).value + trailing) == Err(BadMagic)
  {
    if EncodeProbeReply(r).Ok? {
      UnpackPackedProbe(MAGIC_PROBE_REPLY, r.probe, r.svcTimeNs, trailing);
    }
  }

  ghost predicate AllZero(b: seq<Byte>, lo: nat, hi: nat)
    requires lo <= hi <= |b|
  {
    forall i :: lo <= i < hi ==> b[i] == 0
  }

  lemma ProbeFieldAt(b: seq<Byte>, k: nat, o: nat)
    requires |b| >= PROBE_SIZE && k < 10 && Offset(PROBE_FMT, k) == o
    ensures o + PROBE_FMT[k] <= PROBE_SIZE && UnpackProbe(b)[k] == Val(b[o..o + PROBE_FMT[k]])
  {
    ProbeSize();
    FieldAt(PROBE_FMT, b[..PROBE_SIZE], k);
    assert b[..PROBE_SIZE][o..o + PROBE_FMT[k]] == b[o..o + PROBE_FMT[k]];
  }

  lemma ProbeByteFields(b: seq<Byte>)
    requires |b| >= PROBE_SIZE
    ensures var f := UnpackProbe(b);
            && f[0] == b[0] && f[1] == b[1]
            && (f[4] == 0 <==> b[5] == 0) && (f[6] == 0 <==> AllZero(b, 14, 22))
  {
    ProbeOffsets();
    ProbeFieldAt(b, 0, 0);
    ProbeFieldAt(b, 1, 1);
    ProbeFieldAt(b, 4, 5);
    ProbeFieldAt(b, 6, 14);
    ValOfByte(b[0..1]);
    ValOfByte(b[1..2]);
    ValOfByte(b[5..6]);
    ValZeroIff(b[14..22]);
    assert forall i :: 14 <= i < 22 ==> b[14..22][i - 14] == b[i];
  }

  lemma ValOfByte(b: seq<Byte>)
    requires |b| == 1
    ensures Val(b) == b[0]
  {
    assert b[..0] == [];
  }

  lemma ProbeOffsets()
    ensures Offset(PROBE_FMT, 0) == 0 && Offset(PROBE_FMT, 1) == 1
    ensures Offset(PROBE_FMT, 4) == 5 && Offset(PROBE_FMT, 6) == 14
  {
    var t2 := PROBE_FMT[1..][1..];
    var t4 := t2[1..][1..];
    assert Offset(t4[1..], 1) == 8;
    assert Offset(t4, 2) == 9;
    assert Offset(t2[1..], 1) == 1 && Offset(t2[1..], 3) == 10;
  }

  lemma DecodedInRange(b: seq<Byte>)
    requires |b| >= PROBE_SIZE
    ensures var f := UnpackProbe(b); ProbeInRange(ProbeOf(f)) && U8(f[0]) && U64(f[6])
  {
    ProbeSize();
    Widths();
    UnpackFits(PROBE_FMT, b[..PROBE_SIZE]);
  }

  lemma SameFieldsIff(f: seq<nat>, svc: nat)
    requires |f| == 10 && f[1] == PROBE_VERSION && ProbeInRange(ProbeOf(f))
    ensures ProbeFields(f[0], ProbeOf(f), svc) == f <==> f[4] == 0 && f[6] == svc
  {
    var g := ProbeFields(f[0], ProbeOf(f), svc);
    if f[4] == 0 && f[6] == svc {
      assert g == f;
    }
  }

  lemma RepackIff(b: seq<Byte>, svc: nat)
    requires |b| >= PROBE_SIZE && U64(svc) && UnpackProbe(b)[1] == PROBE_VERSION
    requires ProbeInRange(ProbeOf(UnpackProbe(b))) && U8(UnpackProbe(b)[0])
    ensures var f := UnpackProbe(b); PackProbe(f[0], ProbeOf(f), svc) == b[..PROBE_SIZE] <==> f[4] == 0 && f[6] == svc
  {
    ProbeSize();
    var f := UnpackProbe(b);
    var packed := PackProbe(f[0], ProbeOf(f), svc);
    PackUnpack(PROBE_FMT, b[..PROBE_SIZE]);
    UnpackPackedProbe(f[0], ProbeOf(f), svc, []);
    assert packed + [] == packed && packed[..PROBE_SIZE] == packed;
    SameFieldsIff(f, svc);
  }

  /** Exactly these payloads are probes; a decoded probe always encodes again, to
      the payload's own bytes exactly when its reserved and service-time bytes are zero. */
  lemma DecodeProbeIff(b: seq<Byte>)
    ensures DecodeProbe(b).Ok? <==> |b| >= PROBE_SIZE && b[0] == MAGIC_PROBE && b[1] == PROBE_VERSION
    ensures DecodeProbe(b).Ok? ==>
              && EncodeProbe(DecodeProbe(b).value).Ok?
              && (EncodeProbe(DecodeProbe(b).value).value == b[..PROBE_SIZE] <==> b[5] == 0 && AllZero(b, 14, 22))
  {
    if |b| >= PROBE_SIZE {
      ProbeByteFields(b);
      DecodedInRange(b);
      if DecodeProbe(b).Ok? { RepackIff(b, 0); }
    }
  }

  lemma DecodeProbeReplyIff(b: seq<Byte>)
    ensures DecodeProbeReply(b).Ok? <==> |b| >= PROBE_SIZE && b[0] == MAGIC_PROBE_REPLY && b[1] == PROBE_VERSION
    ensures DecodeProbeReply(b).Ok? ==>
              && EncodeProbeReply(DecodeProbeReply(b).value).Ok?
              && (EncodeProbeReply(DecodeProbeReply(b).value).value == b[..PROBE_SIZE] <==> b[5] == 0)
  {
    if |b| >= PROBE_SIZE {
      ProbeByteFields(b);
      DecodedInRange(b);
      if DecodeProbeReply(b).Ok? { RepackIff(b, UnpackProbe(b)[6]); }
    }
  }

  // ---------------------------------------------------------------------
  // LOSS_REPORT
  // ---------------------------------------------------------------------

  /** magic, version, window_id, num_planes, reserved */
  const LOSS_HDR_FMT: seq<nat> := [1, 1, 2, 2, 2]
  const LOSS_HDR_SIZE: nat := 8

  /** plane_id, reserved, reserved, seen, expected, max_gap */
  const LOSS_REC_FMT: seq<nat> := [1, 1, 2, 4, 4, 4]
  const LOSS_REC_SIZE: nat := 16

  datatype LossFields = LossFields(planeId: int, seen: int, expected: int, maxGap: int)

  predicate RecordInRange(r: LossFields) {
    U8(r.planeId) && U32(r.seen) && U32(r.expected) && U32(r.maxGap)
  }

  /** Construction refuses every other value. */
  type PlaneLossRecord = r: LossFields | RecordInRange(r) witness LossFields(0, 0, 0, 0)

  datatype LossReport = LossReport(windowId: int, planes: seq<PlaneLossRecord>)

  lemma LossSizes()
    ensures Size(LOSS_HDR_FMT) == LOSS_HDR_SIZE && Size(LOSS_REC_FMT) == LOSS_REC_SIZE
  {
    assert Size([2, 2]) == 4;
    assert Size([2, 2, 2]) == 6;
    assert Size([4, 4]) == 8;
    assert Size([2, 4, 4, 4]) == 14;
  }

  function HeaderBytes(windowId: nat, planes: nat): (b: seq<Byte>)
    requires U16(windowId) && U16(planes)
    ensures |b| == LOSS_HDR_SIZE
  {
    LossSizes();
    Widths();
    Pack(LOSS_HDR_FMT, [MAGIC_LOSS_REPORT, LOSS_REPORT_VERSION, windowId, planes, 0])
  }

  function RecordBytes(r: PlaneLossRecord): (b: seq<Byte>)
    ensures |b| == LOSS_REC_SIZE
  {
    LossSizes();
    Widths();
    Pack(LOSS_REC_FMT, [r.planeId, 0, 0, r.seen, r.expected, r.maxGap])
  }

  function ReadHeader(b: seq<Byte>): (f: seq<nat>)
    requires |b| == LOSS_HDR_SIZE
    ensures |f| == 5
  {
    LossSizes();
    Unpack(LOSS_HDR_FMT, b)
  }

  function ReadRecord(b: seq<Byte>): PlaneLossRecord
    requires |b| == LOSS_REC_SIZE
  {
    LossSizes();
    Widths();
    UnpackFits(LOSS_REC_FMT, b);
    var f := Unpack(LOSS_REC_FMT, b);
    LossFields(f[0], f[3], f[4], f[5])
  }

  /** Records laid end to end, and a payload cut into n records. */
  function Concat(records: seq<seq<Byte>>): seq<Byte> {
    if records == [] then [] else Concat(records[..|records| - 1]) + records[|records| - 1]
  }

  function Chunk(b: seq<Byte>, i: nat): (c: seq<Byte>)
    requires |b| >= LOSS_REC_SIZE * (i + 1)
    ensures |c| == LOSS_REC_SIZE
  {
    b[LOSS_REC_SIZE * i..LOSS_REC_SIZE * (i + 1)]
  }

  ghost predicate AllChunks(records: seq<seq<Byte>>) {
    forall i :: 0 <= i < |records| ==> |records[i]| == LOSS_REC_SIZE
  }

  lemma {:induction false} ConcatSize(records: seq<seq<Byte>>)
    requires AllChunks(records)
    ensures |Concat(records)| == LOSS_REC_SIZE * |records|
  {
    if records != [] {
      ConcatSize(records[..|records| - 1]);
    }
  }

  lemma {:induction false} ChunkOfConcat(records: seq<seq<Byte>>, trailing: seq<Byte>, i: nat)
    requires AllChunks(records) && i < |records|
    ensures |Concat(records)| == LOSS_REC_SIZE * |records| && Chunk(Concat(records) + trailing, i) == records[i]
  {
    var init, last := records[..|records| - 1], records[|records| - 1];
    ConcatSize(records);
    ConcatSize(init);
    assert Concat(records) + trailing == Concat(init) + (last + trailing);
    if i < |init| {
      ChunkOfConcat(init, last + trailing, i);
    }
  }

  /** A payload is the concatenation of its own chunks, and of no others. */
  lemma {:induction false} ConcatIs(records: seq<seq<Byte>>, b: seq<Byte>)
    requires AllChunks(records) && |b| >= LOSS_REC_SIZE * |records|
    ensures Concat(records) == b[..LOSS_REC_SIZE * |records|] <==>
            forall i :: 0 <= i < |records| ==> records[i] == Chunk(b, i)
  {
    ConcatSize(records);
    if records != [] {
      var n := |records| - 1;
      ConcatSize(records[..n]);
      ConcatIs(records[..n], b);
      var whole := b[..LOSS_REC_SIZE * |records|];
      assert whole == b[..LOSS_REC_SIZE * n] + Chunk(b, n);
      assert whole[..LOSS_REC_SIZE * n] == b[..LOSS_REC_SIZE * n];
      assert Concat(records)[..LOSS_REC_SIZE * n] == Concat(records[..n]);
      assert whole[LOSS_REC_SIZE * n..] == Chunk(b, n) && Concat(records)[LOSS_REC_SIZE * n..] == records[n];
    }
  }

  function RecordsOf(planes: seq<PlaneLossRecord>): (records: seq<seq<Byte>>)
    ensures AllChunks(records) && |records| == |planes|
  {
    seq(|planes|, i requires 0 <= i < |planes| => RecordBytes(planes[i]))
  }

  function ReadRecords(b: seq<Byte>, n: nat): (planes: seq<PlaneLossRecord>)
    requires |b| >= LOSS_REC_SIZE * n
    ensures |planes| == n && forall i :: 0 <= i < n ==> planes[i] == ReadRecord(Chunk(b, i))
  {
    seq(n, i requires 0 <= i < n => ReadRecord(Chunk(b, i)))
  }

  lemma ReadOneMore(b: seq<Byte>, n: nat)
    requires |b| >= LOSS_REC_SIZE * (n + 1)
    ensures ReadRecords(b, n + 1) == ReadRecords(b, n) + [ReadRecord(Chunk(b, n))]
  {
  }

  function EncodedLossReport(windowId: int, planes: seq<PlaneLossRecord>): Result<seq<Byte>> {
    if !U16(windowId) then Err(FieldOutOfRange)
    else if |planes| > 0xFFFF then Err(TooManyRecords)
    else Ok(HeaderBytes(windowId, |planes|) + Concat(RecordsOf(planes)))
  }

  function DecodedLossReport(payload: seq<Byte>): Result<LossReport> {
    if |payload| < LOSS_HDR_SIZE then Err(TooShort)
    else
      var h := ReadHeader(payload[..LOSS_HDR_SIZE]);
      if h[0] != MAGIC_LOSS_REPORT then Err(BadMagic)
      else if h[1] != LOSS_REPORT_VERSION then Err(BadVersion)
      else if |payload| < LOSS_HDR_SIZE + h[3] * LOSS_REC_SIZE then Err(TooShort)
      else Ok(LossReport(h[2], ReadRecords(payload[LOSS_HDR_SIZE..], h[3])))
  }

  method EncodeLossReport(windowId: int, planes: seq<PlaneLossRecord>) returns (r: Result<seq<Byte>>)
    ensures r == EncodedLossReport(windowId, planes)
  {
    if !U16(windowId) { return Err(FieldOutOfRange); }
    if |planes| > 0xFFFF { return Err(TooManyRecords); }
    var out := HeaderBytes(windowId, |planes|);
    for i := 0 to |planes|
      invariant out == HeaderBytes(windowId, |planes|) + Concat(RecordsOf(planes)[..i])
    {
      assert RecordsOf(planes)[..i + 1][..i] == RecordsOf(planes)[..i];
      out := out + RecordBytes(planes[i]);
    }
    assert RecordsOf(planes)[..|planes|] == RecordsOf(planes);
    return Ok(out);
  }

  method DecodeLossReport(payload: seq<Byte>) returns (r: Result<LossReport>)
    ensures r == DecodedLossReport(payload)
  {
    if |payload| < LOSS_HDR_SIZE { return Err(TooShort); }
    var h := ReadHeader(payload[..LOSS_HDR_SIZE]);
    if h[0] != MAGIC_LOSS_REPORT { return Err(BadMagic); }
    if h[1] != LOSS_REPORT_VERSION { return Err(BadVersion); }
    var numPlanes := h[3];
    if |payload| < LOSS_HDR_SIZE + numPlanes * LOSS_REC_SIZE { return Err(TooShort); }
    var planes: seq<PlaneLossRecord> := [];
    var off := LOSS_HDR_SIZE;
    for i := 0 to numPlanes
      invariant off == LOSS_HDR_SIZE + LOSS_REC_SIZE * i
      invariant planes == ReadRecords(payload[LOSS_HDR_SIZE..], i)
    {
      ReadOneMore(payload[LOSS_HDR_SIZE..], i);
      assert payload[off..off + LOSS_REC_SIZE] == Chunk(payload[LOSS_HDR_SIZE..], i);
      planes := planes + [ReadRecord(payload[off..off + LOSS_REC_SIZE])];
      off := off + LOSS_REC_SIZE;
    }
    return Ok(LossReport(h[2], planes));
  }

  lemma RecordRoundTrip(r: PlaneLossRecord)
    ensures ReadRecord(RecordBytes(r)) == r
  {
    Widths();
    UnpackPack(LOSS_REC_FMT, [r.planeId, 0, 0, r.seen, r.expected, r.maxGap]);
  }

  lemma RecordsRoundTrip(planes: seq<PlaneLossRecord>, trailing: seq<Byte>)
    ensures |Concat(RecordsOf(planes))| == LOSS_REC_SIZE * |planes|
    ensures ReadRecords(Concat(RecordsOf(planes)) + trailing, |planes|) == planes
  {
    var records := RecordsOf(planes);
    ConcatSize(records);
    forall i | 0 <= i < |planes| ensures ReadRecord(Chunk(Concat(records) + trailing, i)) == planes[i] {
      ChunkOfConcat(records, trailing, i);
      RecordRoundTrip(planes[i]);
    }
  }

  /** A report with a u16 window id and at most 65535 records encodes, and decodes
      to itself whatever bytes follow. */
  lemma LossReportRoundTrip(windowId: int, planes: seq<PlaneLossRecord>, trailing: seq<Byte>)
    ensures EncodedLossReport(windowId, planes).Ok? <==> U16(windowId) && |planes| <= 0xFFFF
    ensures EncodedLossReport(windowId, planes).Ok? ==>
              DecodedLossReport(EncodedLossReport(windowId, planes).value + trailing)
                      == Ok(LossReport(windowId, planes))
  {
    if EncodedLossReport(windowId, planes).Ok? {
      var b := EncodedLossReport(windowId, planes).value + trailing;
      HeaderRoundTrip(windowId, |planes|);
      RecordsRoundTrip(planes, trailing);
      assert b[..LOSS_HDR_SIZE] == HeaderBytes(windowId, |planes|);
      assert b[LOSS_HDR_SIZE..] == Concat(RecordsOf(planes)) + trailing;
    }
  }

  lemma HeaderRoundTrip(windowId: nat, planes: nat)
    requires U16(windowId) && U16(planes)
    ensures ReadHeader(HeaderBytes(windowId, planes)) == [MAGIC_LOSS_REPORT, LOSS_REPORT_VERSION, windowId, planes, 0]
  {
    Widths();
    UnpackPack(LOSS_HDR_FMT, [MAGIC_LOSS_REPORT, LOSS_REPORT_VERSION, windowId, planes, 0]);
  }

  /** The three messages are told apart by their first byte. */
  lemma MessagesDistinct(b: seq<Byte>)
    ensures DecodeProbe(b).Ok? ==> DecodeProbeReply(b).Err? && DecodedLossReport(b).Err?
    ensures DecodeProbeReply(b).Ok? ==> DecodedLossReport(b).Err?
  {
    if |b| >= PROBE_SIZE {
      ProbeByteFields(b);
      HeaderByteFields(b[..LOSS_HDR_SIZE]);
    }
  }

  lemma HeaderByteFields(b: seq<Byte>)
    requires |b| == LOSS_HDR_SIZE
    ensures ReadHeader(b)[0] == b[0] && ReadHeader(b)[1] == b[1]
    ensures ReadHeader(b)[4] == 0 <==> AllZero(b, 6, 8)
  {
    LossSizes();
    assert Offset([2, 2, 2], 2) == 4;
    FieldAt(LOSS_HDR_FMT, b, 0);
    FieldAt(LOSS_HDR_FMT, b, 1);
    FieldAt(LOSS_HDR_FMT, b, 4);
    ValOfByte(b[0..1]);
    ValOfByte(b[1..2]);
    ValZeroIff(b[6..8]);
    assert forall i :: 6 <= i < 8 ==> b[6..8][i - 6] == b[i];
  }

  lemma RecordByteFields(b: seq<Byte>)
    requires |b| == LOSS_REC_SIZE == Size(LOSS_REC_FMT)
    ensures Unpack(LOSS_REC_FMT, b)[1] == 0 && Unpack(LOSS_REC_FMT, b)[2] == 0 <==> AllZero(b, 1, 4)
  {
    assert Offset(LOSS_REC_FMT, 1) == 1 && Offset(LOSS_REC_FMT, 2) == 2;
    FieldAt(LOSS_REC_FMT, b, 1);
    FieldAt(LOSS_REC_FMT, b, 2);
    ValZeroIff(b[1..2]);
    ValZeroIff(b[2..4]);
    assert b[1] == b[1..2][0] && b[2] == b[2..4][0] && b[3] == b[2..4][1];
  }

  lemma RecordRepack(b: seq<Byte>)
    requires |b| == LOSS_REC_SIZE
    ensures RecordBytes(ReadRecord(b)) == b <==> AllZero(b, 1, 4)
  {
    LossSizes();
    Widths();
    RecordByteFields(b);
    var f := Unpack(LOSS_REC_FMT, b);
    var r := ReadRecord(b);
    RepackIffSame(LOSS_REC_FMT, b, [r.planeId, 0, 0, r.seen, r.expected, r.maxGap]);
    if f[1] == 0 && f[2] == 0 {
      assert f == [r.planeId, 0, 0, r.seen, r.expected, r.maxGap];
    }
  }

  /** A payload that decodes is the encoding of what it decodes to, up to trailing
      bytes, exactly when every reserved byte in it is zero. */
  lemma DecodeLossReportIff(b: seq<Byte>)
    requires DecodedLossReport(b).Ok?
    ensures var r := DecodedLossReport(b).value;
            && EncodedLossReport(r.windowId, r.planes).Ok?
            && LOSS_HDR_SIZE + LOSS_REC_SIZE * |r.planes| <= |b|
            && (EncodedLossReport(r.windowId, r.planes).value == b[..LOSS_HDR_SIZE + LOSS_REC_SIZE * |r.planes|] <==>
                && AllZero(b, 6, 8)
                && forall i :: 0 <= i < |r.planes| ==> AllZero(Chunk(b[LOSS_HDR_SIZE..], i), 1, 4))
  {
    var r := DecodedLossReport(b).value;
    var n := |r.planes|;
    HeaderRepack(b[..LOSS_HDR_SIZE]);
    BodyRepack(b[LOSS_HDR_SIZE..], n);
    TwoParts(HeaderBytes(r.windowId, n), Concat(RecordsOf(r.planes)), b);
  }

  lemma TwoParts(head: seq<Byte>, body: seq<Byte>, b: seq<Byte>)
    requires |head| + |body| <= |b|
    ensures head + body == b[..|head| + |body|] <==> head == b[..|head|] && body == b[|head|..][..|body|]
  {
    var whole := b[..|head| + |body|];
    assert whole == b[..|head|] + b[|head|..][..|body|];
    assert (head + body)[..|head|] == head && (head + body)[|head|..] == body;
    assert whole[..|head|] == b[..|head|] && whole[|head|..] == b[|head|..][..|body|];
  }

  lemma BodyRepack(b: seq<Byte>, n: nat)
    requires |b| >= LOSS_REC_SIZE * n
    ensures var records := RecordsOf(ReadRecords(b, n));
            && |Concat(records)| == LOSS_REC_SIZE * n
            && (Concat(records) == b[..LOSS_REC_SIZE * n] <==> forall i :: 0 <= i < n ==> AllZero(Chunk(b, i), 1, 4))
  {
    var records := RecordsOf(ReadRecords(b, n));
    ConcatSize(records);
    ConcatIs(records, b);
    forall i | 0 <= i < n ensures records[i] == Chunk(b, i) <==> AllZero(Chunk(b, i), 1, 4) {
      RecordRepack(Chunk(b, i));
    }
  }

  lemma HeaderRepack(b: seq<Byte>)
    requires |b| == LOSS_HDR_SIZE
    ensures var h := ReadHeader(b);
            && U16(h[2]) && U16(h[3])
            && (h[0] == MAGIC_LOSS_REPORT && h[1] == LOSS_REPORT_VERSION ==>
                  (HeaderBytes(h[2], h[3]) == b <==> AllZero(b, 6, 8)))
  {
    LossSizes();
    Widths();
    HeaderByteFields(b);
    var h := ReadHeader(b);
    UnpackFits(LOSS_HDR_FMT, b);
    RepackIffSame(LOSS_HDR_FMT, b, [MAGIC_LOSS_REPORT, LOSS_REPORT_VERSION, h[2], h[3], 0]);
    if h[0] == MAGIC_LOSS_REPORT && h[1] == LOSS_REPORT_VERSION && h[4] == 0 {
      assert h == [MAGIC_LOSS_REPORT, LOSS_REPORT_VERSION, h[2], h[3], 0];
    }
  }

  // ---------------------------------------------------------------------
  // The messages byte by byte, in network byte order
  // ---------------------------------------------------------------------

  function U16At(b: seq<Byte>, i: nat): nat
    requires i + 2 <= |b|
  {
    0x100 * (b[i] as nat) + b[i + 1]
  }

  function U32At(b: seq<Byte>, i: nat): nat
    requires i + 4 <= |b|
  {
    0x100_0000 * (b[i] as nat) + 0x1_0000 * (b[i + 1] as nat) + 0x100 * (b[i + 2] as nat) + b[i + 3]
  }

  function U64At(b: seq<Byte>, i: nat): nat
    requires i + 8 <= |b|
  {
    0x1_0000_0000 * U32At(b, i) + U32At(b, i + 4)
  }

  lemma ValSnoc(b: seq<Byte>, x: Byte)
    ensures Val(b + [x]) == 0x100 * Val(b) + x
  {
    assert (b + [x])[..|b|] == b;
  }

  lemma ValOfTwo(b: seq<Byte>, i: nat)
    requires i + 2 <= |b|
    ensures Val(b[i..i + 2]) == U16At(b, i)
  {
    ValOfByte([b[i]]);
    ValSnoc([b[i]], b[i + 1]);
    assert b[i..i + 2] == [b[i]] + [b[i + 1]];
  }

  lemma ValOfFour(b: seq<Byte>, i: nat)
    requires i + 4 <= |b|
    ensures Val(b[i..i + 4]) == U32At(b, i)
  {
    ValOfTwo(b, i);
    ValSnoc(b[i..i + 2], b[i + 2]);
    ValSnoc(b[i..i + 3], b[i + 3]);
    assert b[i..i + 3] == b[i..i + 2] + [b[i + 2]] && b[i..i + 4] == b[i..i + 3] + [b[i + 3]];
  }

  lemma ValOfEight(b: seq<Byte>, i: nat)
    requires i + 8 <= |b|
    ensures Val(b[i..i + 8]) == U64At(b, i)
  {
    ValOfFour(b, i);
    ValSnoc(b[i..i + 4], b[i + 4]);
    ValSnoc(b[i..i + 5], b[i + 5]);
    ValSnoc(b[i..i + 6], b[i + 6]);
    ValSnoc(b[i..i + 7], b[i + 7]);
    assert b[i..i + 5] == b[i..i + 4] + [b[i + 4]] && b[i..i + 6] == b[i..i + 5] + [b[i + 5]];
    assert b[i..i + 7] == b[i..i + 6] + [b[i + 6]] && b[i..i + 8] == b[i..i + 7] + [b[i + 7]];
  }

  /** A probe as it lies in a payload, after the magic byte. */
  ghost predicate ProbeLiesIn(p: Probe, b: seq<Byte>) {
    && |b| >= 28 && b[1] == 2
    && p.reqId == U16At(b, 2) && p.planeId == b[4] && p.txNs == U64At(b, 6)
    && p.tenantId == U16At(b, 22) && p.srcId == U16At(b, 24) && p.replyPort == U16At(b, 26)
  }

  lemma OffsetPastTwo(widths: seq<nat>, k: nat)
    requires 2 <= k < |widths|
    ensures Offset(widths, k) == widths[0] + widths[1] + Offset(widths[2..], k - 2)
  {
    assert widths[1..][1..] == widths[2..];
    assert Offset(widths[1..], k - 1) == widths[1] + Offset(widths[1..][1..], k - 2);
  }

  lemma EarlyOffsets()
    ensures Offset(PROBE_FMT, 2) == 2 && Offset(PROBE_FMT, 3) == 4 && Offset(PROBE_FMT, 5) == 6
  {
    OffsetPastTwo(PROBE_FMT, 2);
    OffsetPastTwo(PROBE_FMT, 3);
    OffsetPastTwo(PROBE_FMT, 5);
    OffsetPastTwo(PROBE_FMT[2..], 3);
  }

  lemma LateOffsets()
    ensures Offset(PROBE_FMT, 7) == 22 && Offset(PROBE_FMT, 8) == 24 && Offset(PROBE_FMT, 9) == 26
  {
    PastFour(7);
    PastFour(8);
    PastFour(9);
    TailOffsets();
  }

  lemma PastFour(k: nat)
    requires 4 <= k < 10
    ensures Offset(PROBE_FMT, k) == 5 + Offset([1, 8, 8, 2, 2, 2], k - 4)
  {
    assert PROBE_FMT[2..][2..] == [1, 8, 8, 2, 2, 2];
    OffsetPastTwo(PROBE_FMT, k);
    OffsetPastTwo(PROBE_FMT[2..], k - 2);
  }

  lemma TailOffsets()
    ensures Offset([1, 8, 8, 2, 2, 2], 3) == 17 && Offset([1, 8, 8, 2, 2, 2], 4) == 19
    ensures Offset([1, 8, 8, 2, 2, 2], 5) == 21
  {
    var t4, t6 := [1, 8, 8, 2, 2, 2], [8, 2, 2, 2];
    assert t4[2..] == t6 && t6[2..] == [2, 2];
    OffsetPastTwo(t4, 3);
    OffsetPastTwo(t4, 4);
    OffsetPastTwo(t4, 5);
    OffsetPastTwo(t6, 2);
    OffsetPastTwo(t6, 3);
  }

  lemma EarlyFields(b: seq<Byte>)
    requires |b| >= PROBE_SIZE
    ensures UnpackProbe(b)[2] == U16At(b, 2) && UnpackProbe(b)[3] == b[4]
  {
    EarlyOffsets();
    ProbeFieldAt(b, 2, 2);
    ProbeFieldAt(b, 3, 4);
    ValOfTwo(b, 2);
    ValOfByte(b[4..5]);
  }

  lemma TimeFields(b: seq<Byte>)
    requires |b| >= PROBE_SIZE
    ensures UnpackProbe(b)[5] == U64At(b, 6) && UnpackProbe(b)[6] == U64At(b, 14)
  {
    ProbeOffsets();
    EarlyOffsets();
    ProbeFieldAt(b, 5, 6);
    ProbeFieldAt(b, 6, 14);
    ValOfEight(b, 6);
    ValOfEight(b, 14);
  }

  lemma LateFields(b: seq<Byte>)
    requires |b| >= PROBE_SIZE
    ensures var f := UnpackProbe(b); f[7] == U16At(b, 22) && f[8] == U16At(b, 24) && f[9] == U16At(b, 26)
  {
    LateOffsets();
    ProbeFieldAt(b, 7, 22);
    ProbeFieldAt(b, 8, 24);
    ProbeFieldAt(b, 9, 26);
    ValOfTwo(b, 22);
    ValOfTwo(b, 24);
    ValOfTwo(b, 26);
  }

  lemma UnpackedLiesIn(b: seq<Byte>)
    requires |b| >= PROBE_SIZE && b[1] == 2
    ensures ProbeLiesIn(ProbeOf(UnpackProbe(b)), b) && UnpackProbe(b)[6] == U64At(b, 14)
  {
    EarlyFields(b);
    TimeFields(b);
    LateFields(b);
  }

  /** Where every field of a PROBE lies, in what is decoded and in what is encoded. */
  lemma ProbeBytes(b: seq<Byte>, p: Probe)
    ensures DecodeProbe(b) == Ok(p) ==> ProbeLiesIn(p, b) && b[0] == 0xA5
    ensures EncodeProbe(p) == Ok(b) ==>
              ProbeLiesIn(p, b) && |b| == 28 && b[0] == 0xA5 && b[5] == 0 && AllZero(b, 14, 22)
  {
    if EncodeProbe(p) == Ok(b) {
      ProbeRoundTrip(p, []);
      assert b + [] == b && b[..PROBE_SIZE] == b;
    }
    if DecodeProbe(b) == Ok(p) {
      DecodeProbeIff(b);
      UnpackedLiesIn(b);
    }
  }

  /** The same for PROBE_REPLY, with the service time where a probe has zeros. */
  lemma ProbeReplyBytes(b: seq<Byte>, r: ProbeReply)
    ensures DecodeProbeReply(b) == Ok(r) ==> ProbeLiesIn(r.probe, b) && b[0] == 0xA6 && r.svcTimeNs == U64At(b, 14)
    ensures EncodeProbeReply(r) == Ok(b) ==>
              ProbeLiesIn(r.probe, b) && |b| == 28 && b[0] == 0xA6 && b[5] == 0 && r.svcTimeNs == U64At(b, 14)
  {
    if EncodeProbeReply(r) == Ok(b) {
      ProbeReplyRoundTrip(r, []);
      assert b + [] == b && b[..PROBE_SIZE] == b;
    }
    if DecodeProbeReply(b) == Ok(r) {
      DecodeProbeReplyIff(b);
      UnpackedLiesIn(b);
    }
  }

  /** A loss record as it lies in the payload at o. */
  ghost predicate RecordLiesIn(r: PlaneLossRecord, b: seq<Byte>, o: nat) {
    && o + 16 <= |b| && r.planeId == b[o]
    && r.seen == U32At(b, o + 4) && r.expected == U32At(b, o + 8) && r.maxGap == U32At(b, o + 12)
  }

  lemma RecordOffsets()
    ensures Offset(LOSS_REC_FMT, 0) == 0 && Offset(LOSS_REC_FMT, 3) == 4
    ensures Offset(LOSS_REC_FMT, 4) == 8 && Offset(LOSS_REC_FMT, 5) == 12
  {
    var t2 := LOSS_REC_FMT[1..][1..];
    assert Offset(t2[1..][1..], 1) == 4;
    assert Offset(t2[1..], 0) == 0 && Offset(t2[1..], 1) == 4 && Offset(t2[1..], 2) == 8;
    assert Offset(t2, 1) == 2 && Offset(t2, 2) == 6 && Offset(t2, 3) == 10;
  }

  lemma ReadRecordBytes(b: seq<Byte>)
    requires |b| == LOSS_REC_SIZE
    ensures RecordLiesIn(ReadRecord(b), b, 0)
  {
    LossSizes();
    RecordOffsets();
    FieldAt(LOSS_REC_FMT, b, 0);
    FieldAt(LOSS_REC_FMT, b, 3);
    FieldAt(LOSS_REC_FMT, b, 4);
    FieldAt(LOSS_REC_FMT, b, 5);
    ValOfByte(b[0..1]);
    ValOfFour(b, 4);
    ValOfFour(b, 8);
    ValOfFour(b, 12);
  }

  lemma HeaderNumbers(b: seq<Byte>)
    requires |b| == LOSS_HDR_SIZE
    ensures ReadHeader(b)[2] == U16At(b, 2) && ReadHeader(b)[3] == U16At(b, 4)
  {
    LossSizes();
    var t2 := LOSS_HDR_FMT[1..][1..];
    assert Offset(t2, 0) == 0 && Offset(t2, 1) == 2;
    assert Offset(LOSS_HDR_FMT, 2) == 2 && Offset(LOSS_HDR_FMT, 3) == 4;
    FieldAt(LOSS_HDR_FMT, b, 2);
    FieldAt(LOSS_HDR_FMT, b, 3);
    ValOfTwo(b, 2);
    ValOfTwo(b, 4);
  }

  /** Where every field of a LOSS_REPORT lies: a header of 8 bytes, then 16 for each record. */
  lemma LossReportBytes(b: seq<Byte>, r: LossReport, i: nat)
    requires DecodedLossReport(b) == Ok(r) && i < |r.planes|
    ensures |b| >= 8 + 16 * |r.planes| && b[0] == 0xA7 && b[1] == 1
    ensures r.windowId == U16At(b, 2) && |r.planes| == U16At(b, 4) && RecordLiesIn(r.planes[i], b, 8 + 16 * i)
  {
    HeaderByteFields(b[..LOSS_HDR_SIZE]);
    HeaderNumbers(b[..LOSS_HDR_SIZE]);
    var chunk := Chunk(b[LOSS_HDR_SIZE..], i);
    ReadRecordBytes(chunk);
    assert forall j :: 0 <= j < 16 ==> chunk[j] == b[8 + 16 * i + j];
  }

  lemma EncodedReportBytes(windowId: int, planes: seq<PlaneLossRecord>, b: seq<Byte>, i: nat)
    requires EncodedLossReport(windowId, planes) == Ok(b) && i < |planes|
    ensures |b| == 8 + 16 * |planes| && b[0] == 0xA7 && b[1] == 1
    ensures windowId == U16At(b, 2) && |planes| == U16At(b, 4) && RecordLiesIn(planes[i], b, 8 + 16 * i)
  {
    LossReportRoundTrip(windowId, planes, []);
    ConcatSize(RecordsOf(planes));
    assert b + [] == b;
    LossReportBytes(b, LossReport(windowId, planes), i);
  }

  /** The error, read off the length and the first two bytes, that is checked first decides. */
  function ShapeError(b: seq<Byte>, size: nat, magic: Byte, version: Byte): Option<Error>
    requires size >= 2
  {
    if |b| < size then Some(TooShort)
    else if b[0] != magic then Some(BadMagic)
    else if b[1] != version then Some(BadVersion)
    else None
  }

  /** What is no PROBE and no PROBE_REPLY is refused for its length, its magic or its version,
      in that order, and for nothing else. */
  lemma ProbeErrors(b: seq<Byte>)
    ensures match ShapeError(b, 28, 0xA5, 2) case Some(e) => DecodeProbe(b) == Err(e) case None => DecodeProbe(b).Ok?
    ensures match ShapeError(b, 28, 0xA6, 2)
            case Some(e) => DecodeProbeReply(b) == Err(e)
            case None => DecodeProbeReply(b).Ok?
  {
    if |b| >= PROBE_SIZE { ProbeByteFields(b); }
  }

  /** The same for a LOSS_REPORT, and then for fewer bytes than its number of records needs. */
  lemma LossReportErrors(b: seq<Byte>)
    ensures match ShapeError(b, 8, 0xA7, 1)
            case Some(e) => DecodedLossReport(b) == Err(e)
            case None => if |b| < 8 + 16 * U16At(b, 4) then DecodedLossReport(b) == Err(TooShort)
                         else DecodedLossReport(b).Ok?
  {
    if |b| >= LOSS_HDR_SIZE {
      HeaderByteFields(b[..LOSS_HDR_SIZE]);
      HeaderNumbers(b[..LOSS_HDR_SIZE]);
      assert U16At(b[..LOSS_HDR_SIZE], 4) == U16At(b, 4);
    }
  }
}
