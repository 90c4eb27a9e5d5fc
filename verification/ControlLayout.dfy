/** Where everything stands in a control frame: byte offsets and widths, numbers most
    significant byte first. Two implementations that agree on this understand each
    other. */
module ControlLayout {
  import opened Wire
  import opened NetworkTypes
  import opened IdentityCodec
  import opened ControlFrames

  /** From this offset on stand these bytes. */
  ghost predicate BytesAt(b: seq<byte>, at: nat, s: seq<byte>) { at + |s| <= |b| && b[at..at + |s|] == s }

  /** From this offset on stand these numbers, one behind the other, of these widths. */
  ghost predicate RowAt(b: seq<byte>, at: nat, nums: seq<nat>, widths: seq<nat>)
    requires |nums| == |widths|
    decreases |nums|
  {
    nums == [] || (
      && at + widths[0] <= |b| && FromBE(b[at..at + widths[0]]) == nums[0]
      && RowAt(b, at + widths[0], nums[1..], widths[1..]))
  }

  ghost predicate RuntimeAt(b: seq<byte>, at: nat, r: Runtime) {
    BytesAt(b, at, r.host) && BytesAt(b, at + 16, r.boot) && RowAt(b, at + 32, [Bits(r.pid), r.ticks], [4, 8])
  }

  ghost predicate TypeAt(b: seq<byte>, at: nat, t: TypeIdentity) {
    RowAt(b, at, [t.typeId, t.schemaId, t.encodingId, t.payloadSize], [8, 8, 4, 4])
  }

  // ---------------------------------------------------------------------
  // What is put in front, and what is behind it
  // ---------------------------------------------------------------------

  /** What stands in the part of b behind n bytes. */
  lemma {:induction false} RowBehind(b: seq<byte>, n: nat, at: nat, nums: seq<nat>, widths: seq<nat>)
    requires n <= |b| && |nums| == |widths| && RowAt(b[n..], at, nums, widths)
    ensures RowAt(b, n + at, nums, widths)
    decreases |nums|
  {
    if nums != [] {
      assert b[n..][at..at + widths[0]] == b[n + at..n + at + widths[0]];
      RowBehind(b, n, at + widths[0], nums[1..], widths[1..]);
    }
  }

  lemma BytesBehind(b: seq<byte>, n: nat, at: nat, s: seq<byte>)
    requires n <= |b| && BytesAt(b[n..], at, s)
    ensures BytesAt(b, n + at, s)
  {
    assert b[n..][at..at + |s|] == b[n + at..n + at + |s|];
  }

  lemma RuntimeBehind(b: seq<byte>, n: nat, at: nat, r: Runtime)
    requires n <= |b| && RuntimeAt(b[n..], at, r)
    ensures RuntimeAt(b, n + at, r)
  {
    hide RowAt, BytesAt;
    BytesBehind(b, n, at, r.host);
    BytesBehind(b, n, at + 16, r.boot);
    RowBehind(b, n, at + 32, [Bits(r.pid), r.ticks], [4, 8]);
    assert n + (at + 16) == n + at + 16 && n + (at + 32) == n + at + 32;
  }

  lemma TypeBehind(b: seq<byte>, n: nat, at: nat, t: TypeIdentity)
    requires n <= |b| && TypeAt(b[n..], at, t)
    ensures TypeAt(b, n + at, t)
  {
    RowBehind(b, n, at, [t.typeId, t.schemaId, t.encodingId, t.payloadSize], [8, 8, 4, 4]);
  }

  lemma {:induction false} PutRow(nums: seq<nat>, widths: seq<nat>, rest: seq<byte>)
    requires NumsFit(nums, widths)
    ensures var b := PutNums(nums, widths, rest);
      RowAt(b, 0, nums, widths) && b[Total(widths)..] == rest
  {
    if nums != [] {
      var w, tail, b := widths[0], PutNums(nums[1..], widths[1..], rest), PutNums(nums, widths, rest);
      PutRow(nums[1..], widths[1..], rest);
      FromBEOfBE(nums[0], w);
      assert b[..w] == BE(nums[0], w) && b[w..] == tail && b[0..w] == b[..w];
      RowBehind(b, w, 0, nums[1..], widths[1..]);
      assert b[Total(widths)..] == tail[Total(widths[1..])..];
    }
  }

  lemma RuntimeStands(r: Runtime, rest: seq<byte>)
    ensures RuntimeAt(PutRuntime(r, rest), 0, r) && PutRuntime(r, rest)[44..] == rest
  {
    IdentitySizes();
    Widths();
    var nums := [Bits(r.pid), r.ticks];
    var tail, b := PutNums(nums, PROCESS, rest), PutRuntime(r, rest);
    PutRow(nums, PROCESS, rest);
    hide RowAt, PutNums;
    assert b[0..16] == r.host && b[16..32] == r.boot && b[32..] == tail;
    RowBehind(b, 32, 0, nums, PROCESS);
    assert b[44..] == tail[12..];
  }

  lemma TypeStands(t: TypeIdentity, rest: seq<byte>)
    ensures TypeAt(PutType(t, rest), 0, t) && PutType(t, rest)[24..] == rest
  {
    IdentitySizes();
    Widths();
    PutRow([t.typeId, t.schemaId, t.encodingId, t.payloadSize], TYPE, rest);
  }

  // ---------------------------------------------------------------------
  // The groups of fields
  // ---------------------------------------------------------------------

  ghost predicate WhoAt(b: seq<byte>, at: nat, w: Who) {
    RuntimeAt(b, at, w.source) && RowAt(b, at + 44, [w.session, w.request], [8, 8]) && RuntimeAt(b, at + 60, w.runtime)
  }

  lemma WhoStands(w: Who, rest: seq<byte>)
    ensures WhoAt(PutWho(w, rest), 0, w) && PutWho(w, rest)[104..] == rest
  {
    hide RowAt, BytesAt, RuntimeAt, PutNums, PutRuntime;
    Sizes();
    Widths();
    var last := PutRuntime(w.runtime, rest);
    var ids := PutNums([w.session, w.request], IDS, last);
    var b := PutRuntime(w.source, ids);
    RuntimeStands(w.source, ids);
    PutRow([w.session, w.request], IDS, last);
    RuntimeStands(w.runtime, rest);
    RowBehind(b, 44, 0, [w.session, w.request], [8, 8]);
    RuntimeBehind(ids, 16, 0, w.runtime);
    RuntimeBehind(b, 44, 16, w.runtime);
    assert b[44..][16..][44..] == b[104..];
  }

  ghost predicate WhatAt(b: seq<byte>, at: nat, w: What) {
    && RowAt(b, at, [w.registration, w.target, w.reason, 0], [8, 1, 1, 2]) && TypeAt(b, at + 12, w.valueType)
    && RowAt(b, at + 36, [w.timeout, Bits(w.status), w.nameSize, 0, w.payloadSize], [4, 4, 2, 2, 4])
  }

  lemma WhatStands(w: What, rest: seq<byte>)
    ensures WhatAt(PutWhat(w, rest), 0, w) && PutWhat(w, rest)[52..] == rest
  {
    hide RowAt, TypeAt, PutNums, PutType, NumsFit;
    Sizes();
    RouteFits(w);
    var sizes := PutNums(SizeNums(w), SIZES, rest);
    var t := PutType(w.valueType, sizes);
    var b := PutNums(RouteNums(w), ROUTE, t);
    PutRow(RouteNums(w), ROUTE, t);
    TypeStands(w.valueType, sizes);
    PutRow(SizeNums(w), SIZES, rest);
    TypeBehind(b, 12, 0, w.valueType);
    RowBehind(t, 24, 0, SizeNums(w), SIZES);
    RowBehind(b, 12, 24, SizeNums(w), SIZES);
    assert b[12..][24..][16..] == b[52..];
  }

  ghost predicate ActionAt(b: seq<byte>, at: nat, x: Extension) {
    && TypeAt(b, at, x.responseType) && TypeAt(b, at + 24, x.feedbackType) && RuntimeAt(b, at + 48, x.goal.source)
    && RowAt(b, at + 92, [x.goal.goalId, x.goal.session], [8, 8])
    && RowAt(b, at + 108, [x.actionState, if x.outcomeUnknown then 1 else 0, 0, x.feedbackSequence], [1, 1, 2, 8])
  }

  ghost predicate ProgressAt(b: seq<byte>, at: nat, p: Progress) {
    && RowAt(b, at, [p.goalId, p.session], [8, 8])
    && RowAt(b, at + 16, [p.state, if p.unknown then 1 else 0, 0, p.sequence], [1, 1, 2, 8])
  }

  lemma ProgressStands(p: Progress, rest: seq<byte>)
    ensures ProgressAt(PutProgress(p, rest), 0, p) && PutProgress(p, rest)[28..] == rest
  {
    hide RowAt, PutNums;
    Sizes();
    Widths();
    var state := PutNums(StateNums(p), STATE, rest);
    var b := PutNums([p.goalId, p.session], IDS, state);
    PutRow([p.goalId, p.session], IDS, state);
    PutRow(StateNums(p), STATE, rest);
    RowBehind(b, 16, 0, StateNums(p), STATE);
    assert b[16..][12..] == b[28..];
  }

  lemma ActionStands(x: Extension, rest: seq<byte>)
    ensures ActionAt(PutAction(x, rest), 0, x) && PutAction(x, rest)[120..] == rest
  {
    hide RowAt, TypeAt, RuntimeAt, BytesAt, PutNums, PutType, PutRuntime, PutProgress;
    var p := ProgressOf(x);
    var progress := PutProgress(p, rest);
    var goal := PutRuntime(x.goal.source, progress);
    var feedback := PutType(x.feedbackType, goal);
    var b := PutType(x.responseType, feedback);
    TypeStands(x.responseType, feedback);
    TypeStands(x.feedbackType, goal);
    RuntimeStands(x.goal.source, progress);
    ProgressStands(p, rest);
    TypeBehind(b, 24, 0, x.feedbackType);
    RuntimeBehind(feedback, 24, 0, x.goal.source);
    RuntimeBehind(b, 24, 24, x.goal.source);
    assert b[24..][24..] == b[48..] && b[48..][44..] == b[92..] && b[92..][28..] == b[120..];
    RowBehind(b, 92, 0, [p.goalId, p.session], [8, 8]);
    RowBehind(b, 92, 16, StateNums(p), STATE);
  }

  ghost predicate ExtensionAt(b: seq<byte>, at: nat, op: u16, x: Extension) {
    if IsService(op) then TypeAt(b, at, x.responseType)
    else if IsAction(op) then ActionAt(b, at, x)
    else IsDescriptor(op) ==> RowAt(b, at, [x.role, 0], [1, 3])
  }

  lemma ExtensionStands(op: u16, x: Extension, rest: seq<byte>)
    ensures var b := PutExtension(op, x, rest); ExtensionAt(b, 0, op, x) && b[ExtensionSize(op)..] == rest
  {
    hide RowAt, TypeAt, ActionAt, PutNums, PutType, PutAction;
    Sizes();
    Widths();
    if IsService(op) {
      TypeStands(x.responseType, rest);
    } else if IsAction(op) {
      ActionStands(x, rest);
    } else if IsDescriptor(op) {
      PutRow([x.role, 0], ROLE, rest);
    }
  }

  lemma ExtensionBehind(b: seq<byte>, n: nat, op: u16, x: Extension)
    requires n <= |b| && ExtensionAt(b[n..], 0, op, x)
    ensures ExtensionAt(b, n, op, x)
  {
    hide RowAt, TypeAt, RuntimeAt;
    if IsService(op) {
      TypeBehind(b, n, 0, x.responseType);
    } else if IsAction(op) {
      TypeBehind(b, n, 0, x.responseType);
      TypeBehind(b, n, 24, x.feedbackType);
      RuntimeBehind(b, n, 48, x.goal.source);
      var p := ProgressOf(x);
      RowBehind(b, n, 92, [p.goalId, p.session], [8, 8]);
      RowBehind(b, n, 108, StateNums(p), STATE);
    } else if IsDescriptor(op) {
      RowBehind(b, n, 0, [x.role, 0], [1, 3]);
    }
  }

  // ---------------------------------------------------------------------
  // The frame
  // ---------------------------------------------------------------------

  /** A control frame, byte by byte. */
  ghost predicate LaidOut(b: seq<byte>, f: ControlFrame) {
    var h, body := f.header, HEADER_SIZE + ExtensionSize(f.operation);
    && RowAt(b, 0, [0x4b434643, 1, f.operation, |b|, 0], [4, 2, 2, 4, 4])
    && RuntimeAt(b, 16, h.source) && RowAt(b, 60, [h.session, h.request], [8, 8])
    && RuntimeAt(b, 76, h.endpoint.runtime)
    && RowAt(b, 120, [h.endpoint.registration, h.target, h.reason, 0], [8, 1, 1, 2]) && TypeAt(b, 132, h.valueType)
    && RowAt(b, 156, [h.timeout, Bits(h.status), |f.name|, 0, |f.payload|], [4, 4, 2, 2, 4])
    && ExtensionAt(b, 172, f.operation, f.extension)
    && body <= |b| && b[body..] == f.name + f.payload
  }

  lemma PrefixStands(f: ControlFrame)
    requires Writable(f)
    ensures RowAt(FrameBytes(f), 0, [0x4b434643, 1, f.operation, FrameLength(f), 0], [4, 2, 2, 4, 4])
    ensures FrameBytes(f)[16..] == PutBody(f)
  {
    Sizes();
    Widths();
    hide RowAt, PutNums, PutBody;
    PutRow(Prefix(f.operation, FrameLength(f)), PREFIX, PutBody(f));
  }

  /** Every frame that is written is laid out so. */
  lemma FrameIsLaidOut(f: ControlFrame)
    requires Writable(f)
    ensures LaidOut(FrameBytes(f), f)
  {
    hide RowAt, TypeAt, RuntimeAt, ExtensionAt, PutWho, PutWhat, PutExtension, FrameBytes;
    var h, text := f.header, f.name + f.payload;
    var who, what := WhoOf(h), WhatOf(h, |f.name|, |f.payload|);
    var b, body, x := FrameBytes(f), PutBody(f), PutExtension(f.operation, f.extension, text);
    PrefixStands(f);
    WhoStands(who, PutWhat(what, x));
    WhatStands(what, x);
    ExtensionStands(f.operation, f.extension, text);
    assert b[16..][104..] == b[120..] && b[120..][52..] == b[172..];
    assert b[172..][ExtensionSize(f.operation)..] == b[172 + ExtensionSize(f.operation)..];
    RuntimeBehind(b, 16, 0, h.source);
    RowBehind(b, 16, 44, [h.session, h.request], [8, 8]);
    RuntimeBehind(b, 16, 60, h.endpoint.runtime);
    RowBehind(b, 120, 0, [h.endpoint.registration, h.target, h.reason, 0], [8, 1, 1, 2]);
    TypeBehind(b, 120, 12, h.valueType);
    RowBehind(b, 120, 36, [h.timeout, Bits(h.status), |f.name|, 0, |f.payload|], [4, 4, 2, 2, 4]);
    ExtensionBehind(b, 172, f.operation, f.extension);
  }

  /** What is accepted from the wire was laid out so: the layout is exactly what both
      directions of the codec speak. */
  lemma AcceptedIsLaidOut(b: seq<byte>, reader: SnapshotReader)
    requires DecodeControlFrame(b, reader).Ok?
    ensures LaidOut(b, DecodeControlFrame(b, reader).value)
  {
    hide DecodeControlFrame, ValidFrame, FrameBytes, LaidOut;
    var f := DecodeControlFrame(b, reader).value;
    EncodeOfDecode(b, reader);
    WrittenIs(f, reader, b);
    FrameIsLaidOut(f);
  }

  lemma WrittenIs(f: ControlFrame, reader: SnapshotReader, b: seq<byte>)
    requires EncodeControlFrame(f, reader) == Ok(b)
    ensures Writable(f) && FrameBytes(f) == b
  {
    hide ValidFrame;
    ValidIsWritable(f, reader);
  }
}
