/** Control frames: a 172-byte header, an extension that depends on the
    operation, a name and a payload. Encoding and decoding are inverse. */
module ControlFrames {
  import opened Wire
  import opened NetworkTypes
  import opened IdentityCodec
  import TypeSchema

  const CONTROL_MAGIC := 0x4b434643
  const CONTROL_WIRE_VERSION := 1
  const CONTROL_PREFIX_SIZE := 16
  const HEADER_SIZE := 172
  const MAX_CONTROL_FRAME := MAX_PARAMETER_WIRE + 1024
  const MAX_NETWORK_DIAGNOSTICS_PAYLOAD := 16384
  const MAX_NAME := 240

  const HELLO: u16 := 1
  const PARAM_GET_REQUEST: u16 := 2
  const PARAM_GET_RESPONSE: u16 := 3
  const PARAM_SET_REQUEST: u16 := 4
  const PARAM_SET_RESPONSE: u16 := 5
  const SERVICE_REQUEST: u16 := 6
  const SERVICE_RESPONSE: u16 := 7
  const ACTION_GOAL_REQUEST: u16 := 8
  const ACTION_GOAL_RESPONSE: u16 := 9
  const ACTION_FEEDBACK: u16 := 10
  const ACTION_RESULT: u16 := 11
  const ACTION_CANCEL_REQUEST: u16 := 12
  const ACTION_CANCEL_RESPONSE: u16 := 13
  const DIAGNOSTICS_REQUEST: u16 := 14
  const DIAGNOSTICS_RESPONSE: u16 := 15
  const DESCRIPTOR_REQUEST: u16 := 16
  const DESCRIPTOR_RESPONSE: u16 := 17

  // TargetScope, ActionState, CompatibilityReason and DescriptorRole values
  const ENDPOINT: u8 := 1
  const HOST: u8 := 2
  const ALL: u8 := 5
  const IDLE: u8 := 0
  const ACCEPTED: u8 := 1
  const RUNNING: u8 := 2
  const SUCCEEDED: u8 := 3
  const CANCELED: u8 := 5
  const COMPATIBLE: u8 := 0
  const UNKNOWN_ENDPOINT: u8 := 13
  const NONE: u8 := 0
  const VALUE: u8 := 1
  const FEEDBACK: u8 := 4

  datatype Goal = Goal(source: Runtime, goalId: u64, session: u64)

  datatype Header = Header(
    source: Runtime, session: u64, request: u64, endpoint: Endpoint,
    target: u8, reason: u8, valueType: TypeIdentity, timeout: u32, status: i32)

  datatype Extension = Extension(
    responseType: TypeIdentity, feedbackType: TypeIdentity, goal: Goal,
    actionState: u8, outcomeUnknown: bool, feedbackSequence: u64, role: u8)

  datatype ControlFrame = ControlFrame(
    operation: u16, header: Header, extension: Extension, name: seq<byte>, payload: seq<byte>)

  const NO_GOAL := Goal(NO_RUNTIME, 0, 0)
  const NO_EXTENSION := Extension(NO_TYPE, NO_TYPE, NO_GOAL, IDLE, false, 0, NONE)

  predicate IsAction(op: u16) { ACTION_GOAL_REQUEST <= op <= ACTION_CANCEL_RESPONSE }
  predicate IsService(op: u16) { op == SERVICE_REQUEST || op == SERVICE_RESPONSE }
  predicate IsDiagnostics(op: u16) { op == DIAGNOSTICS_REQUEST || op == DIAGNOSTICS_RESPONSE }
  predicate IsDescriptor(op: u16) { op == DESCRIPTOR_REQUEST || op == DESCRIPTOR_RESPONSE }

  // ---------------------------------------------------------------------
  // Valid frames
  // ---------------------------------------------------------------------

  /** Whose snapshot a diagnostics payload holds, if it is one. Its codec is not
      part of this model: every result below holds for any such reader. */
  datatype Owner = Owner(host: Host, boot: Host, session: u64)
  type SnapshotReader = seq<byte> -> Option<Owner>

  predicate WireSized(t: TypeIdentity) { ValidType(t) && t.payloadSize <= MAX_PARAMETER_WIRE }

  predicate Named(f: ControlFrame) { Text(f.name, MAX_NAME) && f.name[0] == 47 }

  predicate AsRequest(h: Header) { 0 < h.timeout <= 60000 && h.status == 0 && h.reason == COMPATIBLE }

  predicate ValidDescriptorFrame(f: ControlFrame) {
    var h := f.header;
    && VALUE <= f.extension.role <= FEEDBACK && h.request != 0 && ValidEndpoint(h.endpoint)
    && h.target == ENDPOINT && Named(f) && WireSized(h.valueType)
    && if f.operation == DESCRIPTOR_REQUEST then AsRequest(h) && f.payload == []
       else h.timeout == 0 && h.status <= 0 && h.reason == COMPATIBLE
            && if h.status != 0 then f.payload == [] else TypeSchema.DecodeSchema(f.payload, h.valueType).Ok?
  }

  predicate ValidDiagnosticsHeader(f: ControlFrame) {
    var h := f.header;
    && h.request != 0 && h.endpoint == NO_ENDPOINT && f.name == [] && h.valueType == NO_TYPE && h.target == HOST
    && |f.payload| <= MAX_NETWORK_DIAGNOSTICS_PAYLOAD
    && if f.operation == DIAGNOSTICS_REQUEST then AsRequest(h) && f.payload == []
       else h.timeout == 0 && h.status <= 0 && h.reason <= UNKNOWN_ENDPOINT
            && if h.status != 0 then f.payload == [] else h.reason == COMPATIBLE
  }

  predicate ValidDiagnosticsFrame(f: ControlFrame, reader: SnapshotReader) {
    && ValidDiagnosticsHeader(f)
    && (f.operation == DIAGNOSTICS_RESPONSE && f.header.status == 0 ==>
          reader(f.payload) == Some(Owner(f.header.source.host, f.header.source.boot, f.header.session)))
  }

  predicate ValidHello(f: ControlFrame) {
    var h := f.header;
    && h.request == 0 && h.endpoint == NO_ENDPOINT && f.name == [] && h.valueType == NO_TYPE && h.timeout == 0
    && h.status == 0 && f.payload == [] && h.target == ENDPOINT && h.reason == COMPATIBLE
  }

  predicate ValidActionFrame(f: ControlFrame) {
    var h, x, op := f.header, f.extension, f.operation;
    && ValidRuntime(x.goal.source) && x.goal.goalId != 0 && x.goal.session != 0 && WireSized(x.feedbackType)
    && x.actionState <= CANCELED
    && (x.outcomeUnknown ==> h.status != 0 && (op == ACTION_GOAL_RESPONSE || op == ACTION_CANCEL_RESPONSE))
    && if op == ACTION_GOAL_REQUEST || op == ACTION_CANCEL_REQUEST then
         && x.goal.source == h.source && x.goal.session == h.session && AsRequest(h)
         && x.actionState == IDLE && x.feedbackSequence == 0
         && if op == ACTION_GOAL_REQUEST then |f.payload| == h.valueType.payloadSize else f.payload == []
       else
         && h.timeout == 0 && h.status <= 0 && h.reason <= UNKNOWN_ENDPOINT
         && if op == ACTION_FEEDBACK then
              && h.request == 0 && h.status == 0 && h.reason == COMPATIBLE && x.feedbackSequence != 0
              && x.actionState == RUNNING && |f.payload| == x.feedbackType.payloadSize
            else if op == ACTION_RESULT then
              && h.request == 0 && SUCCEEDED <= x.actionState <= CANCELED
              && if h.status != 0 then f.payload == [] else |f.payload| == x.responseType.payloadSize
            else
              && f.payload == [] && x.feedbackSequence == 0
              && x.actionState == if h.status != 0 then IDLE else ACCEPTED
  }

  predicate ValidCallFrame(f: ControlFrame) {
    var h, op := f.header, f.operation;
    if op == PARAM_GET_REQUEST || op == PARAM_SET_REQUEST || op == SERVICE_REQUEST then
      && AsRequest(h)
      && if op == PARAM_GET_REQUEST then f.payload == [] else |f.payload| == h.valueType.payloadSize
    else if op == PARAM_GET_RESPONSE || op == PARAM_SET_RESPONSE || op == SERVICE_RESPONSE then
      && h.timeout == 0 && h.status <= 0 && h.reason <= UNKNOWN_ENDPOINT
      && if h.status != 0 then f.payload == [] else
         && h.reason == COMPATIBLE
         && if op == SERVICE_RESPONSE then |f.payload| == f.extension.responseType.payloadSize
            else if op == PARAM_GET_RESPONSE then |f.payload| == h.valueType.payloadSize else f.payload == []
    else false
  }

  predicate ValidFrame(f: ControlFrame, reader: SnapshotReader) {
    && ValidCommon(f)
    && (if IsDescriptor(f.operation) then ValidDescriptorFrame(f)
        else if IsDiagnostics(f.operation) then ValidDiagnosticsFrame(f, reader)
        else if f.operation == HELLO then ValidHello(f)
        else ValidAddressed(f) && if IsAction(f.operation) then ValidActionFrame(f) else ValidCallFrame(f))
  }

  predicate ValidCommon(f: ControlFrame) {
    var h, x, op := f.header, f.extension, f.operation;
    && ValidRuntime(h.source) && h.session != 0 && |f.payload| <= MAX_PARAMETER_WIRE
    && (if IsService(op) || IsAction(op) then WireSized(x.responseType) else x.responseType == NO_TYPE)
    && (!IsAction(op) ==> x.feedbackType == NO_TYPE && x.goal == NO_GOAL && x.actionState == IDLE
                          && x.feedbackSequence == 0 && !x.outcomeUnknown)
    && (!IsDescriptor(op) ==> x.role == NONE)
  }

  predicate ValidAddressed(f: ControlFrame) {
    var h, op := f.header, f.operation;
    && (h.request != 0 || op == ACTION_FEEDBACK || op == ACTION_RESULT) && ValidEndpoint(h.endpoint)
    && Named(f) && WireSized(h.valueType) && ENDPOINT <= h.target <= ALL
  }

  /** What the codec needs to know about a valid frame: what it does not write
      has its default value, and what it writes fits. */
  ghost predicate Writable(f: ControlFrame) {
    var x, op := f.extension, f.operation;
    && 1 <= op <= 17 && |f.name| <= MAX_NAME && |f.payload| <= MAX_PARAMETER_WIRE
    && f.header.source.pid >= 0 && f.header.endpoint.runtime.pid >= 0 && x.goal.source.pid >= 0
    && (IsDiagnostics(op) ==> f.name == []) && (op == DIAGNOSTICS_REQUEST ==> f.payload == [])
    && (!IsService(op) && !IsAction(op) ==> x.responseType == NO_TYPE)
    && (!IsAction(op) ==> x.feedbackType == NO_TYPE && x.goal == NO_GOAL && x.actionState == IDLE
                          && x.feedbackSequence == 0 && !x.outcomeUnknown)
    && (!IsDescriptor(op) ==> x.role == NONE)
  }

  lemma ValidIsWritable(f: ControlFrame, reader: SnapshotReader)
    requires ValidFrame(f, reader)
    ensures Writable(f)
  {
  }

  // ---------------------------------------------------------------------
  // Groups of header fields
  // ---------------------------------------------------------------------

  const PREFIX: seq<nat> := [4, 2, 2, 4, 4]
  const IDS: seq<nat> := [8, 8]
  const ROUTE: seq<nat> := [8, 1, 1, 2]
  const SIZES: seq<nat> := [4, 4, 2, 2, 4]
  const STATE: seq<nat> := [1, 1, 2, 8]
  const ROLE: seq<nat> := [1, 3]

  lemma Sizes()
    ensures Total(PREFIX) == 16 && Total(IDS) == 16 && Total(ROUTE) == 12
    ensures Total(SIZES) == 16 && Total(STATE) == 12 && Total(ROLE) == 4
  {
    Total2(8, 8);
    Total2(1, 3);
    Total4(8, 1, 1, 2);
    assert PREFIX[1..] == [2, 2, 4, 4] && SIZES[1..] == [4, 2, 2, 4];
    Total4(2, 2, 4, 4);
    Total4(4, 2, 2, 4);
    Total4(1, 1, 2, 8);
  }

  /** The first part of the header: who talks to whom. */
  datatype Who = Who(source: Runtime, session: u64, request: u64, runtime: Runtime)
  datatype WhoRead = BadWho | GotWho(who: Who, after: seq<byte>)

  function PutWho(w: Who, rest: seq<byte>): (b: seq<byte>)
    ensures |b| == 104 + |rest|
  {
    Sizes();
    PutRuntime(w.source, PutNums([w.session, w.request], IDS, PutRuntime(w.runtime, rest)))
  }

  function TakeWho(b: seq<byte>): (r: WhoRead)
    ensures r.GotWho? ==> |b| == 104 + |r.after|
  {
    var source := TakeRuntime(b);
    if source.BadRuntime? || |source.after| < 16 then BadWho else
    Sizes();
    Widths();
    var ids := TakeNums(source.after, IDS);
    var runtime := TakeRuntime(source.after[16..]);
    if runtime.BadRuntime? then BadWho
    else GotWho(Who(source.runtime, ids[0], ids[1], runtime.runtime), runtime.after)
  }

  lemma WhoBack(w: Who, rest: seq<byte>)
    requires w.source.pid >= 0 && w.runtime.pid >= 0
    ensures TakeWho(PutWho(w, rest)) == GotWho(w, rest)
  {
    Sizes();
    Widths();
    var tail := PutRuntime(w.runtime, rest);
    RuntimeBack(w.source, PutNums([w.session, w.request], IDS, tail));
    TakeOfPut([w.session, w.request], IDS, tail);
    RuntimeBack(w.runtime, rest);
  }

  lemma WhoForth(b: seq<byte>)
    requires TakeWho(b).GotWho?
    ensures PutWho(TakeWho(b).who, TakeWho(b).after) == b
    ensures TakeWho(b).who.source.pid >= 0 && TakeWho(b).who.runtime.pid >= 0
  {
    Sizes();
    var source := TakeRuntime(b);
    var ids := TakeNums(source.after, IDS);
    RuntimeForth(b);
    PutOfTake(source.after, IDS);
    assert [ids[0], ids[1]] == ids;
    RuntimeForth(source.after[16..]);
  }

  /** The second part: what is asked, and how long the rest is. */
  datatype What = What(
    registration: u64, target: u8, reason: u8, valueType: TypeIdentity, timeout: u32, status: i32, nameSize: u16,
        payloadSize: u32)
  datatype WhatRead = BadWhat | GotWhat(what: What, after: seq<byte>)

  function RouteNums(w: What): seq<nat> { [w.registration, w.target, w.reason, 0] }
  function SizeNums(w: What): seq<nat> { [w.timeout, Bits(w.status), w.nameSize, 0, w.payloadSize] }

  function PutWhat(w: What, rest: seq<byte>): (b: seq<byte>)
    ensures |b| == 52 + |rest|
  {
    Sizes();
    PutNums(RouteNums(w), ROUTE, PutType(w.valueType, PutNums(SizeNums(w), SIZES, rest)))
  }

  function TakeWhat(b: seq<byte>): (r: WhatRead)
    ensures r.GotWhat? ==> |b| == 52 + |r.after|
  {
    if |b| < 52 then BadWhat else
    Sizes();
    Widths();
    var route := TakeNums(b, ROUTE);
    var t := TakeType(b[12..]);
    var sizes := TakeNums(t.after, SIZES);
    if route[3] != 0 || sizes[3] != 0 then BadWhat
    else GotWhat(What(route[0], route[1], route[2], t.identity, sizes[0], Signed(sizes[1]), sizes[2], sizes[4]),
        t.after[16..])
  }

  lemma RouteFits(w: What)
    ensures NumsFit(RouteNums(w), ROUTE) && NumsFit(SizeNums(w), SIZES)
  {
    Widths();
  }

  lemma WhatBack(w: What, rest: seq<byte>)
    ensures TakeWhat(PutWhat(w, rest)) == GotWhat(w, rest)
  {
    Sizes();
    RouteFits(w);
    var tail := PutNums(SizeNums(w), SIZES, rest);
    TakeOfPut(RouteNums(w), ROUTE, PutType(w.valueType, tail));
    TypeBack(w.valueType, tail);
    TakeOfPut(SizeNums(w), SIZES, rest);
  }

  lemma WhatForth(b: seq<byte>)
    requires TakeWhat(b).GotWhat?
    ensures PutWhat(TakeWhat(b).what, TakeWhat(b).after) == b
  {
    Sizes();
    Widths();
    var route, t := TakeNums(b, ROUTE), TakeType(b[12..]);
    var sizes := TakeNums(t.after, SIZES);
    PutOfTake(b, ROUTE);
    TypeForth(b[12..]);
    PutOfTake(t.after, SIZES);
    assert RouteNums(TakeWhat(b).what) == route;
    assert SizeNums(TakeWhat(b).what) == sizes;
  }

  // ---------------------------------------------------------------------
  // Extensions
  // ---------------------------------------------------------------------

  function ExtensionSize(op: u16): nat {
    if IsService(op) then 24 else if IsAction(op) then 120 else if IsDescriptor(op) then 4 else 0
  }

  datatype Progress = Progress(goalId: u64, session: u64, state: u8, unknown: bool, sequence: u64)
  datatype ProgressRead = BadProgress | GotProgress(progress: Progress, after: seq<byte>)

  function StateNums(p: Progress): seq<nat> { [p.state, if p.unknown then 1 else 0, 0, p.sequence] }

  function PutProgress(p: Progress, rest: seq<byte>): (b: seq<byte>)
    ensures |b| == 28 + |rest|
  {
    Sizes();
    PutNums([p.goalId, p.session], IDS, PutNums(StateNums(p), STATE, rest))
  }

  function TakeProgress(b: seq<byte>): (r: ProgressRead)
    ensures r.GotProgress? ==> |b| == 28 + |r.after|
  {
    if |b| < 28 then BadProgress else
    Sizes();
    Widths();
    var ids, state := TakeNums(b, IDS), TakeNums(b[16..], STATE);
    if state[1] > 1 || state[2] != 0 then BadProgress
    else GotProgress(Progress(ids[0], ids[1], state[0], state[1] == 1, state[3]), b[28..])
  }

  lemma ProgressBack(p: Progress, rest: seq<byte>)
    ensures TakeProgress(PutProgress(p, rest)) == GotProgress(p, rest)
  {
    Sizes();
    Widths();
    TakeOfPut([p.goalId, p.session], IDS, PutNums(StateNums(p), STATE, rest));
    TakeOfPut(StateNums(p), STATE, rest);
    assert PutProgress(p, rest)[28..] == PutProgress(p, rest)[16..][12..];
  }

  lemma ProgressForth(b: seq<byte>)
    requires TakeProgress(b).GotProgress?
    ensures PutProgress(TakeProgress(b).progress, TakeProgress(b).after) == b
  {
    hide PutNums;
    Sizes();
    var ids := TakeNums(b, IDS);
    PutOfTake(b, IDS);
    PutOfTake(b[16..], STATE);
    assert [ids[0], ids[1]] == ids;
    assert StateNums(TakeProgress(b).progress) == TakeNums(b[16..], STATE);
    assert b[28..] == b[16..][12..];
  }

  function ProgressOf(x: Extension): Progress {
    Progress(x.goal.goalId, x.goal.session, x.actionState, x.outcomeUnknown, x.feedbackSequence)
  }

  function PutAction(x: Extension, rest: seq<byte>): (b: seq<byte>)
    ensures |b| == 120 + |rest|
  {
    PutType(x.responseType, PutType(x.feedbackType, PutRuntime(x.goal.source, PutProgress(ProgressOf(x), rest))))
  }

  function PutExtension(op: u16, x: Extension, rest: seq<byte>): (b: seq<byte>)
    ensures |b| == ExtensionSize(op) + |rest|
  {
    Sizes();
    if IsService(op) then PutType(x.responseType, rest)
    else if IsAction(op) then PutAction(x, rest)
    else if IsDescriptor(op) then PutNums([x.role, 0], ROLE, rest)
    else rest
  }

  datatype ExtensionRead = BadExtension | GotExtension(extension: Extension, after: seq<byte>)

  function TakeAction(b: seq<byte>): (r: ExtensionRead)
    ensures r.GotExtension? ==> |b| == 120 + |r.after|
  {
    if |b| < 120 then BadExtension else
    var response := TakeType(b);
    var feedback := TakeType(response.after);
    var goal := TakeRuntime(feedback.after);
    if goal.BadRuntime? then BadExtension else
    var p := TakeProgress(goal.after);
    if p.BadProgress? then BadExtension
    else GotExtension(ActionExtension(response.identity, feedback.identity, goal.runtime, p.progress), p.after)
  }

  function ActionExtension(response: TypeIdentity, feedback: TypeIdentity, source: Runtime, p: Progress): Extension {
    Extension(response, feedback, Goal(source, p.goalId, p.session), p.state, p.unknown, p.sequence, NONE)
  }

  function TakeExtension(op: u16, b: seq<byte>): (r: ExtensionRead)
    ensures r.GotExtension? ==> |b| == ExtensionSize(op) + |r.after|
  {
    if IsService(op) then
      var response := TakeType(b);
      if response.BadType? then BadExtension
          else GotExtension(NO_EXTENSION.(responseType := response.identity), response.after)
    else if IsAction(op) then TakeAction(b)
    else if IsDescriptor(op) then
      if |b| < 4 then BadExtension else
      Sizes();
      Widths();
      var p := TakeNums(b, ROLE);
      if p[1] != 0 then BadExtension else GotExtension(NO_EXTENSION.(role := p[0]), b[4..])
    else GotExtension(NO_EXTENSION, b)
  }

  lemma ActionBack(x: Extension, rest: seq<byte>)
    requires x.goal.source.pid >= 0 && x.role == NONE
    ensures TakeAction(PutAction(x, rest)) == GotExtension(x, rest)
  {
    var tail := PutProgress(ProgressOf(x), rest);
    TypeBack(x.responseType, PutType(x.feedbackType, PutRuntime(x.goal.source, tail)));
    TypeBack(x.feedbackType, PutRuntime(x.goal.source, tail));
    RuntimeBack(x.goal.source, tail);
    ProgressBack(ProgressOf(x), rest);
  }

  lemma ActionForth(b: seq<byte>)
    requires TakeAction(b).GotExtension?
    ensures PutAction(TakeAction(b).extension, TakeAction(b).after) == b
  {
    var response := TakeType(b);
    var feedback := TakeType(response.after);
    var goal := TakeRuntime(feedback.after);
    TypeForth(b);
    TypeForth(response.after);
    RuntimeForth(feedback.after);
    ProgressForth(goal.after);
  }

  lemma ExtensionBack(op: u16, x: Extension, rest: seq<byte>)
    requires x.goal.source.pid >= 0
    requires !IsService(op) && !IsAction(op) ==> x.responseType == NO_TYPE
    requires !IsAction(op) ==> x == NO_EXTENSION.(responseType := x.responseType, role := x.role)
    requires !IsDescriptor(op) ==> x.role == NONE
    ensures TakeExtension(op, PutExtension(op, x, rest)) == GotExtension(x, rest)
  {
    if IsService(op) {
      TypeBack(x.responseType, rest);
    } else if IsAction(op) {
      ActionBack(x, rest);
    } else if IsDescriptor(op) {
      Sizes();
      Widths();
      TakeOfPut([x.role, 0], ROLE, rest);
    }
  }

  lemma ExtensionForth(op: u16, b: seq<byte>)
    requires TakeExtension(op, b).GotExtension?
    ensures PutExtension(op, TakeExtension(op, b).extension, TakeExtension(op, b).after) == b
  {
    if IsService(op) {
      TypeForth(b);
    } else if IsAction(op) {
      ActionForth(b);
    } else if IsDescriptor(op) {
      Sizes();
      PutOfTake(b, ROLE);
      assert [TakeExtension(op, b).extension.role, 0] == TakeNums(b, ROLE);
    }
  }

  // ---------------------------------------------------------------------
  // Frames
  // ---------------------------------------------------------------------

  function WhoOf(h: Header): Who { Who(h.source, h.session, h.request, h.endpoint.runtime) }

  function WhatOf(h: Header, nameSize: u16, payloadSize: u32): What {
    What(h.endpoint.registration, h.target, h.reason, h.valueType, h.timeout, h.status, nameSize, payloadSize)
  }

  function HeaderOf(who: Who, what: What): Header {
    Header(who.source, who.session, who.request, Endpoint(who.runtime, what.registration),
           what.target, what.reason, what.valueType, what.timeout, what.status)
  }

  datatype HeaderRead = BadHeader | GotHeader(header: Header, nameSize: u16, payloadSize: u32, after: seq<byte>)

  function PutHeader(h: Header, nameSize: u16, payloadSize: u32, rest: seq<byte>): (b: seq<byte>)
    ensures |b| == 156 + |rest|
  {
    PutWho(WhoOf(h), PutWhat(WhatOf(h, nameSize, payloadSize), rest))
  }

  function TakeHeader(b: seq<byte>): (r: HeaderRead)
    ensures r.GotHeader? ==> |b| == 156 + |r.after|
  {
    var who := TakeWho(b);
    if who.BadWho? then BadHeader else
    var what := TakeWhat(who.after);
    if what.BadWhat? then BadHeader
    else GotHeader(HeaderOf(who.who, what.what), what.what.nameSize, what.what.payloadSize, what.after)
  }

  lemma HeaderBack(h: Header, nameSize: u16, payloadSize: u32, rest: seq<byte>)
    requires h.source.pid >= 0 && h.endpoint.runtime.pid >= 0
    ensures TakeHeader(PutHeader(h, nameSize, payloadSize, rest)) == GotHeader(h, nameSize, payloadSize, rest)
  {
    var what := WhatOf(h, nameSize, payloadSize);
    WhoBack(WhoOf(h), PutWhat(what, rest));
    WhatBack(what, rest);
  }

  lemma HeaderForth(b: seq<byte>)
    requires TakeHeader(b).GotHeader?
    ensures var r := TakeHeader(b); PutHeader(r.header, r.nameSize, r.payloadSize, r.after) == b
  {
    var who := TakeWho(b);
    WhoForth(b);
    WhatForth(who.after);
  }

  function FrameLength(f: ControlFrame): nat { HEADER_SIZE + ExtensionSize(f.operation) + |f.name| + |f.payload| }

  function Prefix(op: u16, length: nat): seq<nat> { [CONTROL_MAGIC, CONTROL_WIRE_VERSION, op, length, 0] }

  function PutBody(f: ControlFrame): (b: seq<byte>)
    requires |f.name| <= MAX_NAME && |f.payload| <= MAX_PARAMETER_WIRE
    ensures |b| == FrameLength(f) - CONTROL_PREFIX_SIZE
  {
    PutHeader(f.header, |f.name|, |f.payload|, PutExtension(f.operation, f.extension, f.name + f.payload))
  }

  function FrameBytes(f: ControlFrame): (b: seq<byte>)
    requires |f.name| <= MAX_NAME && |f.payload| <= MAX_PARAMETER_WIRE
    ensures |b| == FrameLength(f)
  {
    Sizes();
    PutNums(Prefix(f.operation, FrameLength(f)), PREFIX, PutBody(f))
  }

  function EncodeControlFrame(f: ControlFrame, reader: SnapshotReader): Result<seq<byte>> {
    if !ValidFrame(f, reader) then Err(EINVAL) else
    ValidIsWritable(f, reader);
    Ok(FrameBytes(f))
  }

  /** What the 16-byte prefix of a stream says about the frame's length. */
  function ControlFrameSize(b: seq<byte>): (r: Result<nat>)
    ensures r.Ok? ==> |b| >= CONTROL_PREFIX_SIZE && HEADER_SIZE <= r.value <= MAX_CONTROL_FRAME
  {
    if |b| < CONTROL_PREFIX_SIZE then Err(EAGAIN) else
    Sizes();
    var p := TakeNums(b, PREFIX);
    if p[0] != CONTROL_MAGIC then Err(EPROTO) else
    if p[1] != CONTROL_WIRE_VERSION then Err(EPROTONOSUPPORT) else
    if p[2] < 1 || p[2] > 17 then Err(EPROTO) else
    if p[3] < HEADER_SIZE || p[3] > MAX_CONTROL_FRAME then Err(EMSGSIZE) else
    if p[2] == DIAGNOSTICS_REQUEST && p[3] != HEADER_SIZE then Err(EMSGSIZE) else
    if p[2] == DIAGNOSTICS_RESPONSE && p[3] > HEADER_SIZE + MAX_NETWORK_DIAGNOSTICS_PAYLOAD then Err(EMSGSIZE) else
    if p[4] != 0 then Err(EPROTO) else Ok(p[3])
  }

  datatype BodyRead = BadBody | GotBody(frame: ControlFrame)

  /** The frame behind the prefix, before it is validated. */
  function TakeBody(op: u16, b: seq<byte>): BodyRead {
    var h := TakeHeader(b);
    if h.BadHeader? then BadBody else
    var x := TakeExtension(op, h.after);
    if x.BadExtension? then BadBody else
    var n := h.nameSize;
    if n > MAX_NAME || h.payloadSize > MAX_PARAMETER_WIRE || n + h.payloadSize != |x.after| then BadBody
    else GotBody(ControlFrame(op, h.header, x.extension, x.after[..n], x.after[n..]))
  }

  function Operation(b: seq<byte>): u16
    requires |b| >= CONTROL_PREFIX_SIZE
  {
    Sizes();
    Widths();
    TakeNums(b, PREFIX)[2]
  }

  function DecodeControlFrame(b: seq<byte>, reader: SnapshotReader): Result<ControlFrame> {
    var length :- ControlFrameSize(b);
    if length != |b| then Err(EMSGSIZE) else
    var body := TakeBody(Operation(b), b[CONTROL_PREFIX_SIZE..]);
    if body.BadBody? || !ValidFrame(body.frame, reader) then Err(EPROTO) else Ok(body.frame)
  }

  lemma BodyBack(f: ControlFrame)
    requires Writable(f)
    ensures TakeBody(f.operation, PutBody(f)) == GotBody(f)
  {
    hide TakeHeader, TakeExtension, PutHeader, PutExtension;
    var rest := f.name + f.payload;
    HeaderBack(f.header, |f.name|, |f.payload|, PutExtension(f.operation, f.extension, rest));
    ExtensionBack(f.operation, f.extension, rest);
    Parts(f.name, f.payload);
  }

  /** The pieces put together again. */
  lemma PutBodyOf(f: ControlFrame, b: seq<byte>, behind: seq<byte>)
    requires |f.name| <= MAX_NAME && |f.payload| <= MAX_PARAMETER_WIRE
    requires PutHeader(f.header, |f.name|, |f.payload|, behind) == b
    requires PutExtension(f.operation, f.extension, f.name + f.payload) == behind
    ensures PutBody(f) == b
  {
  }

  lemma BodyForth(op: u16, b: seq<byte>)
    requires TakeBody(op, b).GotBody?
    ensures var f := TakeBody(op, b).frame;
      f.operation == op && |f.name| <= MAX_NAME && |f.payload| <= MAX_PARAMETER_WIRE && PutBody(f) == b
  {
    hide TakeHeader, TakeExtension, PutHeader, PutExtension;
    var f, h := TakeBody(op, b).frame, TakeHeader(b);
    Halves(TakeExtension(op, h.after).after, h.nameSize);
    HeaderForth(b);
    ExtensionForth(op, h.after);
    PutBodyOf(f, b, h.after);
  }

  lemma PrefixBack(f: ControlFrame)
    requires Writable(f)
    ensures ControlFrameSize(FrameBytes(f)) == Ok(|FrameBytes(f)|) && Operation(FrameBytes(f)) == f.operation
    ensures FrameBytes(f)[CONTROL_PREFIX_SIZE..] == PutBody(f)
  {
    hide PutBody, TakeNums, PutNums;
    Sizes();
    Widths();
    TakeOfPut(Prefix(f.operation, FrameLength(f)), PREFIX, PutBody(f));
  }

  lemma PrefixForth(b: seq<byte>)
    requires ControlFrameSize(b).Ok?
    ensures PutNums(Prefix(Operation(b), ControlFrameSize(b).value), PREFIX, b[CONTROL_PREFIX_SIZE..]) == b
  {
    Sizes();
    var p := TakeNums(b, PREFIX);
    PutOfTake(b, PREFIX);
    assert Prefix(Operation(b), ControlFrameSize(b).value) == p;
  }

  lemma FrameForth(b: seq<byte>, f: ControlFrame)
    requires ControlFrameSize(b) == Ok(|b|) && TakeBody(Operation(b), b[CONTROL_PREFIX_SIZE..]) == GotBody(f)
    ensures |f.name| <= MAX_NAME && |f.payload| <= MAX_PARAMETER_WIRE && FrameBytes(f) == b
  {
    hide TakeBody, PutBody, ControlFrameSize;
    PrefixForth(b);
    BodyForth(Operation(b), b[CONTROL_PREFIX_SIZE..]);
  }

  /** Every valid frame comes back exactly. */
  lemma DecodeOfEncode(f: ControlFrame, reader: SnapshotReader)
    requires ValidFrame(f, reader)
    ensures EncodeControlFrame(f, reader).Ok?
    ensures DecodeControlFrame(EncodeControlFrame(f, reader).value, reader) == Ok(f)
    ensures |EncodeControlFrame(f, reader).value| <= 16916
  {
    ValidIsWritable(f, reader);
    hide ValidFrame, TakeBody, PutBody, FrameBytes, ControlFrameSize;
    PrefixBack(f);
    BodyBack(f);
  }

  /** Every accepted byte string is the encoding of the frame it decodes to. */
  lemma EncodeOfDecode(b: seq<byte>, reader: SnapshotReader)
    requires DecodeControlFrame(b, reader).Ok?
    ensures ValidFrame(DecodeControlFrame(b, reader).value, reader)
    ensures EncodeControlFrame(DecodeControlFrame(b, reader).value, reader) == Ok(b)
  {
    hide ValidFrame, TakeBody, FrameBytes, ControlFrameSize;
    FrameForth(b, DecodeControlFrame(b, reader).value);
  }
}
