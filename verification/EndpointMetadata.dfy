/** The endpoint list a peer publishes: its codec, and what makes a list valid. */
module EndpointMetadata {
  import opened Wire
  import opened NetworkTypes
  import opened IdentityCodec

  const PROTOCOL_VERSION := 1
  const MAX_METADATA := 256 * 1024
  const MAX_ENDPOINTS := 64
  const MAX_GROUPS := 64
  const MAX_LABEL := 128
  const MAX_NAME := 240

  const TOPIC: u8 := 1
  const PARAMETER: u8 := 2
  const SERVICE: u8 := 3
  const ACTION: u8 := 4
  const PROVIDER: u8 := 1
  const CONSUMER: u8 := 2
  const LOCAL: u8 := 0
  const REMOTE: u8 := 1

  datatype Labels = Labels(hostName: seq<byte>, applicationName: seq<byte>, elementName: seq<byte>, name: seq<byte>)

  datatype Types = Types(value: TypeIdentity, request: TypeIdentity, response: TypeIdentity, feedback: TypeIdentity)

  datatype Metadata = Metadata(
    version: u16, identity: Endpoint, application: Runtime, kind: u8, role: u8, scope: u8,
    types: Types, labels: Labels, groups: seq<seq<byte>>)

  // ---------------------------------------------------------------------
  // Validity
  // ---------------------------------------------------------------------

  predicate ValidLabels(l: Labels) {
    && Text(l.name, MAX_NAME) && l.name[0] == 47 && Text(l.elementName, MAX_LABEL)
    && (l.hostName == [] || Text(l.hostName, MAX_LABEL))
  }

  predicate ValidTypes(kind: u8, t: Types) {
    if kind == TOPIC || kind == PARAMETER then
      ValidType(t.value) && t.request == NO_TYPE && t.response == NO_TYPE && t.feedback == NO_TYPE
    else if kind == SERVICE then
      t.value == NO_TYPE && ValidType(t.request) && ValidType(t.response) && t.feedback == NO_TYPE
    else
      kind == ACTION && t.value == NO_TYPE && ValidType(t.request) && ValidType(t.response) && ValidType(t.feedback)
  }

  predicate ValidApplication(m: Metadata) {
    if m.application == NO_RUNTIME then m.labels.applicationName == []
    else
      && ValidRuntime(m.application) && Text(m.labels.applicationName, MAX_LABEL)
      && m.application.host == m.identity.runtime.host && m.application.boot == m.identity.runtime.boot
  }

  predicate ValidGroups(groups: seq<seq<byte>>) {
    && |groups| <= MAX_GROUPS
    && (forall i :: 0 <= i < |groups| ==> Text(groups[i], MAX_LABEL))
    && (forall i, j :: 0 <= j < i < |groups| ==> groups[i] != groups[j])
  }

  predicate ValidMetadata(m: Metadata) {
    && m.version == PROTOCOL_VERSION && ValidEndpoint(m.identity) && ValidLabels(m.labels)
    && (m.role == PROVIDER || m.role == CONSUMER) && (m.scope == LOCAL || m.scope == REMOTE)
    && ValidApplication(m) && ValidGroups(m.groups) && ValidTypes(m.kind, m.types)
  }

  /** A list that the given incarnation of a host may publish. */
  predicate ValidList(endpoints: seq<Metadata>, host: Host, boot: Host) {
    && ValidHost(host) && ValidHost(boot) && |endpoints| <= MAX_ENDPOINTS
    && (forall i :: 0 <= i < |endpoints| ==> ValidMetadata(endpoints[i]) && OwnedBy(endpoints[i], host, boot))
    && (forall i, j :: 0 <= j < i < |endpoints| ==> endpoints[i].identity != endpoints[j].identity)
  }

  predicate OwnedBy(m: Metadata, host: Host, boot: Host) {
    m.identity.runtime.host == host && m.identity.runtime.boot == boot
  }

  // ---------------------------------------------------------------------
  // Lists of text
  // ---------------------------------------------------------------------

  datatype TextsRead = BadTexts | GotTexts(texts: seq<seq<byte>>, after: seq<byte>)

  function PutTexts(texts: seq<seq<byte>>, rest: seq<byte>): seq<byte> {
    if texts == [] then rest else PutText(texts[0], PutTexts(texts[1..], rest))
  }

  function TakeTexts(b: seq<byte>, n: nat, most: nat): (r: TextsRead)
    ensures r.GotTexts? ==> |r.texts| == n
    decreases n
  {
    if n == 0 then GotTexts([], b) else
    var first := TakeText(b, most);
    if first.BadText? then BadTexts else
    var others := TakeTexts(first.after, n - 1, most);
    if others.BadTexts? then BadTexts else GotTexts([first.text] + others.texts, others.after)
  }

  lemma {:induction false} TextsBack(texts: seq<seq<byte>>, rest: seq<byte>, most: nat)
    requires most < 0x1_0000 && forall i :: 0 <= i < |texts| ==> |texts[i]| <= most
    ensures TakeTexts(PutTexts(texts, rest), |texts|, most) == GotTexts(texts, rest)
  {
    hide TakeText, PutText;
    if texts != [] {
      TextBack(texts[0], PutTexts(texts[1..], rest), most);
      TextsBack(texts[1..], rest, most);
      assert texts == [texts[0]] + texts[1..];
    }
  }

  lemma {:induction false} TextsForth(b: seq<byte>, n: nat, most: nat)
    requires TakeTexts(b, n, most).GotTexts?
    ensures PutTexts(TakeTexts(b, n, most).texts, TakeTexts(b, n, most).after) == b
    decreases n
  {
    hide TakeText, PutText;
    if n > 0 {
      var first := TakeText(b, most);
      var others := TakeTexts(first.after, n - 1, most);
      TextForth(b, most);
      TextsForth(first.after, n - 1, most);
      assert ([first.text] + others.texts)[1..] == others.texts;
    }
  }

  // ---------------------------------------------------------------------
  // One endpoint, group by group
  // ---------------------------------------------------------------------

  datatype Place = Place(version: u16, identity: Endpoint, application: Runtime)
  datatype PlaceRead = BadPlace | GotPlace(place: Place, after: seq<byte>)

  function PutPlace(p: Place, rest: seq<byte>): seq<byte> {
    PutNums([p.version], [2],
        PutRuntime(p.identity.runtime, PutNums([p.identity.registration], [8], PutRuntime(p.application, rest))))
  }

  lemma One(n: nat)
    ensures Total([n]) == n
  {
    assert [n][1..] == [];
  }

  function TakePlace(b: seq<byte>): PlaceRead {
    if |b| < 2 then BadPlace else
    One(2);
    One(8);
    Widths();
    var runtime := TakeRuntime(b[2..]);
    if runtime.BadRuntime? || |runtime.after| < 8 then BadPlace else
    var application := TakeRuntime(runtime.after[8..]);
    if application.BadRuntime? then BadPlace else
    GotPlace(Place(TakeNums(b, [2])[0], Endpoint(runtime.runtime, TakeNums(runtime.after, [8])[0]),
        application.runtime),
             application.after)
  }

  lemma PlaceBack(p: Place, rest: seq<byte>)
    requires p.identity.runtime.pid >= 0 && p.application.pid >= 0
    ensures TakePlace(PutPlace(p, rest)) == GotPlace(p, rest)
  {
    hide TakeRuntime, PutRuntime;
    One(2);
    One(8);
    Widths();
    var third := PutRuntime(p.application, rest);
    var second := PutNums([p.identity.registration], [8], third);
    RuntimeBack(p.application, rest);
    TakeOfPut([p.identity.registration], [8], third);
    RuntimeBack(p.identity.runtime, second);
    TakeOfPut([p.version], [2], PutRuntime(p.identity.runtime, second));
  }

  lemma PlaceForth(b: seq<byte>)
    requires TakePlace(b).GotPlace?
    ensures PutPlace(TakePlace(b).place, TakePlace(b).after) == b
  {
    hide TakeRuntime, PutRuntime;
    One(2);
    One(8);
    var runtime := TakeRuntime(b[2..]);
    var version, registration := TakeNums(b, [2]), TakeNums(runtime.after, [8]);
    PutOfTake(b, [2]);
    RuntimeForth(b[2..]);
    PutOfTake(runtime.after, [8]);
    RuntimeForth(runtime.after[8..]);
    assert [version[0]] == version && [registration[0]] == registration;
  }

  datatype TypesRead = BadTypes | GotTypes(types: Types, after: seq<byte>)

  function PutTypes(t: Types, rest: seq<byte>): seq<byte> {
    PutType(t.value, PutType(t.request, PutType(t.response, PutType(t.feedback, rest))))
  }

  function TakeTypes(b: seq<byte>): TypesRead {
    var value := TakeType(b);
    if value.BadType? then BadTypes else
    var request := TakeType(value.after);
    if request.BadType? then BadTypes else
    var response := TakeType(request.after);
    if response.BadType? then BadTypes else
    var feedback := TakeType(response.after);
    if feedback.BadType? then BadTypes
    else GotTypes(Types(value.identity, request.identity, response.identity, feedback.identity), feedback.after)
  }

  lemma TypesBack(t: Types, rest: seq<byte>)
    ensures TakeTypes(PutTypes(t, rest)) == GotTypes(t, rest)
  {
    hide TakeType, PutType;
    TypeBack(t.feedback, rest);
    TypeBack(t.response, PutType(t.feedback, rest));
    TypeBack(t.request, PutType(t.response, PutType(t.feedback, rest)));
    TypeBack(t.value, PutType(t.request, PutType(t.response, PutType(t.feedback, rest))));
  }

  lemma TypesForth(b: seq<byte>)
    requires TakeTypes(b).GotTypes?
    ensures PutTypes(TakeTypes(b).types, TakeTypes(b).after) == b
  {
    hide TakeType, PutType;
    var value := TakeType(b);
    var request := TakeType(value.after);
    var response := TakeType(request.after);
    TypeForth(b);
    TypeForth(value.after);
    TypeForth(request.after);
    TypeForth(response.after);
  }

  datatype LabelsRead = BadLabels | GotLabels(labels: Labels, after: seq<byte>)

  function PutLabels(l: Labels, rest: seq<byte>): seq<byte> {
    PutText(l.hostName, PutText(l.applicationName, PutText(l.elementName, PutText(l.name, rest))))
  }

  function TakeLabels(b: seq<byte>): LabelsRead {
    var host := TakeText(b, MAX_LABEL);
    if host.BadText? then BadLabels else
    var application := TakeText(host.after, MAX_LABEL);
    if application.BadText? then BadLabels else
    var element := TakeText(application.after, MAX_LABEL);
    if element.BadText? then BadLabels else
    var name := TakeText(element.after, MAX_NAME);
    if name.BadText? then BadLabels
    else GotLabels(Labels(host.text, application.text, element.text, name.text), name.after)
  }

  lemma LabelsBack(l: Labels, rest: seq<byte>)
    requires |l.hostName| <= MAX_LABEL && |l.applicationName| <= MAX_LABEL && |l.elementName| <= MAX_LABEL
        && |l.name| <= MAX_NAME
    ensures TakeLabels(PutLabels(l, rest)) == GotLabels(l, rest)
  {
    hide TakeText, PutText;
    var fourth := PutText(l.name, rest);
    var third := PutText(l.elementName, fourth);
    var second := PutText(l.applicationName, third);
    TextBack(l.name, rest, MAX_NAME);
    TextBack(l.elementName, fourth, MAX_LABEL);
    TextBack(l.applicationName, third, MAX_LABEL);
    TextBack(l.hostName, second, MAX_LABEL);
  }

  lemma LabelsForth(b: seq<byte>)
    requires TakeLabels(b).GotLabels?
    ensures PutLabels(TakeLabels(b).labels, TakeLabels(b).after) == b
  {
    hide TakeText, PutText;
    var host := TakeText(b, MAX_LABEL);
    var application := TakeText(host.after, MAX_LABEL);
    var element := TakeText(application.after, MAX_LABEL);
    TextForth(b, MAX_LABEL);
    TextForth(host.after, MAX_LABEL);
    TextForth(application.after, MAX_LABEL);
    TextForth(element.after, MAX_NAME);
  }

  datatype Traits = Traits(kind: u8, role: u8, scope: u8)
  datatype TraitsRead = BadTraits | GotTraits(traits: Traits, after: seq<byte>)
  const TRAITS: seq<nat> := [1, 1, 1, 1]

  function PutTraits(t: Traits, rest: seq<byte>): seq<byte> { PutNums([t.kind, t.role, t.scope, 0], TRAITS, rest) }

  function TakeTraits(b: seq<byte>): TraitsRead {
    if |b| < 4 then BadTraits else
    Total4(1, 1, 1, 1);
    Widths();
    var nums := TakeNums(b, TRAITS);
    if nums[3] != 0 then BadTraits else GotTraits(Traits(nums[0], nums[1], nums[2]), b[4..])
  }

  lemma TraitsBack(t: Traits, rest: seq<byte>)
    ensures TakeTraits(PutTraits(t, rest)) == GotTraits(t, rest)
  {
    Total4(1, 1, 1, 1);
    Widths();
    TakeOfPut([t.kind, t.role, t.scope, 0], TRAITS, rest);
  }

  lemma TraitsForth(b: seq<byte>)
    requires TakeTraits(b).GotTraits?
    ensures PutTraits(TakeTraits(b).traits, TakeTraits(b).after) == b
  {
    Total4(1, 1, 1, 1);
    var nums := TakeNums(b, TRAITS);
    PutOfTake(b, TRAITS);
    assert [nums[0], nums[1], nums[2], 0] == nums;
  }

  datatype GroupsRead = BadGroups | GotGroups(groups: seq<seq<byte>>, after: seq<byte>)

  function PutGroups(groups: seq<seq<byte>>, rest: seq<byte>): seq<byte> {
    PutNums([|groups|], [2], PutTexts(groups, rest))
  }

  function TakeGroups(b: seq<byte>): GroupsRead {
    if |b| < 2 then BadGroups else
    One(2);
    var n := TakeNums(b, [2])[0];
    if n > MAX_GROUPS then BadGroups else
    var texts := TakeTexts(b[2..], n, MAX_LABEL);
    if texts.BadTexts? then BadGroups else GotGroups(texts.texts, texts.after)
  }

  lemma GroupsBack(groups: seq<seq<byte>>, rest: seq<byte>)
    requires |groups| <= MAX_GROUPS && forall i :: 0 <= i < |groups| ==> |groups[i]| <= MAX_LABEL
    ensures TakeGroups(PutGroups(groups, rest)) == GotGroups(groups, rest)
  {
    One(2);
    Widths();
    TakeOfPut([|groups|], [2], PutTexts(groups, rest));
    TextsBack(groups, rest, MAX_LABEL);
  }

  lemma GroupsForth(b: seq<byte>)
    requires TakeGroups(b).GotGroups?
    ensures PutGroups(TakeGroups(b).groups, TakeGroups(b).after) == b
  {
    One(2);
    var n := TakeNums(b, [2]);
    PutOfTake(b, [2]);
    TextsForth(b[2..], n[0], MAX_LABEL);
    assert [n[0]] == n;
  }

  function PlaceOf(m: Metadata): Place { Place(m.version, m.identity, m.application) }
  function TraitsOf(m: Metadata): Traits { Traits(m.kind, m.role, m.scope) }

  function PutMetadata(m: Metadata, rest: seq<byte>): seq<byte> {
    PutPlace(PlaceOf(m), PutTraits(TraitsOf(m), PutTypes(m.types, PutLabels(m.labels, PutGroups(m.groups, rest)))))
  }

  datatype MetadataRead = BadMetadata | GotMetadata(metadata: Metadata, after: seq<byte>)

  function TakeMetadata(b: seq<byte>): MetadataRead {
    var place := TakePlace(b);
    if place.BadPlace? then BadMetadata else
    var traits := TakeTraits(place.after);
    if traits.BadTraits? then BadMetadata else
    var types := TakeTypes(traits.after);
    if types.BadTypes? then BadMetadata else
    var labels := TakeLabels(types.after);
    if labels.BadLabels? then BadMetadata else
    var groups := TakeGroups(labels.after);
    if groups.BadGroups? then BadMetadata else
    var m := Metadata(place.place.version, place.place.identity, place.place.application,
                      traits.traits.kind, traits.traits.role, traits.traits.scope, types.types, labels.labels,
                          groups.groups);
    if ValidMetadata(m) then GotMetadata(m, groups.after) else BadMetadata
  }

  lemma ValidFits(m: Metadata)
    requires ValidMetadata(m)
    ensures m.identity.runtime.pid >= 0 && m.application.pid >= 0
    ensures var l := m.labels;
      |l.hostName| <= MAX_LABEL && |l.applicationName| <= MAX_LABEL && |l.elementName| <= MAX_LABEL
          && |l.name| <= MAX_NAME
    ensures |m.groups| <= MAX_GROUPS && forall i :: 0 <= i < |m.groups| ==> |m.groups[i]| <= MAX_LABEL
  {
    forall i | 0 <= i < |m.groups| ensures |m.groups[i]| <= MAX_LABEL { assert Text(m.groups[i], MAX_LABEL); }
  }

  lemma MetadataBack(m: Metadata, rest: seq<byte>)
    requires ValidMetadata(m)
    ensures TakeMetadata(PutMetadata(m, rest)) == GotMetadata(m, rest)
  {
    ValidFits(m);
    hide TakePlace, TakeTraits, TakeTypes, TakeLabels, TakeGroups, PutPlace, PutTraits, PutTypes, PutLabels,
        PutGroups, ValidMetadata;
    var fifth := PutGroups(m.groups, rest);
    var fourth := PutLabels(m.labels, fifth);
    var third := PutTypes(m.types, fourth);
    var second := PutTraits(TraitsOf(m), third);
    PlaceBack(PlaceOf(m), second);
    TraitsBack(TraitsOf(m), third);
    TypesBack(m.types, fourth);
    LabelsBack(m.labels, fifth);
    GroupsBack(m.groups, rest);
  }

  lemma MetadataForth(b: seq<byte>)
    requires TakeMetadata(b).GotMetadata?
    ensures ValidMetadata(TakeMetadata(b).metadata)
    ensures PutMetadata(TakeMetadata(b).metadata, TakeMetadata(b).after) == b
  {
    hide TakePlace, TakeTraits, TakeTypes, TakeLabels, TakeGroups, PutPlace, PutTraits, PutTypes, PutLabels,
        PutGroups, ValidMetadata;
    var place := TakePlace(b);
    var traits := TakeTraits(place.after);
    var types := TakeTypes(traits.after);
    var labels := TakeLabels(types.after);
    PlaceForth(b);
    TraitsForth(place.after);
    TypesForth(traits.after);
    LabelsForth(types.after);
    GroupsForth(labels.after);
  }

  // ---------------------------------------------------------------------
  // The list
  // ---------------------------------------------------------------------

  function PutList(list: seq<Metadata>, rest: seq<byte>): seq<byte> {
    if list == [] then rest else PutMetadata(list[0], PutList(list[1..], rest))
  }

  function ListBytes(list: seq<Metadata>): seq<byte> { PutNums([|list|], [2], PutList(list, [])) }

  /** The bytes after the first n endpoints, or what stops the encoder there. */
  function EncodeUpTo(list: seq<Metadata>, n: nat): Result<seq<byte>>
    requires n <= |list|
  {
    if n == 0 then Ok(PutNums([|list|], [2], [])) else
    var before :- EncodeUpTo(list, n - 1);
    if !ValidMetadata(list[n - 1]) then Err(EINVAL) else
    var bytes := before + PutMetadata(list[n - 1], []);
    if |bytes| > MAX_METADATA then Err(E2BIG) else Ok(bytes)
  }

  function EncodeList(list: seq<Metadata>): Result<seq<byte>> {
    if |list| > MAX_ENDPOINTS then Err(E2BIG) else EncodeUpTo(list, |list|)
  }

  datatype ListRead = BadList | GotList(list: seq<Metadata>, after: seq<byte>)

  function TakeList(b: seq<byte>, n: nat): (r: ListRead)
    ensures r.GotList? ==> |r.list| == n
    decreases n
  {
    if n == 0 then GotList([], b) else
    var first := TakeMetadata(b);
    if first.BadMetadata? then BadList else
    var others := TakeList(first.after, n - 1);
    if others.BadList? then BadList else GotList([first.metadata] + others.list, others.after)
  }

  function DecodeList(b: seq<byte>): Result<seq<Metadata>> {
    if |b| < 2 || |b| > MAX_METADATA then Err(EMSGSIZE) else
    One(2);
    var n := TakeNums(b, [2])[0];
    if n > MAX_ENDPOINTS then Err(E2BIG) else
    var list := TakeList(b[2..], n);
    if list.BadList? || list.after != [] then Err(EPROTO) else Ok(list.list)
  }

  predicate AllValid(list: seq<Metadata>) { forall i :: 0 <= i < |list| ==> ValidMetadata(list[i]) }

  lemma {:induction false} ListBack(list: seq<Metadata>, rest: seq<byte>)
    requires AllValid(list)
    ensures TakeList(PutList(list, rest), |list|) == GotList(list, rest)
  {
    hide TakeMetadata, PutMetadata, ValidMetadata;
    if list != [] {
      MetadataBack(list[0], PutList(list[1..], rest));
      ListBack(list[1..], rest);
      assert list == [list[0]] + list[1..];
    }
  }

  lemma {:induction false} ListForth(b: seq<byte>, n: nat)
    requires TakeList(b, n).GotList?
    ensures AllValid(TakeList(b, n).list)
    ensures PutList(TakeList(b, n).list, TakeList(b, n).after) == b
    decreases n
  {
    hide TakeMetadata, PutMetadata, ValidMetadata;
    if n > 0 {
      var first := TakeMetadata(b);
      var others := TakeList(first.after, n - 1);
      MetadataForth(b);
      ListForth(first.after, n - 1);
      assert ([first.metadata] + others.list)[1..] == others.list;
    }
  }

  lemma PutMetadataThen(m: Metadata, rest: seq<byte>)
    ensures PutMetadata(m, []) + rest == PutMetadata(m, rest)
  {
    var l, t := m.labels, m.types;
    GroupsThen(m.groups, rest);
    LabelsThen(l, PutGroups(m.groups, []), rest);
    hide PutLabels, PutGroups;
    var labels := PutLabels(l, PutGroups(m.groups, []));
    TypesThen(t, labels, rest);
    TraitsThen(TraitsOf(m), PutTypes(t, labels), rest);
    PlaceThen(PlaceOf(m), PutTraits(TraitsOf(m), PutTypes(t, labels)), rest);
  }

  lemma {:induction false} NumsThen(nums: seq<nat>, widths: seq<nat>, rest: seq<byte>, more: seq<byte>)
    requires |nums| == |widths|
    ensures PutNums(nums, widths, rest) + more == PutNums(nums, widths, rest + more)
  {
    if nums != [] {
      NumsThen(nums[1..], widths[1..], rest, more);
      assert (BE(nums[0], widths[0]) + PutNums(nums[1..], widths[1..], rest)) + more
          == BE(nums[0], widths[0]) + (PutNums(nums[1..], widths[1..], rest) + more);
    }
  }

  lemma RuntimeThen(r: Runtime, rest: seq<byte>, more: seq<byte>)
    ensures PutRuntime(r, rest) + more == PutRuntime(r, rest + more)
  {
    NumsThen([Bits(r.pid), r.ticks], PROCESS, rest, more);
    var tail := PutNums([Bits(r.pid), r.ticks], PROCESS, rest);
    assert (r.host + (r.boot + tail)) + more == r.host + (r.boot + (tail + more));
  }

  lemma PlaceThen(p: Place, rest: seq<byte>, more: seq<byte>)
    ensures PutPlace(p, rest) + more == PutPlace(p, rest + more)
  {
    hide PutRuntime;
    var third := PutRuntime(p.application, rest);
    var second := PutNums([p.identity.registration], [8], third);
    RuntimeThen(p.application, rest, more);
    NumsThen([p.identity.registration], [8], third, more);
    RuntimeThen(p.identity.runtime, second, more);
    NumsThen([p.version], [2], PutRuntime(p.identity.runtime, second), more);
  }

  lemma TraitsThen(t: Traits, rest: seq<byte>, more: seq<byte>)
    ensures PutTraits(t, rest) + more == PutTraits(t, rest + more)
  {
    NumsThen([t.kind, t.role, t.scope, 0], TRAITS, rest, more);
  }

  lemma TypeThen(t: TypeIdentity, rest: seq<byte>, more: seq<byte>)
    ensures PutType(t, rest) + more == PutType(t, rest + more)
  {
    NumsThen([t.typeId, t.schemaId, t.encodingId, t.payloadSize], TYPE, rest, more);
  }

  lemma TypesThen(t: Types, rest: seq<byte>, more: seq<byte>)
    ensures PutTypes(t, rest) + more == PutTypes(t, rest + more)
  {
    hide PutType;
    var fourth := PutType(t.feedback, rest);
    var third := PutType(t.response, fourth);
    var second := PutType(t.request, third);
    TypeThen(t.feedback, rest, more);
    TypeThen(t.response, fourth, more);
    TypeThen(t.request, third, more);
    TypeThen(t.value, second, more);
  }

  lemma TextThen(s: seq<byte>, rest: seq<byte>, more: seq<byte>)
    ensures PutText(s, rest) + more == PutText(s, rest + more)
  {
    assert (BE(|s|, 2) + (s + rest)) + more == BE(|s|, 2) + (s + (rest + more));
  }

  lemma LabelsThen(l: Labels, rest: seq<byte>, more: seq<byte>)
    ensures PutLabels(l, rest) + more == PutLabels(l, rest + more)
  {
    hide PutText;
    var fourth := PutText(l.name, rest);
    var third := PutText(l.elementName, fourth);
    var second := PutText(l.applicationName, third);
    TextThen(l.name, rest, more);
    TextThen(l.elementName, fourth, more);
    TextThen(l.applicationName, third, more);
    TextThen(l.hostName, second, more);
  }

  lemma {:induction false} TextsThen(texts: seq<seq<byte>>, rest: seq<byte>, more: seq<byte>)
    ensures PutTexts(texts, rest) + more == PutTexts(texts, rest + more)
  {
    hide PutText;
    if texts != [] {
      TextsThen(texts[1..], rest, more);
      TextThen(texts[0], PutTexts(texts[1..], rest), more);
    }
  }

  lemma GroupsThen(groups: seq<seq<byte>>, more: seq<byte>)
    ensures PutGroups(groups, []) + more == PutGroups(groups, more)
  {
    TextsThen(groups, [], more);
    NumsThen([|groups|], [2], PutTexts(groups, []), more);
    assert [] + more == more;
  }

  lemma {:induction false} ListThen(list: seq<Metadata>, rest: seq<byte>)
    ensures PutList(list, []) + rest == PutList(list, rest)
  {
    hide PutMetadata;
    if list != [] {
      ListThen(list[1..], rest);
      PutMetadataThen(list[0], PutList(list[1..], []));
      PutMetadataThen(list[0], PutList(list[1..], rest));
      assert (PutMetadata(list[0], []) + PutList(list[1..], [])) + rest
          == PutMetadata(list[0], []) + (PutList(list[1..], []) + rest);
    }
  }

  lemma {:induction false} PutListLast(list: seq<Metadata>, rest: seq<byte>)
    requires list != []
    ensures PutList(list, rest) == PutList(list[..|list| - 1], PutMetadata(list[|list| - 1], rest))
  {
    hide PutMetadata;
    if |list| > 1 {
      PutListLast(list[1..], rest);
      assert list[1..][..|list| - 2] == list[..|list| - 1][1..];
      assert list[1..][|list| - 2] == list[|list| - 1];
    } else {
      assert list[..0] == [] && list[1..] == [];
    }
  }

  lemma FrontAndLast(list: seq<Metadata>, n: nat)
    requires 0 < n <= |list|
    ensures list[..n][..n - 1] == list[..n - 1] && list[..n][n - 1] == list[n - 1]
  {
  }

  /** The loop writes the same bytes, unless an endpoint is invalid or the list
      grows too large. */
  lemma {:induction false} EncodeUpToIs(list: seq<Metadata>, n: nat)
    requires n <= |list|
    ensures EncodeUpTo(list, n).Ok? <==>
      AllValid(list[..n]) && (n == 0 || |PutNums([|list|], [2], PutList(list[..n], []))| <= MAX_METADATA)
    ensures EncodeUpTo(list, n).Ok? ==> EncodeUpTo(list, n).value == PutNums([|list|], [2], PutList(list[..n], []))
  {
    hide PutMetadata, ValidMetadata;
    if n == 0 {
      assert list[..0] == [];
    } else {
      var front, last := list[..n - 1], list[n - 1];
      EncodeUpToIs(list, n - 1);
      FrontAndLast(list, n);
      PutListLast(list[..n], []);
      ListThen(front, PutMetadata(last, []));
      NumsThen([|list|], [2], PutList(front, []), PutMetadata(last, []));
      One(2);
    }
  }

  /** Encoding accepts exactly the short enough lists of valid endpoints. */
  lemma EncodeListIs(list: seq<Metadata>)
    ensures EncodeList(list).Ok? <==> |list| <= MAX_ENDPOINTS && AllValid(list) && |ListBytes(list)| <= MAX_METADATA
    ensures EncodeList(list).Ok? ==> EncodeList(list).value == ListBytes(list)
  {
    EncodeUpToIs(list, |list|);
    assert list[..|list|] == list;
    One(2);
  }

  lemma {:induction false} FewerBytes(list: seq<Metadata>, i: nat)
    requires i < |list|
    ensures |PutList(list[..i] + list[i + 1..], [])| <= |PutList(list, [])|
  {
    hide PutMetadata;
    var less := list[..i] + list[i + 1..];
    PutMetadataThen(list[0], PutList(list[1..], []));
    if i == 0 {
      assert less == list[1..];
    } else {
      FewerBytes(list[1..], i - 1);
      assert less[0] == list[0] && less[1..] == list[1..][..i - 1] + list[1..][i..];
      PutMetadataThen(list[0], PutList(less[1..], []));
    }
  }

  /** A list that can be encoded still can without one of its endpoints. */
  lemma FewerEncode(list: seq<Metadata>, i: nat)
    requires i < |list| && EncodeList(list).Ok?
    ensures EncodeList(list[..i] + list[i + 1..]).Ok?
  {
    hide EncodeList, ValidMetadata, PutList, PutNums, Total;
    var less := list[..i] + list[i + 1..];
    EncodeListIs(list);
    EncodeListIs(less);
    FewerBytes(list, i);
    assert forall k :: 0 <= k < |less| ==> less[k] == list[if k < i then k else k + 1];
  }

  /** A published list is what its bytes decode to. */
  lemma DecodeOfEncode(list: seq<Metadata>)
    requires EncodeList(list).Ok?
    ensures DecodeList(EncodeList(list).value) == Ok(list)
  {
    EncodeListIs(list);
    hide PutList, TakeList, EncodeList;
    One(2);
    Widths();
    TakeOfPut([|list|], [2], PutList(list, []));
    ListBack(list, []);
  }

  /** And no two byte strings decode to the same list. */
  lemma EncodeOfDecode(b: seq<byte>)
    requires DecodeList(b).Ok?
    ensures EncodeList(DecodeList(b).value) == Ok(b)
  {
    var list := DecodeList(b).value;
    One(2);
    var n := TakeNums(b, [2]);
    PutOfTake(b, [2]);
    ListForth(b[2..], n[0]);
    assert [n[0]] == n;
    EncodeListIs(list);
  }

  // ---------------------------------------------------------------------
  // The loops
  // ---------------------------------------------------------------------

  method EncodeDiscoveryMetadata(endpoints: seq<Metadata>) returns (r: Result<seq<byte>>)
    ensures r == EncodeList(endpoints)
  {
    hide PutMetadata, ValidMetadata;
    if |endpoints| > MAX_ENDPOINTS { return Err(E2BIG); }
    var bytes := PutNums([|endpoints|], [2], []);
    for i := 0 to |endpoints|
      invariant EncodeUpTo(endpoints, i) == Ok(bytes)
      invariant forall n :: 0 <= n <= i ==> EncodeUpTo(endpoints, n).Ok?
    {
      if !ValidMetadata(endpoints[i]) {
        Stops(endpoints, i + 1, |endpoints|);
        return Err(EINVAL);
      }
      bytes := bytes + PutMetadata(endpoints[i], []);
      if |bytes| > MAX_METADATA {
        Stops(endpoints, i + 1, |endpoints|);
        return Err(E2BIG);
      }
    }
    return Ok(bytes);
  }

  lemma {:induction false} Stops(list: seq<Metadata>, n: nat, m: nat)
    requires n <= m <= |list| && EncodeUpTo(list, n).Err?
    ensures EncodeUpTo(list, m) == EncodeUpTo(list, n)
    decreases m
  {
    hide PutMetadata, ValidMetadata;
    if n < m { Stops(list, n, m - 1); }
  }

  method ValidDiscoveryMetadata(endpoints: seq<Metadata>, host: Host, boot: Host) returns (ok: bool)
    ensures ok <==> ValidList(endpoints, host, boot)
  {
    hide ValidMetadata, ValidHost;
    if !ValidHost(host) || !ValidHost(boot) || |endpoints| > MAX_ENDPOINTS { return false; }
    for i := 0 to |endpoints|
      invariant forall k :: 0 <= k < i ==> ValidMetadata(endpoints[k]) && OwnedBy(endpoints[k], host, boot)
      invariant forall k, j :: 0 <= j < k < i ==> endpoints[k].identity != endpoints[j].identity
    {
      if !ValidMetadata(endpoints[i]) || !OwnedBy(endpoints[i], host, boot) { return false; }
      for j := 0 to i
        invariant forall k :: 0 <= k < j ==> endpoints[i].identity != endpoints[k].identity
      {
        if endpoints[i].identity == endpoints[j].identity { return false; }
      }
    }
    return true;
  }
}
