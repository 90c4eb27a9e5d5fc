/** Runtime and type identities as rows of fixed-width numbers. */
module IdentityCodec {
  import opened Wire
  import opened NetworkTypes

  function Bits(v: i32): u32 { if v < 0 then v + 0x1_0000_0000 else v }
  function Signed(v: u32): i32 { if v < 0x8000_0000 then v else v - 0x1_0000_0000 }

  const PROCESS: seq<nat> := [4, 8]
  const TYPE: seq<nat> := [8, 8, 4, 4]

  lemma IdentitySizes()
    ensures Total(PROCESS) == 12 && Total(TYPE) == 24
  {
    Total2(4, 8);
    Total4(8, 8, 4, 4);
  }

  lemma Total2(a: nat, b: nat)
    ensures Total([a, b]) == a + b
  {
    assert [a, b][1..] == [b] && [b][1..] == [];
    assert Total([b]) == b;
  }

  lemma Total4(a: nat, b: nat, c: nat, d: nat)
    ensures Total([a, b, c, d]) == a + b + c + d
  {
    assert [a, b, c, d][1..][1..] == [c, d];
    Total2(c, d);
  }

  datatype RuntimeRead = BadRuntime | GotRuntime(runtime: Runtime, after: seq<byte>)

  function PutRuntime(r: Runtime, rest: seq<byte>): (b: seq<byte>)
    ensures |b| == 44 + |rest|
  {
    IdentitySizes();
    r.host + (r.boot + PutNums([Bits(r.pid), r.ticks], PROCESS, rest))
  }

  function TakeRuntime(b: seq<byte>): (r: RuntimeRead)
    ensures r.GotRuntime? ==> |b| == 44 + |r.after|
  {
    if |b| < 44 then BadRuntime else
    IdentitySizes();
    Widths();
    var nums := TakeNums(b[32..], PROCESS);
    if nums[0] >= 0x8000_0000 then BadRuntime
    else GotRuntime(Runtime(b[..16], b[16..32], nums[0], nums[1]), b[44..])
  }

  lemma RuntimeBack(r: Runtime, rest: seq<byte>)
    requires r.pid >= 0
    ensures TakeRuntime(PutRuntime(r, rest)) == GotRuntime(r, rest)
  {
    IdentitySizes();
    Widths();
    var b, nums := PutRuntime(r, rest), [Bits(r.pid), r.ticks];
    assert b[..16] == r.host && b[16..32] == r.boot && b[32..] == PutNums(nums, PROCESS, rest);
    TakeOfPut(nums, PROCESS, rest);
    assert b[44..] == b[32..][12..];
  }

  lemma RuntimeForth(b: seq<byte>)
    requires TakeRuntime(b).GotRuntime?
    ensures PutRuntime(TakeRuntime(b).runtime, TakeRuntime(b).after) == b
    ensures TakeRuntime(b).runtime.pid >= 0
  {
    IdentitySizes();
    Widths();
    var nums := TakeNums(b[32..], PROCESS);
    PutOfTake(b[32..], PROCESS);
    assert [nums[0], nums[1]] == nums;
    assert b[32..][12..] == b[44..];
    assert b == b[..16] + (b[16..32] + b[32..]);
  }

  datatype TypeRead = BadType | GotType(identity: TypeIdentity, after: seq<byte>)

  function PutType(t: TypeIdentity, rest: seq<byte>): (b: seq<byte>)
    ensures |b| == 24 + |rest|
  {
    IdentitySizes();
    PutNums([t.typeId, t.schemaId, t.encodingId, t.payloadSize], TYPE, rest)
  }

  function TakeType(b: seq<byte>): (r: TypeRead)
    ensures r.GotType? ==> |b| == 24 + |r.after|
  {
    if |b| < 24 then BadType else
    IdentitySizes();
    Widths();
    var nums := TakeNums(b, TYPE);
    GotType(TypeIdentity(nums[0], nums[1], nums[2], nums[3]), b[24..])
  }

  lemma TypeBack(t: TypeIdentity, rest: seq<byte>)
    ensures TakeType(PutType(t, rest)) == GotType(t, rest)
  {
    IdentitySizes();
    Widths();
    TakeOfPut([t.typeId, t.schemaId, t.encodingId, t.payloadSize], TYPE, rest);
  }

  lemma TypeForth(b: seq<byte>)
    requires TakeType(b).GotType?
    ensures PutType(TakeType(b).identity, TakeType(b).after) == b
  {
    IdentitySizes();
    var nums := TakeNums(b, TYPE);
    PutOfTake(b, TYPE);
    assert [nums[0], nums[1], nums[2], nums[3]] == nums;
  }
}
