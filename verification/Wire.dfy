/** Big-endian wire primitives shared by every codec: fixed-width unsigned
    numbers, and records that are a row of fixed-width cells. */
module Wire {

  type byte = b: nat | b < 256
  type u8 = v: nat | v < 0x100
  type u16 = v: nat | v < 0x1_0000
  type u32 = v: nat | v < 0x1_0000_0000
  type u64 = v: nat | v < 0x1_0000_0000_0000_0000
  type i32 = v: int | -0x8000_0000 <= v < 0x8000_0000

  const U64_MAX: u64 := 0xFFFF_FFFF_FFFF_FFFF

  datatype Option<+T> = None | Some(value: T)

  /** The negative errno values that the modelled operations return. */
  datatype Errno =
    | EAGAIN | EALREADY | EBADF | EBUSY | ECANCELED | ECHILD | ECONNRESET | EEXIST | EFAULT | EINPROGRESS
    | EINVAL | EIO | EMSGSIZE | E2BIG | ENOENT | ENOSPC | ENOTCONN | EOVERFLOW | EPERM | EPROTO
    | EPROTONOSUPPORT | EPROTOTYPE | ESTALE | ETIMEDOUT

  datatype Result<+T> = Ok(value: T) | Err(error: Errno) {
    predicate IsFailure() { Err? }
    function PropagateFailure<U>(): Result<U> requires Err? { Err(error) }
    function Extract(): T requires Ok? { value }
  }

  function Pow256(n: nat): nat {
    if n == 0 then 1 else 256 * Pow256(n - 1)
  }

  /** The `n` low-order bytes of `v`, most significant first. */
  function BE(v: nat, n: nat): (r: seq<byte>)
    ensures |r| == n
    decreases v, n
  {
    if n == 0 then [] else BE(v / 256, n - 1) + [v % 256]
  }

  function FromBE(s: seq<byte>): nat {
    if s == [] then 0 else 256 * FromBE(s[..|s| - 1]) + s[|s| - 1]
  }

  lemma {:induction false} FromBEBound(s: seq<byte>)
    ensures FromBE(s) < Pow256(|s|)
  {
    if s != [] { FromBEBound(s[..|s| - 1]); }
  }

  lemma {:induction false} FromBEOfBE(v: nat, n: nat)
    requires v < Pow256(n)
    ensures FromBE(BE(v, n)) == v
  {
    if n > 0 {
      FromBEOfBE(v / 256, n - 1);
      assert BE(v, n)[..n - 1] == BE(v / 256, n - 1);
    }
  }

  lemma {:induction false} BEOfFromBE(s: seq<byte>)
    ensures BE(FromBE(s), |s|) == s
  {
    if s != [] {
      BEOfFromBE(s[..|s| - 1]);
      assert s == s[..|s| - 1] + [s[|s| - 1]];
    }
  }

  /** The ranges of the widths in use, so that callers need no powers. */
  lemma Widths()
    ensures Pow256(1) == 0x100 && Pow256(2) == 0x1_0000 && Pow256(3) == 0x100_0000 && Pow256(4) == 0x1_0000_0000
    ensures Pow256(8) == 0x1_0000_0000_0000_0000
  {
    assert Pow256(2) == 256 * Pow256(1);
    assert Pow256(3) == 256 * Pow256(2);
    assert Pow256(4) == 256 * Pow256(3);
    assert Pow256(5) == 256 * Pow256(4);
    assert Pow256(6) == 256 * Pow256(5);
    assert Pow256(7) == 256 * Pow256(6);
  }

  lemma Halves(s: seq<byte>, n: nat)
    requires n <= |s|
    ensures s[..n] + s[n..] == s
  {
  }

  lemma Parts(a: seq<byte>, b: seq<byte>)
    ensures (a + b)[..|a|] == a && (a + b)[|a|..] == b
  {
  }

  // ---------------------------------------------------------------------
  // Rows of fixed-width numbers
  // ---------------------------------------------------------------------

  function Total(widths: seq<nat>): nat {
    if widths == [] then 0 else widths[0] + Total(widths[1..])
  }

  ghost predicate NumsFit(nums: seq<nat>, widths: seq<nat>) {
    |nums| == |widths| && forall i :: 0 <= i < |nums| ==> nums[i] < Pow256(widths[i])
  }

  /** A row of numbers in front of what follows. */
  function PutNums(nums: seq<nat>, widths: seq<nat>, rest: seq<byte>): (r: seq<byte>)
    requires |nums| == |widths|
    ensures |r| == Total(widths) + |rest|
  {
    if nums == [] then rest else BE(nums[0], widths[0]) + PutNums(nums[1..], widths[1..], rest)
  }

  function TakeNums(b: seq<byte>, widths: seq<nat>): (nums: seq<nat>)
    requires Total(widths) <= |b|
    ensures NumsFit(nums, widths)
  {
    if widths == [] then [] else
    FromBEBound(b[..widths[0]]);
    [FromBE(b[..widths[0]])] + TakeNums(b[widths[0]..], widths[1..])
  }

  /** Reading back a written row, whatever follows it. */
  lemma {:induction false} TakeOfPut(nums: seq<nat>, widths: seq<nat>, rest: seq<byte>)
    requires NumsFit(nums, widths)
    ensures TakeNums(PutNums(nums, widths, rest), widths) == nums
    ensures PutNums(nums, widths, rest)[Total(widths)..] == rest
  {
    if nums != [] {
      var w, tail := widths[0], PutNums(nums[1..], widths[1..], rest);
      var b := PutNums(nums, widths, rest);
      TakeOfPut(nums[1..], widths[1..], rest);
      FromBEOfBE(nums[0], w);
      assert b[..w] == BE(nums[0], w) && b[w..] == tail;
      assert b[Total(widths)..] == tail[Total(widths[1..])..];
    }
  }

  lemma PutCons(v: nat, w: nat, nums: seq<nat>, widths: seq<nat>, rest: seq<byte>)
    requires |nums| == |widths|
    ensures PutNums([v] + nums, [w] + widths, rest) == BE(v, w) + PutNums(nums, widths, rest)
  {
    assert ([v] + nums)[1..] == nums && ([w] + widths)[1..] == widths;
  }

  /** Writing back a row that was read. */
  lemma {:induction false} PutOfTake(b: seq<byte>, widths: seq<nat>)
    requires Total(widths) <= |b|
    ensures PutNums(TakeNums(b, widths), widths, b[Total(widths)..]) == b
  {
    if widths != [] {
      var w, tail := widths[0], b[widths[0]..];
      PutOfTake(tail, widths[1..]);
      assert tail[Total(widths[1..])..] == b[Total(widths)..];
      BEOfFromBE(b[..w]);
      assert widths == [w] + widths[1..];
      PutCons(FromBE(b[..w]), w, TakeNums(tail, widths[1..]), widths[1..], b[Total(widths)..]);
    }
  }

  // ---------------------------------------------------------------------
  // Text with its length in front
  // ---------------------------------------------------------------------

  datatype TextRead = BadText | GotText(text: seq<byte>, after: seq<byte>)

  function PutText(s: seq<byte>, rest: seq<byte>): seq<byte> { BE(|s|, 2) + (s + rest) }

  function TakeText(b: seq<byte>, most: nat): (r: TextRead)
    ensures r.GotText? ==> |r.text| <= most && |r.after| < |b|
  {
    if |b| < 2 then BadText else
    var n := FromBE(b[..2]);
    if n > most || n > |b| - 2 then BadText else GotText(b[2..2 + n], b[2 + n..])
  }

  lemma TextBack(s: seq<byte>, rest: seq<byte>, most: nat)
    requires |s| <= most && |s| < 0x1_0000
    ensures TakeText(PutText(s, rest), most) == GotText(s, rest)
  {
    var b := PutText(s, rest);
    Parts(BE(|s|, 2), s + rest);
    Widths();
    FromBEOfBE(|s|, 2);
    Parts(s, rest);
    assert b[2..2 + |s|] == (s + rest)[..|s|] && b[2 + |s|..] == (s + rest)[|s|..];
  }

  lemma TextForth(b: seq<byte>, most: nat)
    requires TakeText(b, most).GotText?
    ensures PutText(TakeText(b, most).text, TakeText(b, most).after) == b
  {
    BEOfFromBE(b[..2]);
  }
}
