/** The publishing code of SharedChannel and of the network proxy, statement by
    statement, each call shown to be a run of the channel's publisher. While a
    call runs here the readers' pins stay as they are. */
module ChannelPublish {
  import opened Wire
  import opened SharedChannel
  import opened ChannelRuns

  ghost predicate PublisherNext(c: Channel, c': Channel) {
    Shape(c) && exists p :: CanPublish(c, p) && c' == Publish(c, p)
  }

  /** A stretch of a run in which only the publisher moves. */
  ghost predicate Solo(run: seq<Channel>, from: Channel, to: Channel) {
    && run != [] && run[0] == from && run[|run| - 1] == to
    && forall i :: 0 <= i < |run| - 1 ==> PublisherNext(run[i], run[i + 1])
  }

  lemma Extend(run: seq<Channel>, from: Channel, c: Channel, p: PublishStep)
    requires Solo(run, from, c) && Inv(c) && CanPublish(c, p)
    ensures Solo(run + [Publish(c, p)], from, Publish(c, p)) && Inv(Publish(c, p))
  {
    PublisherStep(c, p);
    var run' := run + [Publish(c, p)];
    forall i | 0 <= i < |run'| - 1 ensures PublisherNext(run'[i], run'[i + 1]) {
      if i < |run| - 1 { assert PublisherNext(run[i], run[i + 1]); }
    }
  }

  /** Slot i of the group for the next publication cannot be taken: it is in
      use, or holds the sequence that must stay. */
  predicate Blocked(depth: nat, published: nat, slots: seq<Slot>, i: nat)
    requires depth > 0 && |slots| == depth * 3 && i < 3
  {
    var s := slots[Base(depth, published + 1) + i];
    s.users != 0 || (RetainedOf(depth, published) != 0 && s.sequence == RetainedOf(depth, published))
  }

  /** The first of the slots i, i+1, .. 2 that can be taken, or 3. */
  function FirstFree(depth: nat, published: nat, slots: seq<Slot>, i: nat): (f: nat)
    requires depth > 0 && |slots| == depth * 3 && i <= 3
    ensures i <= f <= 3 && (f < 3 ==> !Blocked(depth, published, slots, f))
    ensures forall j :: i <= j < f ==> Blocked(depth, published, slots, j)
    decreases 3 - i
  {
    if i == 3 then 3 else if !Blocked(depth, published, slots, i) then i else FirstFree(depth, published, slots, i + 1)
  }

  lemma SearchOn(depth: nat, published: nat, slots: seq<Slot>, i: nat)
    requires depth > 0 && |slots| == depth * 3 && i < 3
    ensures FirstFree(depth, published, slots, i) ==
      if Blocked(depth, published, slots, i) then FirstFree(depth, published, slots, i + 1) else i
    ensures FirstFree(depth, published, slots, 3) == 3
  {
    hide Blocked;
  }

  /** The slots after value v is written to slot f of the group. */
  function Written(depth: nat, published: nat, slots: seq<Slot>, f: nat, v: seq<byte>): seq<Slot>
    requires depth > 0 && |slots| == depth * 3 && f < 3
  {
    var k := Base(depth, published + 1) + f;
    slots[k := Slot(0, Up(Up(slots[k].version)), published + 1, v)]
  }

  /** With the pins held fixed and at most one of the three slots pinned, the
      search finds a slot: at most one other holds the retained sequence. */
  lemma OnePinNeverBlocks(c: Channel, pinned: nat)
    requires Inv(c) && pinned < 3
    requires forall i :: 0 <= i < 3 && InUse(c, i) ==> i == pinned
    ensures FirstFree(c.depth, c.published, c.slots, 0) < 3
  {
    var i, j := if pinned == 0 then 1 else 0, if pinned == 2 then 1 else 2;
    assert !InUse(c, i) && !InUse(c, j);
    assert !(Blocked(c.depth, c.published, c.slots, i) && Blocked(c.depth, c.published, c.slots, j));
  }

  predicate InUse(c: Channel, i: nat)
    requires c.depth > 0 && |c.slots| == c.depth * 3 && i < 3
  {
    c.slots[Base(c.depth, c.published + 1) + i].users != 0
  }

  // ---------------------------------------------------------------------
  // The code below computes what the publisher's steps do, taken alone
  // ---------------------------------------------------------------------

  /** One turn of the search loop. */
  lemma TryAlone(run: seq<Channel>, from: Channel, c: Channel) returns (run': seq<Channel>, c': Channel)
    requires Solo(run, from, c) && Inv(c) && c.pc.Search? && c.pc.i < 3
    ensures Solo(run', from, c') && Inv(c')
    ensures
      if Blocked(c.depth, c.published, c.slots, c.pc.i) then c' == c.(pc := Search(c.pc.i + 1))
      else
        var k := Target(c);
        c' == c.(pc := Claimed(c.pc.i), slots := c.slots[k := c.slots[k].(users := WRITING)])
  {
    Extend(run, from, c, TryClaim);
    c' := Publish(c, TryClaim);
    run' := run + [c'];
    if c'.pc.Claimed? && HoldsRetained(c') {
      Extend(run', from, c', SkipRetained);
      c' := Publish(c', SkipRetained);
      run' := run' + [c'];
      assert c'.slots == c.slots;
    }
  }

  lemma {:induction false} SearchAlone(run: seq<Channel>, from: Channel, c: Channel)
      returns (run': seq<Channel>, c': Channel)
    requires Solo(run, from, c) && Inv(c) && c.pc.Search?
    ensures Solo(run', from, c') && Inv(c')
    ensures var f := FirstFree(c.depth, c.published, c.slots, c.pc.i);
      if f == 3 then c' == c.(pc := Search(3))
      else
        var k := Base(c.depth, c.published + 1) + f;
        c' == c.(pc := Claimed(f), slots := c.slots[k := c.slots[k].(users := WRITING)])
    decreases 3 - c.pc.i
  {
    run', c' := run, c;
    if c.pc.i < 3 {
      run', c' := TryAlone(run, from, c);
      if c'.pc.Search? { run', c' := SearchAlone(run', from, c'); }
    }
  }

  lemma {:induction false} WriteBytesAlone(run: seq<Channel>, from: Channel, c: Channel)
      returns (run': seq<Channel>, c': Channel)
    requires Solo(run, from, c) && Inv(c) && c.pc.Writing?
    ensures Solo(run', from, c') && Inv(c')
    ensures var k := Target(c);
      c' == c.(pc := Writing(c.pc.i, c.size), slots := c.slots[k := c.slots[k].(data := c.value)])
    decreases c.size - c.pc.done
  {
    run', c' := run, c;
    var k := Target(c);
    assert ContentOk(c, k);
    if c.pc.done < c.size {
      Extend(run', from, c', WriteByte);
      c' := Publish(c', WriteByte);
      run' := run' + [c'];
      run', c' := WriteBytesAlone(run', from, c');
      assert c'.slots == c.slots[k := c.slots[k].(data := c.value)];
    } else {
      assert c.slots[k].data == c.value;
      assert c.slots == c.slots[k := c.slots[k].(data := c.value)];
    }
  }

  /** From the slot's claim to the commit point. */
  lemma WriteAlone(run: seq<Channel>, from: Channel, c: Channel) returns (run': seq<Channel>, c': Channel)
    requires Solo(run, from, c) && Inv(c) && c.pc.Claimed? && !HoldsRetained(c)
    ensures Solo(run', from, c') && Inv(c')
    ensures var k := Target(c);
      c' == c.(pc := Idle, published := c.published + 1, log := c.log + [c.value],
               slots := c.slots[k := Slot(0, Up(Up(c.slots[k].version)), c.published + 1, c.value)])
  {
    run', c' := run, c;
    var k := Target(c);
    Extend(run', from, c', BeginWrite);
    c' := Publish(c', BeginWrite);
    run' := run' + [c'];
    run', c' := WriteBytesAlone(run', from, c');
    assert c' == c.(pc := Writing(c.pc.i, c.size),
        slots := c.slots[k := c.slots[k].(version := Up(c.slots[k].version), data := c.value)]);
    run', c' := FinishAlone(run', from, c');
  }

  lemma FinishAlone(run: seq<Channel>, from: Channel, c: Channel) returns (run': seq<Channel>, c': Channel)
    requires Solo(run, from, c) && Inv(c) && c.pc.Writing? && c.pc.done == c.size
    ensures Solo(run', from, c') && Inv(c')
    ensures var k := Target(c);
      c' == c.(pc := Idle, published := c.published + 1, log := c.log + [c.value],
               slots := c.slots[k := Slot(0, Up(c.slots[k].version), c.published + 1, c.slots[k].data)])
  {
    run', c' := run, c;
    Extend(run', from, c', Stamp);
    c' := Publish(c', Stamp);
    run' := run' + [c'];
    Extend(run', from, c', EndWrite);
    c' := Publish(c', EndWrite);
    run' := run' + [c'];
    Extend(run', from, c', Release);
    c' := Publish(c', Release);
    run' := run' + [c'];
    Extend(run', from, c', Commit);
    c' := Publish(c', Commit);
    run' := run' + [c'];
  }

  /** A whole call, as PublishImpl and the proxy compute it, is a run of the
      publisher: committed, or given back untouched. */
  lemma PublishIsARun(c: Channel, v: seq<byte>, broadcastFails: bool) returns (run: seq<Channel>, c': Channel)
    requires Inv(c) && c.pc == Idle && c.published < U64_MAX && |v| == c.size
    ensures Solo(run, c, c') && Inv(c')
    ensures var f := FirstFree(c.depth, c.published, c.slots, 0);
      if f == 3 || broadcastFails then c' == c.(value := v)
      else c' == c.(value := v, published := c.published + 1, log := c.log + [v],
                    slots := Written(c.depth, c.published, c.slots, f, v))
  {
    run, c' := [c], c;
    Extend(run, c, c', BeginPublish(v));
    c' := Publish(c', BeginPublish(v));
    run := run + [c'];
    hide Solo;
    run, c' := SearchAlone(run, c, c');
    if c'.pc.Search? {
      Extend(run, c, c', GiveUp);
      c' := Publish(c', GiveUp);
      run := run + [c'];
    } else if broadcastFails {
      Extend(run, c, c', BroadcastFails);
      c' := Publish(c', BroadcastFails);
      run := run + [c'];
      assert c'.slots == c.slots;
    } else {
      var k := Target(c');
      run, c' := WriteAlone(run, c, c');
      assert c'.slots == Written(c.depth, c.published, c.slots, k - Base(c.depth, c.published + 1), v);
    }
  }

  /** So the slots that a successful call of either leaves behind, at depth 1 as at
      any other, satisfy the channel's invariant. */
  lemma WrittenKeepsInv(c: Channel, v: seq<byte>)
    requires Inv(c) && c.pc == Idle && c.published < U64_MAX && |v| == c.size
    requires FirstFree(c.depth, c.published, c.slots, 0) != 3
    ensures var f := FirstFree(c.depth, c.published, c.slots, 0);
      Inv(c.(value := v, published := c.published + 1, log := c.log + [v],
             slots := Written(c.depth, c.published, c.slots, f, v)))
  {
    hide Inv, FirstFree, Written;
    var run, c' := PublishIsARun(c, v, false);
  }

  /** The storage behind a SharedChannel publisher or a TopicProxy. */
  class ChannelStorage {
    const depth: nat
    const size: nat
    var published: nat
    const slots: array<Slot>

    ghost predicate Valid()
      reads this, slots
    {
      && depth > 0 && slots.Length == depth * 3 && published <= U64_MAX
      && forall k :: 0 <= k < slots.Length ==> |slots[k].data| == size
    }

    constructor (depth: nat, size: nat)
      requires depth > 0
      ensures Valid() && fresh(slots)
      ensures slots[..] == Fresh(depth, size).slots && published == 0
    {
      this.depth, this.size, published := depth, size, 0;
      slots := new Slot[depth * 3](_ => Slot(0, 0, 0, seq(size, _ => 0)));
    }

    /** The slot search of PublishImpl: leaves the slot it returns claimed. */
    method ClaimSlot(base: nat) returns (target: nat)
      requires Valid() && base == Base(depth, published + 1)
      modifies slots
      ensures Valid() && target == old(FirstFree(depth, published, slots[..], 0))
      ensures target == 3 ==> slots[..] == old(slots[..])
      ensures target < 3 ==>
        slots[..] == old(slots[..])[base + target := old(slots[..])[base + target].(users := WRITING)]
    {
      hide FirstFree;
      var sequence := published + 1;
      var retained := if sequence > depth then sequence - depth else 0;
      for i := 0 to 3
        invariant FirstFree(depth, published, old(slots[..]), 0) == FirstFree(depth, published, old(slots[..]), i)
        invariant slots[..] == old(slots[..])
      {
        SearchOn(depth, published, slots[..], i);
        if slots[base + i].users != 0 { continue; }
        slots[base + i] := slots[base + i].(users := WRITING);
        if retained != 0 && slots[base + i].sequence == retained {
          slots[base + i] := slots[base + i].(users := 0);
          continue;
        }
        return i;
      }
      target := 3;
    }

    /** PublishImpl. `lock` and `broadcast` are the pthread results. */
    method PublishImpl(v: seq<byte>, notify: bool, lock: Option<Errno>, broadcast: Option<Errno>)
      returns (code: Result<()>)
      requires Valid() && |v| == size
      modifies this, slots
      ensures Valid()
      ensures
        var f := old(FirstFree(depth, published, slots[..], 0));
        && code == (if notify && lock.Some? then Err(lock.value)
                    else if old(published) == U64_MAX then Err(EOVERFLOW)
                    else if f == 3 then Err(EAGAIN)
                    else if notify && broadcast.Some? then Err(broadcast.value)
                    else Ok(()))
        && (code.Ok? ==> published == old(published) + 1
                         && slots[..] == Written(depth, old(published), old(slots[..]), f, v))
        && (code.Err? ==> published == old(published) && slots[..] == old(slots[..]))
    {
      if notify && lock.Some? { return Err(lock.value); }
      if published == U64_MAX { return Err(EOVERFLOW); }
      var base := Base(depth, published + 1);
      var target := ClaimSlot(base);
      if target == 3 { return Err(EAGAIN); }
      if notify && broadcast.Some? {
        slots[base + target] := slots[base + target].(users := 0);
        return Err(broadcast.value);
      }
      WriteSlot(base + target, v);
      code := Ok(());
    }

    /** The network proxy's Publish, on storage of depth 1. `validate` and `lock`
        are the codes of Validate and of the try-lock. */
    method ProxyPublish(v: seq<byte>, validate: Option<Errno>, lock: Option<Errno>, broadcast: Option<Errno>)
      returns (code: Result<()>)
      requires Valid() && depth == 1
      modifies this, slots
      ensures Valid()
      ensures
        var f := old(FirstFree(depth, published, slots[..], 0));
        && code == (if |v| != size then Err(EPROTOTYPE)
                    else if validate.Some? then Err(validate.value)
                    else if lock.Some? then Err(if lock.value == EBUSY then EAGAIN else lock.value)
                    else if old(published) == U64_MAX then Err(EOVERFLOW)
                    else if f == 3 then Err(EAGAIN)
                    else if broadcast.Some? then Err(broadcast.value)
                    else Ok(()))
        && (code.Ok? ==> published == old(published) + 1
                         && slots[..] == Written(depth, old(published), old(slots[..]), f, v))
        && (code.Err? ==> published == old(published) && slots[..] == old(slots[..]))
    {
      if |v| != size { return Err(EPROTOTYPE); }
      if validate.Some? { return Err(validate.value); }
      if lock.Some? { return Err(if lock.value == EBUSY then EAGAIN else lock.value); }
      var previous := published;
      if previous == U64_MAX { return Err(EOVERFLOW); }
      for i := 0 to 3
        invariant FirstFree(depth, previous, old(slots[..]), 0) == FirstFree(depth, previous, old(slots[..]), i)
        invariant slots[..] == old(slots[..]) && published == previous
        modifies this, slots
      {
        if slots[i].users != 0 { continue; }
        slots[i] := slots[i].(users := WRITING);
        if previous != 0 && slots[i].sequence == previous {
          slots[i] := slots[i].(users := 0);
          continue;
        }
        if broadcast.Some? {
          slots[i] := slots[i].(users := 0);
          return Err(broadcast.value);
        }
        WriteSlot(i, v);
        return Ok(());
      }
      code := Err(EAGAIN);
    }

    /** The mutation of the claimed slot k, and the commit point. */
    method WriteSlot(k: nat, v: seq<byte>)
      requires Valid() && k < slots.Length && |v| == size && published < U64_MAX
      modifies this, slots
      ensures Valid() && published == old(published) + 1
      ensures slots[..] == old(slots[..])[k := Slot(0, Up(Up(old(slots[k]).version)), published, v)]
    {
      slots[k] := slots[k].(version := Up(slots[k].version));
      var n := 0;
      while n < size
        invariant n <= size && |slots[k].data| == size && slots[k].data[..n] == v[..n]
        invariant slots[..] == old(slots[..])[k := old(slots[k]).(version := Up(old(slots[k]).version),
            data := slots[k].data)]
        modifies slots
      {
        slots[k] := slots[k].(data := slots[k].data[n := v[n]]);
        n := n + 1;
      }
      assert slots[k].data == v;
      slots[k] := slots[k].(sequence := published + 1);
      slots[k] := slots[k].(version := Up(slots[k].version));
      slots[k] := slots[k].(users := 0);
      published := published + 1;
    }
  }
}
