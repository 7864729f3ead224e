/** The checksum-read throttle. Every clock reading is an input of the call that takes it. */
module Pacing {

  /** Accumulated credit never exceeds this many bytes. */
  const CREDIT: real := 1048576.0

  function Max(a: real, b: real): real {
    if a < b then b else a
  }

  /** One accounted read: the block size, the two clock readings and the time the call returned. */
  datatype Call = Call(count: nat, first: real, second: real, returned: real)

  /** The deadline counted in bytes rather than seconds. */
  function Due(rate: real, deadline: real): real {
    rate * deadline
  }

  /** Bytes read beyond what the rate has allowed by `now`; below zero it is unused allowance. */
  function Debt(rate: real, deadline: real, now: real): real {
    Due(rate, deadline) - Due(rate, now)
  }

  /** The unused allowance that counts: at most a megabyte, and negative while a debt is left. */
  function Unused(rate: real, deadline: real, now: real): real {
    var unused := Due(rate, now) - Due(rate, deadline);
    if unused > 1048576.0 then 1048576.0 else unused
  }

  /** What one call does to the debt: forget allowance beyond a megabyte, then add its own bytes. */
  predicate Charged(rate: real, before: real, after: real, count: nat, now: real) {
    Debt(rate, after, now) == count as real - Unused(rate, before, now)
  }

  /** No debt is left when the call returns: it slept at least as long as it was told. */
  predicate Slept(rate: real, deadline: real, call: Call) {
    Debt(rate, deadline, call.returned) <= 0.0
  }

  /** One block as read: its size, the clock at both readings, and how much longer than asked the sleep
      took. */
  datatype Block = Block(count: nat, first: real, second: real, overslept: real)

  function TotalRead(blocks: seq<Block>): nat {
    if blocks == [] then 0 else TotalRead(blocks[..|blocks| - 1]) + blocks[|blocks| - 1].count
  }

  class ReadBudget {
    const rate: real
    var deadline: real
    var bytes: nat

    constructor (rate: real, now: real)
      requires rate > 0.0
      ensures this.rate == rate && deadline == now && bytes == 0
    {
      this.rate := rate;
      deadline := now;
      bytes := 0;
    }

    /** Charges a block and returns the least sleep that ends with no debt: after it the debt is paid,
        and if it is not zero, exactly paid. */
    method Account(count: nat, first: real, second: real) returns (wait: real)
      requires rate > 0.0
      modifies this
      ensures bytes == old(bytes) + count
      ensures Charged(rate, old(deadline), deadline, count, first)
      ensures wait >= 0.0 && Debt(rate, deadline, second + wait) <= 0.0
      ensures wait > 0.0 ==> Debt(rate, deadline, second + wait) == 0.0
      ensures wait == 0.0 <==> count as real <= Unused(rate, old(deadline), first) + rate * (second - first)
    {
      AdvanceCharges(rate, deadline, count, first);
      ghost var before := deadline;
      bytes := bytes + count;
      deadline := Max(deadline, first - CREDIT / rate) + count as real / rate;
      wait := deadline - second;
      if wait <= 0.0 {
        wait := 0.0;
      }
      Paid(rate, deadline, second + wait);
      SlowReaderNeverWaits(rate, before, deadline, count, first, second);
    }

    /** Reads a file block by block through the throttle. Whatever the clock says and however long the
        sleeps take, no window of blocks exceeds the rate over its time by more than the credit. */
    method Digest(blocks: seq<Block>) returns (calls: seq<Call>)
      requires rate > 0.0 && forall i :: 0 <= i < |blocks| ==> blocks[i].overslept >= 0.0
      modifies this
      ensures bytes == old(bytes) + TotalRead(blocks)
      ensures |calls| == |blocks|
      ensures forall i :: 0 <= i < |calls| ==> calls[i].count == blocks[i].count && calls[i].first == blocks[i].first
      ensures forall i, j :: 0 <= i <= j < |calls| ==> Fits(rate, calls, i, j)
    {
      calls := [];
      ghost var deadlines := [deadline];
      for i := 0 to |blocks|
        invariant |calls| == i && bytes == old(bytes) + TotalRead(blocks[..i])
        invariant forall k :: 0 <= k < i ==> calls[k].count == blocks[k].count && calls[k].first == blocks[k].first
        invariant Paced(rate, deadlines, calls) && deadlines[i] == deadline
      {
        assert blocks[..i + 1][..i] == blocks[..i];
        var wait := Account(blocks[i].count, blocks[i].first, blocks[i].second);
        var returned := blocks[i].second + wait + blocks[i].overslept;
        LaterPaid(rate, deadline, blocks[i].second + wait, blocks[i].overslept);
        var call := Call(blocks[i].count, blocks[i].first, blocks[i].second, returned);
        PacedOn(rate, deadlines, calls, deadline, call);
        calls, deadlines := calls + [call], deadlines + [deadline];
      }
      assert blocks[..|blocks|] == blocks;
      AllFit(rate, deadlines, calls);
    }
  }

  /** The blocks of calls i to j fit the rate over their time, plus the credit. */
  predicate Fits(rate: real, calls: seq<Call>, i: nat, j: nat)
    requires i <= j < |calls|
  {
    Accounted(calls, i, j) as real <= rate * (calls[j].returned - calls[i].first) + 1048576.0
  }

  lemma PacedOn(rate: real, deadlines: seq<real>, calls: seq<Call>, deadline: real, call: Call)
    requires rate > 0.0 && Paced(rate, deadlines, calls)
    requires Charged(rate, deadlines[|calls|], deadline, call.count, call.first) && Slept(rate, deadline, call)
    ensures Paced(rate, deadlines + [deadline], calls + [call])
  {
  }

  /** A run: `deadlines[k]` holds before call k, and every call slept as long as its new deadline asked. */
  ghost predicate Paced(rate: real, deadlines: seq<real>, calls: seq<Call>)
    requires rate > 0.0
  {
    && |deadlines| == |calls| + 1
    && forall k :: 0 <= k < |calls| ==>
        Charged(rate, deadlines[k], deadlines[k + 1], calls[k].count, calls[k].first)
        && Slept(rate, deadlines[k + 1], calls[k])
  }

  /** Bytes accounted by calls i to j. */
  function Accounted(calls: seq<Call>, i: nat, j: nat): nat
    requires i <= j < |calls|
    decreases j
  {
    calls[j].count + if i == j then 0 else Accounted(calls, i, j - 1)
  }

  /** The deadline arithmetic, in seconds, charges the block in bytes. */
  lemma AdvanceCharges(rate: real, deadline: real, count: nat, now: real)
    requires rate > 0.0
    ensures Charged(rate, deadline, Max(deadline, now - CREDIT / rate) + count as real / rate, count, now)
  {
    var cost, credit := count as real / rate, CREDIT / rate;
    assert rate * cost == count as real && rate * credit == CREDIT;
    var base := Max(deadline, now - credit);
    assert rate * (base + cost) == rate * base + rate * cost;
    assert rate * (now - credit) == rate * now - CREDIT;
    if deadline < now - credit {
      assert rate * (now - credit - deadline) > 0.0;
    } else {
      assert rate * (deadline - (now - credit)) >= 0.0;
    }
  }

  lemma Paid(rate: real, deadline: real, now: real)
    requires rate > 0.0
    ensures now >= deadline ==> Debt(rate, deadline, now) <= 0.0
    ensures now == deadline ==> Debt(rate, deadline, now) == 0.0
  {
    if now >= deadline {
      assert rate * (now - deadline) >= 0.0;
    }
  }

  lemma LaterPaid(rate: real, deadline: real, now: real, more: real)
    requires rate > 0.0 && more >= 0.0 && Debt(rate, deadline, now) <= 0.0
    ensures Debt(rate, deadline, now + more) <= 0.0
  {
    assert rate * (now + more) == rate * now + rate * more && rate * more >= 0.0;
  }

  /** `due` is the deadline in bytes. Each call moves it by at least its own size. */
  lemma {:induction false} DeadlineGrowth(due: seq<real>, calls: seq<Call>, start: real, i: nat, j: nat)
    requires i <= j < |calls| && |due| == |calls| + 1
    requires due[i + 1] >= start + calls[i].count as real
    requires forall k :: i < k <= j ==> due[k + 1] >= due[k] + calls[k].count as real
    ensures due[j + 1] >= start + Accounted(calls, i, j) as real
    decreases j
  {
    if i < j {
      DeadlineGrowth(due, calls, start, i, j - 1);
    }
  }

  lemma CallGrows(rate: real, deadlines: seq<real>, calls: seq<Call>, k: nat)
    requires rate > 0.0 && k < |calls|
    requires Paced(rate, deadlines, calls)
    ensures Due(rate, deadlines[k + 1]) >= Due(rate, deadlines[k]) + calls[k].count as real
    ensures Due(rate, deadlines[k + 1]) >= Due(rate, calls[k].first) - CREDIT + calls[k].count as real
    ensures Due(rate, calls[k].returned) >= Due(rate, deadlines[k + 1])
  {
  }

  lemma {:induction false} WindowDue(rate: real, deadlines: seq<real>, calls: seq<Call>, due: seq<real>, i: nat, j: nat)
    requires rate > 0.0 && i <= j < |calls|
    requires Paced(rate, deadlines, calls)
    requires |due| == |deadlines| && forall k :: 0 <= k < |due| ==> due[k] == Due(rate, deadlines[k])
    ensures due[j + 1] >= Due(rate, calls[i].first) - CREDIT + Accounted(calls, i, j) as real
  {
    forall k: nat | k < |calls|
      ensures due[k + 1] >= due[k] + calls[k].count as real
    {
      CallGrows(rate, deadlines, calls, k);
    }
    CallGrows(rate, deadlines, calls, i);
    DeadlineGrowth(due, calls, Due(rate, calls[i].first) - CREDIT, i, j);
  }

  /** In any run, whatever the clock read, the bytes accounted from call i through call j fit the rate
      over the time from the clock reading of i to the return of j, plus one credit. */
  lemma WindowBound(rate: real, deadlines: seq<real>, calls: seq<Call>, i: nat, j: nat)
    requires rate > 0.0 && i <= j < |calls|
    requires Paced(rate, deadlines, calls)
    ensures Accounted(calls, i, j) as real <= rate * (calls[j].returned - calls[i].first) + 1048576.0
  {
    var due := seq(|deadlines|, k requires 0 <= k < |deadlines| => Due(rate, deadlines[k]));
    WindowDue(rate, deadlines, calls, due, i, j);
    CallGrows(rate, deadlines, calls, j);
    Distribute(rate, calls[j].returned, calls[i].first);
  }

  lemma AllFit(rate: real, deadlines: seq<real>, calls: seq<Call>)
    requires rate > 0.0 && Paced(rate, deadlines, calls)
    ensures forall i, j :: 0 <= i <= j < |calls| ==> Fits(rate, calls, i, j)
  {
    forall i, j | 0 <= i <= j < |calls| ensures Fits(rate, calls, i, j) {
      WindowBound(rate, deadlines, calls, i, j);
    }
  }

  lemma Distribute(rate: real, a: real, b: real)
    ensures rate * (a - b) == Due(rate, a) - Due(rate, b)
  {
  }

  /** A call has no wait exactly when the allowance unused at its first clock reading, of which at most the credit
      counts, and what the rate allows until its second reading together cover the block. So a reader slower than
      the rate is never delayed. */
  lemma SlowReaderNeverWaits(rate: real, before: real, after: real, count: nat, first: real, second: real)
    requires rate > 0.0 && Charged(rate, before, after, count, first)
    ensures after <= second <==> count as real <= Unused(rate, before, first) + rate * (second - first)
    ensures before <= first && count as real <= rate * (second - first) ==> after <= second
  {
    Distribute(rate, second, first);
    SameOrder(rate, after, second);
    SameOrder(rate, before, first);
  }

  lemma SameOrder(rate: real, a: real, b: real)
    requires rate > 0.0
    ensures a <= b <==> Due(rate, a) <= Due(rate, b)
  {
    Distribute(rate, b, a);
    if a <= b {
      assert rate * (b - a) >= 0.0;
    } else {
      assert rate * (b - a) < 0.0;
    }
  }
}
