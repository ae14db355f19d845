/** The cloud provider the scheduler talks to, as an oracle. Every call the
    scheduler issues is recorded in a log; what a call returns, or which
    exception it raises, is a fixed function of the call. A raised exception
    is never caught below the handler, so a run issues calls in a fixed order
    and stops right after the first one that raises: `Issued` and `Raised`
    describe exactly that. */
module Cloud {
  import opened Envelope

  type Region = string
  type InstanceId = string

  /** A `describe_instances` filter: instances of one region whose tag
      `tagKey` equals `tagValue` and whose state name equals `state`. */
  datatype Query = Query(region: Region, state: string, tagKey: string, tagValue: string)

  /** One request to the provider, each scoped to a single region. */
  datatype Call =
    | DescribeInstances(query: Query, page: nat)
    | DescribeAutoScalingInstances(region: Region, id: InstanceId)
    | StartInstances(region: Region, id: InstanceId)
    | StopInstances(region: Region, id: InstanceId)
  {
    predicate IsTransition() {
      StartInstances? || StopInstances?
    }

    function RegionOf(): Region {
      if DescribeInstances? then query.region else region
    }
  }

  /** What the provider knows: the pages each filter returns (instance ids
      in provider order, the reservations of a page flattened), the
      instances that belong to an AutoScaling group, and the calls that
      raise, with what they raise. */
  datatype Inventory = Inventory(
    directory: map<Query, seq<seq<InstanceId>>>,
    managed: set<(Region, InstanceId)>,
    faults: map<Call, Error>)
  {
    /** The pages the paginator yields: at least one, which may be empty. */
    function Pages(q: Query): (pages: seq<seq<InstanceId>>)
      ensures |pages| >= 1
      ensures q in directory && directory[q] != [] ==> pages == directory[q]
    {
      if q in directory && directory[q] != [] then directory[q] else [[]]
    }

    /** Length of the `AutoScalingInstances` list answered for one instance. */
    function GroupCount(region: Region, id: InstanceId): (n: nat)
      ensures n > 0 <==> (region, id) in managed
    {
      if (region, id) in managed then 1 else 0
    }
  }

  /** Index of the first call in `calls` that raises, or `|calls|`. */
  function FirstFault(faults: map<Call, Error>, calls: seq<Call>): (n: nat)
    ensures n <= |calls|
    ensures n < |calls| ==> calls[n] in faults
  {
    if calls == [] then 0
    else if calls[0] in faults then 0
    else 1 + FirstFault(faults, calls[1..])
  }

  /** The calls actually issued when `calls` is run fail-fast: all of them
      if none raises, otherwise every call up to and including the first
      that raises, and nothing after it (see `FailFast`). */
  function Issued(faults: map<Call, Error>, calls: seq<Call>): (issued: seq<Call>)
    ensures |issued| <= |calls|
  {
    var n := FirstFault(faults, calls);
    if n < |calls| then calls[..n + 1] else calls
  }

  /** The exception a fail-fast run of `calls` ends with, if any. */
  function Raised(faults: map<Call, Error>, calls: seq<Call>): (raised: Option<Error>)
    ensures raised.Some? ==> raised.value in faults.Values
  {
    var n := FirstFault(faults, calls);
    if n < |calls| then Some(faults[calls[n]]) else None
  }

  /** Where the first raising call of `a + b` sits. */
  lemma {:induction false} FirstFaultAppend(faults: map<Call, Error>, a: seq<Call>, b: seq<Call>)
    ensures FirstFault(faults, a + b) ==
      if FirstFault(faults, a) < |a| then FirstFault(faults, a) else |a| + FirstFault(faults, b)
  {
    if a == [] {
      assert a + b == b;
    } else {
      assert (a + b)[0] == a[0];
      assert (a + b)[1..] == a[1..] + b;
      if a[0] !in faults {
        FirstFaultAppend(faults, a[1..], b);
      }
    }
  }

  /** No call before `FirstFault` raises. */
  lemma {:induction false} FirstFaultIsFirst(faults: map<Call, Error>, calls: seq<Call>)
    ensures forall i :: 0 <= i < FirstFault(faults, calls) ==> calls[i] !in faults
  {
    if calls != [] && calls[0] !in faults {
      FirstFaultIsFirst(faults, calls[1..]);
    }
  }

  /** A run that raises nothing issues every call. */
  lemma Completes(faults: map<Call, Error>, calls: seq<Call>)
    requires Raised(faults, calls).None?
    ensures Issued(faults, calls) == calls
  {
  }

  /** A fail-fast run issues a prefix of its calls. It issues all of them
      exactly when none raises; otherwise the last call issued is the first
      one that raises, it is what the run raises, and no call after it is
      issued. */
  lemma FailFast(faults: map<Call, Error>, calls: seq<Call>)
    ensures Issued(faults, calls) <= calls
    ensures Raised(faults, calls).None? <==> forall i :: 0 <= i < |calls| ==> calls[i] !in faults
    ensures Raised(faults, calls).None? ==> Issued(faults, calls) == calls
    ensures Raised(faults, calls).Some? ==>
      var s := Issued(faults, calls);
      |s| >= 1 && s[|s| - 1] in faults && Raised(faults, calls) == Some(faults[s[|s| - 1]]) &&
      forall i :: 0 <= i < |s| - 1 ==> s[i] !in faults
  {
    FirstFaultIsFirst(faults, calls);
  }

  /** A single call raises exactly when the inventory says it does. */
  lemma Single(faults: map<Call, Error>, c: Call)
    ensures Issued(faults, [c]) == [c]
    ensures Raised(faults, [c]) == if c in faults then Some(faults[c]) else None
  {
    assert [c][1..] == [];
  }

  /** Running `a` then `b` fail-fast: if `a` completes, `b` runs after it;
      if `a` raises, nothing of `b` is issued. */
  lemma IssuedAppend(faults: map<Call, Error>, a: seq<Call>, b: seq<Call>)
    ensures Raised(faults, a).None? ==>
      Issued(faults, a + b) == a + Issued(faults, b) && Raised(faults, a + b) == Raised(faults, b)
    ensures Raised(faults, a).Some? ==>
      Issued(faults, a + b) == Issued(faults, a) && Raised(faults, a + b) == Raised(faults, a)
  {
    FirstFaultAppend(faults, a, b);
    var n := FirstFault(faults, a);
    if n < |a| {
      assert (a + b)[..n + 1] == a[..n + 1];
      assert (a + b)[n] == a[n];
    } else {
      var m := FirstFault(faults, b);
      if m < |b| {
        assert (a + b)[..|a| + m + 1] == a + b[..m + 1];
        assert (a + b)[|a| + m] == b[m];
      }
    }
  }

  /** Moves the boundary between the calls done and the calls to come. */
  lemma Regroup<T>(done: seq<T>, next: seq<T>, rest: seq<T>)
    ensures done + (next + rest) == done + next + rest
  {
  }

  /** A step of a fail-fast loop that did not raise: `done` ran without
      raising and `next` did not raise either, so `next` is issued in full
      after `done` on top of the earlier log, and the calls still to come
      are `rest`. */
  lemma ContinueAfter(faults: map<Call, Error>, log: seq<Call>, done: seq<Call>, next: seq<Call>, rest: seq<Call>)
    requires Raised(faults, done).None? && Raised(faults, next).None?
    ensures Raised(faults, done + next).None?
    ensures log + done + Issued(faults, next) == log + (done + next)
    ensures done + (next + rest) == (done + next) + rest
  {
    IssuedAppend(faults, done, next);
    Completes(faults, next);
  }

  /** A step of a fail-fast loop that raised: `done` ran without raising
      and `next` raised, so the whole run stops inside `next`, and nothing
      of `rest` is issued. */
  lemma StopAt(faults: map<Call, Error>, log: seq<Call>, done: seq<Call>, next: seq<Call>, rest: seq<Call>)
    requires Raised(faults, done).None? && Raised(faults, next).Some?
    ensures log + done + Issued(faults, next) == log + Issued(faults, done + (next + rest))
    ensures Raised(faults, done + (next + rest)) == Raised(faults, next)
  {
    IssuedAppend(faults, done, next + rest);
    IssuedAppend(faults, next, rest);
  }

  /** The provider behind the scheduler: a fixed inventory and the log of
      every call issued so far. Each method appends its call to the log and
      answers from the inventory, or raises what the inventory says. */
  class Provider {
    const inv: Inventory
    var log: seq<Call>

    constructor (inv: Inventory)
      ensures this.inv == inv && log == []
    {
      this.inv := inv;
      log := [];
    }

    /** One page of `describe_instances` under filter `q`: its instance ids
        and whether the paginator has another page after it. */
    method DescribeInstances(q: Query, page: nat) returns (r: Result<(seq<InstanceId>, bool)>)
      requires page < |inv.Pages(q)|
      modifies this
      ensures log == old(log) + [Call.DescribeInstances(q, page)]
      ensures Call.DescribeInstances(q, page) in inv.faults ==> r == Err(inv.faults[Call.DescribeInstances(q, page)])
      ensures Call.DescribeInstances(q, page) !in inv.faults ==>
        r == Ok((inv.Pages(q)[page], page + 1 < |inv.Pages(q)|))
    {
      var c := Call.DescribeInstances(q, page);
      log := log + [c];
      if c in inv.faults {
        r := Err(inv.faults[c]);
      } else {
        r := Ok((inv.Pages(q)[page], page + 1 < |inv.Pages(q)|));
      }
    }

    /** `describe_auto_scaling_instances` for one instance: how many
        AutoScaling records it has. */
    method DescribeAutoScalingInstances(region: Region, id: InstanceId) returns (r: Result<nat>)
      modifies this
      ensures log == old(log) + [Call.DescribeAutoScalingInstances(region, id)]
      ensures Call.DescribeAutoScalingInstances(region, id) in inv.faults ==>
        r == Err(inv.faults[Call.DescribeAutoScalingInstances(region, id)])
      ensures Call.DescribeAutoScalingInstances(region, id) !in inv.faults ==>
        r == Ok(inv.GroupCount(region, id))
    {
      var c := Call.DescribeAutoScalingInstances(region, id);
      log := log + [c];
      if c in inv.faults {
        r := Err(inv.faults[c]);
      } else {
        r := Ok(inv.GroupCount(region, id));
      }
    }

    /** `start_instances` for one instance; the result is what it raised. */
    method StartInstances(region: Region, id: InstanceId) returns (raised: Option<Error>)
      modifies this
      ensures log == old(log) + [Call.StartInstances(region, id)]
      ensures raised == Raised(inv.faults, [Call.StartInstances(region, id)])
    {
      var c := Call.StartInstances(region, id);
      log := log + [c];
      raised := if c in inv.faults then Some(inv.faults[c]) else None;
    }

    /** `stop_instances` for one instance; the result is what it raised. */
    method StopInstances(region: Region, id: InstanceId) returns (raised: Option<Error>)
      modifies this
      ensures log == old(log) + [Call.StopInstances(region, id)]
      ensures raised == Raised(inv.faults, [Call.StopInstances(region, id)])
    {
      var c := Call.StopInstances(region, id);
      log := log + [c];
      raised := if c in inv.faults then Some(inv.faults[c]) else None;
    }
  }
}
