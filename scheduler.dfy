/** The scheduled handler that starts or stops the EC2 instances carrying a
    tag, skipping those that belong to an AutoScaling group. Each method is
    proved to issue exactly the fail-fast run (`Issued`) of its script in
    `Plan` and to return what `Plan` says it returns. */
module Scheduler {
  import opened Envelope
  import opened Cloud
  import opened Plan

  class Ec2StateManager {
    const config: Config
    const cloud: Provider

    constructor (config: Config, cloud: Provider)
      ensures this.config == config && this.cloud == cloud
    {
      this.config := config;
      this.cloud := cloud;
    }

    /** Finds the instances of `region` with tag `tagKey`=`tagValue` in
        `state`, page by page, asks for the AutoScaling membership of every
        one of them, and keeps, in discovery order, those with none. */
    method GetEc2InstanceIdsByTag(region: Region, state: string, tagKey: string, tagValue: string)
      returns (r: Result<seq<InstanceId>>)
      modifies cloud
      ensures cloud.log == old(cloud.log) + Issued(cloud.inv.faults, SelectionScript(cloud.inv, Query(region, state, tagKey, tagValue)))
      ensures r == Selection(cloud.inv, Query(region, state, tagKey, tagValue))
    {
      var q := Query(region, state, tagKey, tagValue);
      ghost var inv := cloud.inv;
      ghost var faults := inv.faults;
      ghost var pages := inv.Pages(q);
      ghost var eligible := Eligible(inv, region, Discovered(inv, q));
      ghost var done: seq<Call> := [];
      var ids: seq<InstanceId> := [];
      var k: nat := 0;
      var more := true;
      while more
        invariant k <= |pages|
        invariant more <==> k < |pages|
        invariant cloud.log == old(cloud.log) + done
        invariant Raised(faults, done).None?
        invariant SelectionScript(inv, q) == done + SelectionFrom(inv, q, k)
        invariant eligible == ids + Eligible(inv, region, DiscoveredFrom(inv, q, k))
        decreases |pages| - k
      {
        var describe := Call.DescribeInstances(q, k);
        ghost var checks := MembershipCalls(region, pages[k]);
        ghost var later := SelectionFrom(inv, q, k + 1);
        PageStep(inv, q, k);
        Single(faults, describe);
        var page := cloud.DescribeInstances(q, k);
        if page.Err? {
          StopAt(faults, old(cloud.log), done, [describe], checks + later);
          return Err(page.error);
        }
        ContinueAfter(faults, old(cloud.log), done, [describe], checks + later);
        done := done + [describe];
        var found := page.value.0;
        var hasNext := page.value.1;
        var kept := KeepUnmanaged(region, found);
        if kept.Err? {
          StopAt(faults, old(cloud.log), done, checks, later);
          return Err(kept.error);
        }
        ContinueAfter(faults, old(cloud.log), done, checks, later);
        Regroup(ids, kept.value, Eligible(inv, region, DiscoveredFrom(inv, q, k + 1)));
        done := done + checks;
        ids := ids + kept.value;
        k := k + 1;
        more := hasNext;
      }
      assert SelectionFrom(inv, q, k) == [] && DiscoveredFrom(inv, q, k) == [];
      assert Eligible(inv, region, []) == [];
      assert ids == ids + [] == eligible;
      assert SelectionScript(inv, q) == done + [] == done;
      Completes(faults, done);
      return Ok(ids);
    }

    /** The body of the paginated loop for one page: asks for the
        AutoScaling membership of each instance found, in order, and keeps
        those with none. */
    method KeepUnmanaged(region: Region, found: seq<InstanceId>) returns (r: Result<seq<InstanceId>>)
      modifies cloud
      ensures cloud.log == old(cloud.log) + Issued(cloud.inv.faults, MembershipCalls(region, found))
      ensures r == match Raised(cloud.inv.faults, MembershipCalls(region, found))
                   case Some(e) => Err(e)
                   case None => Ok(Eligible(cloud.inv, region, found))
    {
      ghost var inv := cloud.inv;
      ghost var faults := inv.faults;
      ghost var done: seq<Call> := [];
      var ids: seq<InstanceId> := [];
      for j := 0 to |found|
        invariant cloud.log == old(cloud.log) + done
        invariant Raised(faults, done).None?
        invariant MembershipCalls(region, found) == done + MembershipCalls(region, found[j..])
        invariant ids == Eligible(inv, region, found[..j])
      {
        var id := found[j];
        var check := Call.DescribeAutoScalingInstances(region, id);
        ghost var after := MembershipCalls(region, found[j + 1..]);
        CheckStep(inv, region, found, j);
        Single(faults, check);
        var groups := cloud.DescribeAutoScalingInstances(region, id);
        if groups.Err? {
          StopAt(faults, old(cloud.log), done, [check], after);
          return Err(groups.error);
        }
        ContinueAfter(faults, old(cloud.log), done, [check], after);
        done := done + [check];
        if !(groups.value > 0) {
          ids := ids + [id];
        }
      }
      assert found[|found|..] == [] && found[..|found|] == found;
      assert MembershipCalls(region, found) == done + [] == done;
      Completes(faults, done);
      return Ok(ids);
    }

    /** Stops the instances `ids` of `region` one by one, in order; the
        result is the exception that ended the loop early, if any. */
    method StopEc2Instances(region: Region, ids: seq<InstanceId>) returns (raised: Option<Error>)
      modifies cloud
      ensures cloud.log == old(cloud.log) + Issued(cloud.inv.faults, TransitionCalls(Stop, region, ids))
      ensures raised == Raised(cloud.inv.faults, TransitionCalls(Stop, region, ids))
    {
      ghost var faults := cloud.inv.faults;
      ghost var done: seq<Call> := [];
      for i := 0 to |ids|
        invariant cloud.log == old(cloud.log) + done
        invariant Raised(faults, done).None?
        invariant TransitionCalls(Stop, region, ids) == done + TransitionCalls(Stop, region, ids[i..])
      {
        var c := Call.StopInstances(region, ids[i]);
        assert ids[i..] == [ids[i]] + ids[i + 1..];
        assert TransitionCalls(Stop, region, ids[i..]) == [c] + TransitionCalls(Stop, region, ids[i + 1..]);
        Single(faults, c);
        var e := cloud.StopInstances(region, ids[i]);
        if e.Some? {
          StopAt(faults, old(cloud.log), done, [c], TransitionCalls(Stop, region, ids[i + 1..]));
          return e;
        }
        ContinueAfter(faults, old(cloud.log), done, [c], TransitionCalls(Stop, region, ids[i + 1..]));
        done := done + [c];
      }
      assert ids[|ids|..] == [];
      assert TransitionCalls(Stop, region, ids) == done;
      Completes(faults, done);
      return None;
    }

    /** Starts the instances `ids` of `region` one by one, in order; the
        result is the exception that ended the loop early, if any. */
    method StartEc2Instances(region: Region, ids: seq<InstanceId>) returns (raised: Option<Error>)
      modifies cloud
      ensures cloud.log == old(cloud.log) + Issued(cloud.inv.faults, TransitionCalls(Start, region, ids))
      ensures raised == Raised(cloud.inv.faults, TransitionCalls(Start, region, ids))
    {
      ghost var faults := cloud.inv.faults;
      ghost var done: seq<Call> := [];
      for i := 0 to |ids|
        invariant cloud.log == old(cloud.log) + done
        invariant Raised(faults, done).None?
        invariant TransitionCalls(Start, region, ids) == done + TransitionCalls(Start, region, ids[i..])
      {
        var c := Call.StartInstances(region, ids[i]);
        assert ids[i..] == [ids[i]] + ids[i + 1..];
        assert TransitionCalls(Start, region, ids[i..]) == [c] + TransitionCalls(Start, region, ids[i + 1..]);
        Single(faults, c);
        var e := cloud.StartInstances(region, ids[i]);
        if e.Some? {
          StopAt(faults, old(cloud.log), done, [c], TransitionCalls(Start, region, ids[i + 1..]));
          return e;
        }
        ContinueAfter(faults, old(cloud.log), done, [c], TransitionCalls(Start, region, ids[i + 1..]));
        done := done + [c];
      }
      assert ids[|ids|..] == [];
      assert TransitionCalls(Start, region, ids) == done;
      Completes(faults, done);
      return None;
    }

    /** Resolves the action to a source state, then makes one pass per
        configured region, in order: select the eligible instances, and
        start or stop them if there are any. */
    method Execute() returns (r: Result<Value>)
      modifies cloud
      ensures SourceState(config.action).Err? ==> cloud.log == old(cloud.log) && r == Err(UNEXPECTED_ACTION)
      ensures cloud.log == old(cloud.log) + Issued(cloud.inv.faults, InvocationScript(cloud.inv, config))
      ensures r == Invocation(cloud.inv, config)
    {
      var resolved := SourceState(config.action);
      if resolved.Err? {
        return Err(resolved.error);
      }
      var raised := VisitRegions(resolved.value);
      if raised.Some? {
        return Err(raised.value);
      }
      return Ok(Nested(BuildResponseOk(NoneValue)));
    }

    /** The region loop of `_execute`: one pass per configured region, in
        configured order, until a pass raises. */
    method VisitRegions(state: string) returns (raised: Option<Error>)
      modifies cloud
      ensures cloud.log == old(cloud.log) + Issued(cloud.inv.faults, RegionsFrom(cloud.inv, config, state, 0))
      ensures raised == Raised(cloud.inv.faults, RegionsFrom(cloud.inv, config, state, 0))
    {
      ghost var inv := cloud.inv;
      ghost var faults := inv.faults;
      ghost var script := RegionsFrom(inv, config, state, 0);
      ghost var done: seq<Call> := [];
      var i := 0;
      while i < |config.regions|
        invariant i <= |config.regions|
        invariant cloud.log == old(cloud.log) + done
        invariant Raised(faults, done).None?
        invariant script == done + RegionsFrom(inv, config, state, i)
      {
        var region := config.regions[i];
        ghost var pass := RegionScript(inv, config.action, RegionQuery(config, state, region));
        ghost var rest := RegionsFrom(inv, config, state, i + 1);
        assert RegionsFrom(inv, config, state, i) == pass + rest;
        var e := RegionPass(state, region);
        if e.Some? {
          StopAt(faults, old(cloud.log), done, pass, rest);
          return e;
        }
        ContinueAfter(faults, old(cloud.log), done, pass, rest);
        done := done + pass;
        i := i + 1;
      }
      assert script == done + [] == done;
      Completes(faults, done);
      return None;
    }

    /** The body of the region loop for one region: select the eligible
        instances, then start or stop them as the action says, but only
        when there is at least one. */
    method RegionPass(state: string, region: Region) returns (raised: Option<Error>)
      modifies cloud
      ensures cloud.log == old(cloud.log) + Issued(cloud.inv.faults, RegionScript(cloud.inv, config.action, RegionQuery(config, state, region)))
      ensures raised == Raised(cloud.inv.faults, RegionScript(cloud.inv, config.action, RegionQuery(config, state, region)))
    {
      ghost var inv := cloud.inv;
      ghost var faults := inv.faults;
      ghost var q := RegionQuery(config, state, region);
      ghost var selection := SelectionScript(inv, q);
      ghost var eligible := Eligible(inv, region, Discovered(inv, q));
      ghost var transitions := if |eligible| > 0 then TransitionScript(config.action, region, eligible) else [];
      assert RegionScript(inv, config.action, q) == selection + transitions;
      IssuedAppend(faults, selection, transitions);
      var selected := GetEc2InstanceIdsByTag(region, state, config.tagKey, config.tagValue);
      if selected.Err? {
        return Some(selected.error);
      }
      Completes(faults, selection);
      var ids := selected.value;
      assert ids == eligible;
      raised := None;
      if |ids| > 0 {
        if config.action in START_ACTIONS {
          assert transitions == TransitionCalls(Start, region, ids);
          raised := StartEc2Instances(region, ids);
        } else if config.action in STOP_ACTIONS {
          assert transitions == TransitionCalls(Stop, region, ids);
          raised := StopEc2Instances(region, ids);
        }
      }
      Regroup(old(cloud.log), selection, Issued(faults, transitions));
    }

    /** `process_event` over this handler's `_execute`: `debug` is what
        `_debug` raised, if anything, and `trace` the formatted traceback of
        whatever was raised. No provider call happens when `_debug` raised. */
    method ProcessEvent(debug: Option<Error>, trace: seq<string>) returns (resp: Response)
      modifies cloud
      ensures debug.Some? ==> cloud.log == old(cloud.log)
      ensures debug.None? ==> cloud.log == old(cloud.log) + Issued(cloud.inv.faults, InvocationScript(cloud.inv, config))
      ensures resp == HandlerResponse(cloud.inv, config, debug, trace)
    {
      if debug.Some? {
        return BuildResponseUncaughtException(debug.value, trace);
      }
      match CheckInputs()
      case Some(e) =>
        return BuildResponseUncaughtException(e, trace);
      case None =>
        var result := Execute();
        match result
        case Ok(v) =>
          return BuildResponseOk(v);
        case Err(e) =>
          return BuildResponseUncaughtException(e, trace);
    }
  }
}
