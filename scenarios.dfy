/** Three concrete invocations: starting the stopped instances tagged
    `env`=`batch` in two regions, when one of them is managed by an
    AutoScaling group, when nothing is found, and when a membership query
    raises. */
module Scenarios {
  import opened Envelope
  import opened Cloud
  import opened Plan
  import Strings
  import Properties

  const EAST: Query := Query("us-east-1", "stopped", "env", "batch")
  const WEST: Query := Query("us-west-2", "stopped", "env", "batch")

  /** The configuration `ACTION=start`, `RESOURCE_TAG_KEY=env`,
      `RESOURCE_TAG_VALUE=batch`, `AWS_REGIONS=us-east-1,us-west-2`. */
  const BATCH: Config := Config("start", "env", "batch", ["us-east-1", "us-west-2"])

  /** The region list is read from the environment by splitting at commas. */
  lemma BatchParsed()
    ensures ParseConfig("start", "env", "batch", "us-east-1,us-west-2") == BATCH
  {
    var east: string := "us-east-1";
    var west: string := "us-west-2";
    assert forall i :: 0 <= i < |east| ==> east[i] != ',';
    assert forall i :: 0 <= i < |west| ==> west[i] != ',';
    assert Strings.Join([east, west], ',') == "us-east-1,us-west-2";
    Properties.JoinSplit([east, west]);
  }

  /** us-east-1 holds `i-001` and `i-002`, both stopped, and `i-001` belongs
      to an AutoScaling group; us-west-2 holds nothing that matches. */
  function TwoInstances(faults: map<Call, Error>): Inventory {
    Inventory(map[EAST := [["i-001", "i-002"]]], {("us-east-1", "i-001")}, faults)
  }

  /** What the invocation asks for, whatever raises: both membership
      queries of us-east-1, then the start of `i-002` only, then the single
      directory query of us-west-2. */
  lemma TwoInstancesScript(faults: map<Call, Error>)
    ensures InvocationScript(TwoInstances(faults), BATCH) == [
      Call.DescribeInstances(EAST, 0),
      Call.DescribeAutoScalingInstances("us-east-1", "i-001"),
      Call.DescribeAutoScalingInstances("us-east-1", "i-002"),
      Call.StartInstances("us-east-1", "i-002"),
      Call.DescribeInstances(WEST, 0)]
  {
    var inv := TwoInstances(faults);
    var found: seq<InstanceId> := ["i-001", "i-002"];
    assert inv.Pages(EAST) == [found];
    assert inv.Pages(WEST) == [[]];
    assert inv.GroupCount("us-east-1", "i-001") == 1;
    assert inv.GroupCount("us-east-1", "i-002") == 0 by {
      DistinctIds();
    }
    assert found[1..] == ["i-002"] && found[1..][1..] == [];
    assert Eligible(inv, "us-east-1", found[1..]) == ["i-002"];
    assert Eligible(inv, "us-east-1", found) == ["i-002"];
    assert MembershipCalls("us-east-1", found[1..]) == [Call.DescribeAutoScalingInstances("us-east-1", "i-002")];
    assert MembershipCalls("us-east-1", found) == [
      Call.DescribeAutoScalingInstances("us-east-1", "i-001"),
      Call.DescribeAutoScalingInstances("us-east-1", "i-002")];
    assert SelectionFrom(inv, EAST, 1) == [] && DiscoveredFrom(inv, EAST, 1) == [];
    assert SelectionScript(inv, EAST) == [Call.DescribeInstances(EAST, 0)] + MembershipCalls("us-east-1", found) + [];
    assert Discovered(inv, EAST) == found + [];
    assert TransitionCalls(Start, "us-east-1", ["i-002"]) == [Call.StartInstances("us-east-1", "i-002")];
    assert "start" in START_ACTIONS;
    assert TransitionScript("start", EAST.region, Eligible(inv, EAST.region, Discovered(inv, EAST))) ==
      [Call.StartInstances("us-east-1", "i-002")];
    assert RegionScript(inv, "start", EAST) == SelectionScript(inv, EAST) + [Call.StartInstances("us-east-1", "i-002")];
    assert SelectionFrom(inv, WEST, 1) == [] && DiscoveredFrom(inv, WEST, 1) == [];
    assert MembershipCalls("us-west-2", []) == [];
    assert SelectionScript(inv, WEST) == [Call.DescribeInstances(WEST, 0)] + [] + [];
    assert Discovered(inv, WEST) == [] + [];
    assert RegionScript(inv, "start", WEST) == [Call.DescribeInstances(WEST, 0)] + [];
    assert RegionsFrom(inv, BATCH, "stopped", 0) == RegionScript(inv, "start", EAST) + RegionScript(inv, "start", WEST);
  }

  /** When nothing raises, every call of the script is made (so `i-002`,
      and only it, is started) and the response is the nested ok envelope. */
  lemma StartsOnlyUnmanaged()
    ensures Issued(map[], InvocationScript(TwoInstances(map[]), BATCH)) == InvocationScript(TwoInstances(map[]), BATCH)
    ensures HandlerResponse(TwoInstances(map[]), BATCH, None, []) == Response(200, Nested(Response(200, Text(""))))
  {
    TwoInstancesScript(map[]);
    assert FirstFault(map[], InvocationScript(TwoInstances(map[]), BATCH)) == 5;
  }

  /** With nothing found in either region, only the two directory queries
      are made, nothing is started, and the response is the nested ok
      envelope. */
  lemma NothingFound()
    ensures InvocationScript(Inventory(map[], {}, map[]), BATCH) ==
      [Call.DescribeInstances(EAST, 0), Call.DescribeInstances(WEST, 0)]
    ensures Issued(map[], InvocationScript(Inventory(map[], {}, map[]), BATCH)) ==
      [Call.DescribeInstances(EAST, 0), Call.DescribeInstances(WEST, 0)]
    ensures HandlerResponse(Inventory(map[], {}, map[]), BATCH, None, []) == Response(200, Nested(Response(200, Text(""))))
  {
    var inv := Inventory(map[], {}, map[]);
    assert SelectionScript(inv, EAST) == [Call.DescribeInstances(EAST, 0)];
    assert SelectionScript(inv, WEST) == [Call.DescribeInstances(WEST, 0)];
    assert Discovered(inv, EAST) == [] && Discovered(inv, WEST) == [];
    assert RegionsFrom(inv, BATCH, "stopped", 0) == RegionScript(inv, "start", EAST) + RegionScript(inv, "start", WEST);
  }

  /** The membership query for `i-002` raises a `ClientError`. */
  const FAULTS: map<Call, Error> := map[Call.DescribeAutoScalingInstances("us-east-1", "i-002") := Error("ClientError", "denied")]

  /** When the membership query for `i-002` raises, the run stops right
      there: nothing is started, us-west-2 is never queried, and the
      response is a 500 naming the exception. */
  lemma MembershipQueryRaises(trace: seq<string>)
    ensures Issued(FAULTS, InvocationScript(TwoInstances(FAULTS), BATCH)) == [
      Call.DescribeInstances(EAST, 0),
      Call.DescribeAutoScalingInstances("us-east-1", "i-001"),
      Call.DescribeAutoScalingInstances("us-east-1", "i-002")]
    ensures HandlerResponse(TwoInstances(FAULTS), BATCH, None, trace) ==
      Response(500, ErrorDetails(500, "ClientError denied", trace))
  {
    var script := InvocationScript(TwoInstances(FAULTS), BATCH);
    TwoInstancesScript(FAULTS);
    FaultKeys();
    StopsAtThird(FAULTS, script);
    DeniedMessage();
  }

  /** Only the membership query for `i-002` raises. */
  lemma FaultKeys()
    ensures Call.DescribeInstances(EAST, 0) !in FAULTS
    ensures Call.DescribeAutoScalingInstances("us-east-1", "i-001") !in FAULTS
    ensures Call.DescribeAutoScalingInstances("us-east-1", "i-002") in FAULTS
  {
    DistinctIds();
  }

  /** A run whose first two calls succeed and whose third raises. */
  lemma StopsAtThird(faults: map<Call, Error>, s: seq<Call>)
    requires |s| >= 3 && s[0] !in faults && s[1] !in faults && s[2] in faults
    ensures Issued(faults, s) == s[..3]
    ensures Raised(faults, s) == Some(faults[s[2]])
  {
    assert s[1..][1..] == s[2..];
    assert FirstFault(faults, s[2..]) == 0;
    assert FirstFault(faults, s[1..]) == 1;
  }

  lemma DistinctIds()
    ensures "i-001" != "i-002"
  {
    assert "i-001"[4] != "i-002"[4];
  }

  /** The message names the exception class, then its value. */
  lemma DeniedMessage()
    ensures Message(Error("ClientError", "denied")) == "ClientError denied"
  {
    var m := Message(Error("ClientError", "denied"));
    assert |m| == 18;
    forall i | 0 <= i < 18 ensures m[i] == "ClientError denied"[i] {
    }
  }
}
