/** What one run of the EC2 start/stop handler asks of the provider, as pure
    functions: the action's source state, the calls of the eligibility
    selection and of the transitions, region by region, and the outcome.
    The scheduler's methods are proved to issue `Issued` of these scripts. */
module Plan {
  import opened Envelope
  import opened Cloud

  /** Action names accepted for starting and for stopping instances. */
  const START_ACTIONS: seq<string> := ["enable", "start"]
  const STOP_ACTIONS: seq<string> := ["disable", "stop"]

  /** The exception raised for an action outside both lists. */
  const UNEXPECTED_ACTION: Error := Error("Exception", "Unexpected action.")

  /** The handler's configuration, read once from the environment. */
  datatype Config = Config(action: string, tagKey: string, tagValue: string, regions: seq<Region>)

  /** `value.split(',')`: the pieces between commas, none trimmed, read
      one character at a time. */
  function SplitRegions(s: string): (parts: seq<Region>)
    ensures |parts| >= 1
  {
    if s == [] then [[]]
    else
      var rest := SplitRegions(s[1..]);
      if s[0] == ',' then [[]] + rest else [[s[0]] + rest[0]] + rest[1..]
  }

  /** The configuration as the environment variables give it. */
  function ParseConfig(action: string, tagKey: string, tagValue: string, regions: string): (config: Config)
    ensures config.action == action && config.tagKey == tagKey && config.tagValue == tagValue
    ensures |config.regions| >= 1
  {
    Config(action, tagKey, tagValue, SplitRegions(regions))
  }

  /** The lifecycle state an instance must be in to be acted on. */
  function SourceState(action: string): (r: Result<string>)
    ensures action in START_ACTIONS ==> r == Ok("stopped")
    ensures action in STOP_ACTIONS ==> r == Ok("running")
    ensures r.Err? <==> action !in START_ACTIONS && action !in STOP_ACTIONS
    ensures r.Err? ==> r.error == UNEXPECTED_ACTION
  {
    if action in START_ACTIONS then Ok("stopped")
    else if action in STOP_ACTIONS then Ok("running")
    else Err(UNEXPECTED_ACTION)
  }

  datatype Transition = Start | Stop

  function TransitionCall(t: Transition, region: Region, id: InstanceId): Call {
    match t
    case Start => Call.StartInstances(region, id)
    case Stop => Call.StopInstances(region, id)
  }

  /** One transition call per id, in the order of `ids`. */
  function TransitionCalls(t: Transition, region: Region, ids: seq<InstanceId>): (calls: seq<Call>)
    ensures |calls| == |ids|
  {
    if ids == [] then [] else [TransitionCall(t, region, ids[0])] + TransitionCalls(t, region, ids[1..])
  }

  /** One membership query per id, in the order of `ids`. */
  function MembershipCalls(region: Region, ids: seq<InstanceId>): (calls: seq<Call>)
    ensures |calls| == |ids|
  {
    if ids == [] then [] else [Call.DescribeAutoScalingInstances(region, ids[0])] + MembershipCalls(region, ids[1..])
  }

  /** The ids of pages `k..` of query `q`, concatenated in page order. */
  function DiscoveredFrom(inv: Inventory, q: Query, k: nat): seq<InstanceId>
    decreases |inv.Pages(q)| - k
  {
    if k >= |inv.Pages(q)| then [] else inv.Pages(q)[k] + DiscoveredFrom(inv, q, k + 1)
  }

  /** Every id the directory query finds, in discovery order. */
  function Discovered(inv: Inventory, q: Query): seq<InstanceId> {
    DiscoveredFrom(inv, q, 0)
  }

  /** The ids of `ids` whose membership answer is empty, in order. */
  function Eligible(inv: Inventory, region: Region, ids: seq<InstanceId>): (kept: seq<InstanceId>)
    ensures |kept| <= |ids|
  {
    if ids == [] then []
    else (if inv.GroupCount(region, ids[0]) > 0 then [] else [ids[0]]) + Eligible(inv, region, ids[1..])
  }

  /** Selection calls from page `k` on: fetch the page, then query the
      membership of each of its instances, then the next page. */
  function SelectionFrom(inv: Inventory, q: Query, k: nat): (calls: seq<Call>)
    decreases |inv.Pages(q)| - k
  {
    if k >= |inv.Pages(q)| then []
    else [Call.DescribeInstances(q, k)] + MembershipCalls(q.region, inv.Pages(q)[k]) + SelectionFrom(inv, q, k + 1)
  }

  /** One page of the selection: its fetch, its membership queries, then
      the pages after it. */
  lemma PageStep(inv: Inventory, q: Query, k: nat)
    requires k < |inv.Pages(q)|
    ensures SelectionFrom(inv, q, k) ==
      [Call.DescribeInstances(q, k)] + (MembershipCalls(q.region, inv.Pages(q)[k]) + SelectionFrom(inv, q, k + 1))
    ensures Eligible(inv, q.region, DiscoveredFrom(inv, q, k)) ==
      Eligible(inv, q.region, inv.Pages(q)[k]) + Eligible(inv, q.region, DiscoveredFrom(inv, q, k + 1))
  {
    Regroup([Call.DescribeInstances(q, k)], MembershipCalls(q.region, inv.Pages(q)[k]), SelectionFrom(inv, q, k + 1));
    EligibleAppend(inv, q.region, inv.Pages(q)[k], DiscoveredFrom(inv, q, k + 1));
  }

  /** One instance of a page: its membership query, and whether it is kept. */
  lemma CheckStep(inv: Inventory, region: Region, found: seq<InstanceId>, j: nat)
    requires j < |found|
    ensures MembershipCalls(region, found[j..]) ==
      [Call.DescribeAutoScalingInstances(region, found[j])] + MembershipCalls(region, found[j + 1..])
    ensures Eligible(inv, region, found[..j + 1]) ==
      Eligible(inv, region, found[..j]) + (if inv.GroupCount(region, found[j]) > 0 then [] else [found[j]])
  {
    assert found[j..] == [found[j]] + found[j + 1..];
    assert found[..j + 1] == found[..j] + [found[j]];
    EligibleAppend(inv, region, found[..j], [found[j]]);
  }

  /** Filtering distributes over concatenation. */
  lemma {:induction false} EligibleAppend(inv: Inventory, region: Region, a: seq<InstanceId>, b: seq<InstanceId>)
    ensures Eligible(inv, region, a + b) == Eligible(inv, region, a) + Eligible(inv, region, b)
  {
    if a == [] {
      assert a + b == b;
    } else {
      assert (a + b)[0] == a[0];
      assert (a + b)[1..] == a[1..] + b;
      EligibleAppend(inv, region, a[1..], b);
    }
  }

  /** The calls of `_get_ec2_instance_ids_by_tag` when nothing raises. */
  function SelectionScript(inv: Inventory, q: Query): (calls: seq<Call>)
  {
    SelectionFrom(inv, q, 0)
  }

  /** What `_get_ec2_instance_ids_by_tag` returns or raises. */
  function Selection(inv: Inventory, q: Query): (r: Result<seq<InstanceId>>)
    ensures r.Ok? ==> |r.value| <= |Discovered(inv, q)|
  {
    match Raised(inv.faults, SelectionScript(inv, q))
    case Some(e) => Err(e)
    case None => Ok(Eligible(inv, q.region, Discovered(inv, q)))
  }

  /** The transition calls the action asks for on the eligible ids. */
  function TransitionScript(action: string, region: Region, ids: seq<InstanceId>): (calls: seq<Call>)
    ensures |calls| == if SourceState(action).Ok? then |ids| else 0
  {
    if action in START_ACTIONS then TransitionCalls(Start, region, ids)
    else if action in STOP_ACTIONS then TransitionCalls(Stop, region, ids)
    else []
  }

  /** One region pass when nothing raises: the selection, then the
      transitions if anything is eligible. */
  function RegionScript(inv: Inventory, action: string, q: Query): (calls: seq<Call>)
  {
    var eligible := Eligible(inv, q.region, Discovered(inv, q));
    SelectionScript(inv, q) + (if |eligible| > 0 then TransitionScript(action, q.region, eligible) else [])
  }

  /** The filter a region pass queries with. */
  function RegionQuery(config: Config, state: string, region: Region): Query {
    Query(region, state, config.tagKey, config.tagValue)
  }

  /** The passes of regions `i..`, in configured order. */
  function RegionsFrom(inv: Inventory, config: Config, state: string, i: nat): seq<Call>
    decreases |config.regions| - i
  {
    if i >= |config.regions| then []
    else RegionScript(inv, config.action, RegionQuery(config, state, config.regions[i])) + RegionsFrom(inv, config, state, i + 1)
  }

  /** The calls of `_execute` when nothing raises: none at all for an
      unexpected action, otherwise every region pass in order. */
  function InvocationScript(inv: Inventory, config: Config): seq<Call> {
    match SourceState(config.action)
    case Err(_) => []
    case Ok(state) => RegionsFrom(inv, config, state, 0)
  }

  /** What `_execute` returns or raises: the ok envelope, which
      `process_event` then wraps once more. */
  function Invocation(inv: Inventory, config: Config): (r: Result<Value>)
    ensures SourceState(config.action).Err? ==> r == Err(UNEXPECTED_ACTION)
    ensures r.Ok? ==> r.value == Nested(Response(200, Text("")))
  {
    match SourceState(config.action)
    case Err(e) => Err(e)
    case Ok(_) =>
      match Raised(inv.faults, InvocationScript(inv, config))
      case Some(e) => Err(e)
      case None => Ok(Nested(BuildResponseOk(NoneValue)))
  }

  /** The response of `process_event` for this handler, given what `_debug` raised and the
      formatted traceback of whatever was raised. */
  function HandlerResponse(inv: Inventory, config: Config, debug: Option<Error>, trace: seq<string>): (r: Response)
    ensures r.statusCode == 200 || r.statusCode == 500
  {
    Envelope.ProcessEvent(debug, Invocation(inv, config), trace)
  }
}
