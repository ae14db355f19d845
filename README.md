# EC2 auto start/stop handler, modelled in Dafny

This project models the core of an AWS Lambda handler. On each scheduled
invocation, the handler starts or stops the EC2 instances that carry a
configured tag, in every configured region, and it skips instances that
belong to an AutoScaling group.

- Configuration is `PARAM_ACTION`, `PARAM_RESOURCE_TAG_KEY`,
  `PARAM_RESOURCE_TAG_VALUE` and the comma-separated `PARAM_AWS_REGIONS`.
- The action selects the source state: `enable`/`start` act on `stopped`
  instances, `disable`/`stop` on `running` ones. Any other action raises
  `Exception('Unexpected action.')`.
- For each region, in configured order, the handler:
  - lists the matching instances page by page;
  - asks the AutoScaling API about each instance, one instance per request;
  - keeps, in order, the instances it reports no group for;
  - then, if anything was kept, starts or stops them one instance per request.
- Any exception ends the run. The base class turns the outcome into a
  response: `{statusCode: 200, body: ...}` on success, or
  `{statusCode: 500, body: {httpStatus: 500, message, trace}}`.

Modules:

- `Envelope` (`envelope.dfy`): the base class `LambdaFunctionBase`. It holds the two
  response builders, the error message and `process_event` as pure
  functions.
- `Cloud` (`cloud.dfy`): the provider behind `boto3`. It is a fixed `Inventory`:
  - the pages each filter returns;
  - the instances that belong to an AutoScaling group;
  - the calls that raise, and what they raise.

  A `Provider` object logs every `Call`. Because no exception is caught
  below the handler, a run that would make the calls `s` actually makes
  `Issued(faults, s)` (up to and including the first call that raises) and
  ends with `Raised(faults, s)`. `FailFast` states exactly that.
- `Plan` (`plan.dfy`): pure functions. They give the calls each step of `main.py`
  makes when nothing raises (its *script*), and what it returns.
- `Scheduler` (`scheduler.dfy`): the class `CWScheduledEventManageEC2State` as
  `Ec2StateManager`, with imperative methods and loops. Each method is
  proved to append `Issued` of its script to the provider's log, and to
  return or raise what `Plan` says. The body of the page loop
  (`KeepUnmanaged`), the region loop of `_execute` (`VisitRegions`) and its
  body (`RegionPass`) are methods of their own. They make the same calls in
  the same order as the inline code.
- `Properties` (`properties.dfy`): what the scripts promise, proved for every
  inventory and configuration:
  - which instances are queried, started and stopped, and in which order;
  - queries before transitions;
  - region order;
  - the response;
  - how the region list is split.
- `Scenarios` (`scenarios.dfy`): three concrete invocations over two regions.
- `Strings` (`strings.dfy`): `FirstIndex` and `Join`, used to state the properties
  of messages and region lists.

Two details of the code shape the model:

- On success the response is nested: `_execute` returns
  `_build_response_ok()` (main.py:114), and `process_event` wraps that dict
  again (base.py:65). The response is therefore
  `{statusCode: 200, body: {statusCode: 200, body: ''}}`.
- The code keeps no per-region outcome record. The first exception in any
  region ends the whole invocation, and that exception becomes the 500
  response.

## Model

| member | source | states |
|---|---|---|
| Envelope.BuildResponseOk | lambda_function/src/base.py:27-32 | Status is 200. A truthy body is returned unchanged; `None` or `''` becomes `''`. The body is never `None`. |
| Envelope.Message | lambda_function/src/base.py:38 | The error message is the exception's class name, one space, then its value. |
| Envelope.BuildResponseUncaughtException | lambda_function/src/base.py:34-46 | Status is 500. The body holds `httpStatus` 500, the message of the exception, and the trace (`[]` when there is none). |
| Envelope.ProcessEvent | lambda_function/src/base.py:55-69 | The response is always 200 or 500. It is 200 exactly when neither `_debug` nor `_execute` raised, and then it is the ok envelope of `_execute`'s result. Otherwise it is the 500 envelope of the first exception. |
| Envelope.OkBodyStable | lambda_function/src/base.py:31 | Passing an ok body through `_build_response_ok` again changes nothing. |
| Envelope.Truthy | lambda_function/src/base.py:31 | Defines Python truthiness of a body: `None` and `''` are false, and a non-empty string or any dict built here is true. |
| Envelope.CheckInputs | lambda_function/src/base.py:48-49 | `_check_inputs` never raises. |
| Envelope.MessageRoundTrip | lambda_function/src/base.py:38 | When the class name holds no space, the class name and value can be read back from the message. |
| Cloud.Inventory.Pages | lambda_function/src/main.py:24-39 | The paginator yields at least one page. A filter with known pages yields exactly those pages. |
| Cloud.Inventory.GroupCount | lambda_function/src/main.py:49-53 | The AutoScaling answer is non-empty exactly when the instance belongs to a group. |
| Cloud.FirstFault | lambda_function/src/main.py:95-110 | The position it gives is either past the end or the position of a call that raises. |
| Cloud.FirstFaultIsFirst | lambda_function/src/main.py:95-110 | No call before that position raises. |
| Cloud.FirstFaultAppend | lambda_function/src/main.py:95-110 | The first raising call of `a + b` lies in `a` if `a` has one; otherwise it is `b`'s, shifted by the length of `a`. |
| Cloud.Issued | lambda_function/src/base.py:57-69 | Defines the calls a fail-fast run issues: no exception is caught before `process_event`, so a run stops right after the first call that raises. It never issues more calls than its script; `FailFast` states exactly which. |
| Cloud.Raised | lambda_function/src/base.py:57-69 | Defines what a fail-fast run raises: the exception of its first raising call, which is always one the provider raises. |
| Cloud.FailFast | lambda_function/src/main.py:95-110 | A run makes a prefix of its calls. It makes all of them exactly when none raises. Otherwise its last call is the first one that raises, and the run raises that call's exception. |
| Cloud.IssuedAppend | lambda_function/src/main.py:95-110 | Running `a` then `b`: if `a` completes, `b` runs after it and decides the outcome; if `a` raises, nothing of `b` runs. |
| Cloud.StopAt | lambda_function/src/main.py:69-71 | A loop step that raises ends the run: the log holds the earlier calls and that step's calls up to the raising one, nothing of the calls still to come is issued, and the run raises what that step raised. |
| Cloud.ContinueAfter | lambda_function/src/main.py:69-71 | A loop step that does not raise is issued in full after the earlier calls, the run so far still raises nothing, and the calls still to come follow it. |
| Cloud.Provider.DescribeInstances | lambda_function/src/main.py:24-43 | Logs one page request. It returns that page and whether another page follows, or raises what the inventory says. |
| Cloud.Provider.DescribeAutoScalingInstances | lambda_function/src/main.py:49-53 | Logs one membership request for one instance. It returns the group count, or raises. |
| Cloud.Provider.StopInstances | lambda_function/src/main.py:71 | Logs one stop request for one instance, and returns what it raised. |
| Cloud.Provider.StartInstances | lambda_function/src/main.py:81 | Logs one start request for one instance, and returns what it raised. |
| Plan.SourceState | lambda_function/src/main.py:88-93 | `enable`/`start` map to `stopped`, and `disable`/`stop` map to `running`. Every other action, and only those, raises `Exception('Unexpected action.')`. |
| Plan.SplitRegions | lambda_function/src/main.py:16 | Splitting the region list always gives at least one piece. |
| Plan.ParseConfig | lambda_function/src/main.py:13-16 | The action and the tag key and value are read unchanged. The region list always has at least one entry, which may be empty. |
| Plan.PageStep | lambda_function/src/main.py:43-45 | The selection fetches page `k`, then queries each of its instances, then moves on to the next page. The eligible instances of all pages are those of page `k` followed by those of the later pages. |
| Plan.CheckStep | lambda_function/src/main.py:45-60 | One membership query per instance. An instance is appended to the result exactly when its answer is empty. |
| Plan.Eligible | lambda_function/src/main.py:49-60 | The eligibility filter: it keeps, in order, the ids whose AutoScaling answer is empty, and never more ids than it is given. `EligibleMembers` and `EligibleSubsequence` state which ids and in what order. |
| Plan.EligibleAppend | lambda_function/src/main.py:42-62 | Filtering the concatenation of two lists gives the concatenation of their filtered lists. |
| Plan.DiscoveredFrom | lambda_function/src/main.py:43-46 | Defines the ids of pages `k` onward, concatenated in page order. `SelectionChecks` ties them to the membership queries. |
| Plan.Discovered | lambda_function/src/main.py:43-46 | Defines every id the paginated query finds, in discovery order. |
| Plan.MembershipCalls | lambda_function/src/main.py:45-53 | One AutoScaling membership query per id, so exactly as many queries as ids. |
| Plan.TransitionCalls | lambda_function/src/main.py:69-81 | One start or stop request per id, so exactly as many requests as ids. |
| Plan.SelectionFrom | lambda_function/src/main.py:43-53 | Defines the selection's calls from page `k` on: the page request, the membership queries of its instances, then the later pages. `PageStep`, `SelectionOpens` and `SelectionShape` state its shape. |
| Plan.SelectionScript | lambda_function/src/main.py:18-62 | Defines the calls of `_get_ec2_instance_ids_by_tag` when nothing raises: the selection from page 0. |
| Plan.Selection | lambda_function/src/main.py:18-62 | What `_get_ec2_instance_ids_by_tag` returns or raises. When it returns, it never returns more ids than were found. |
| Plan.TransitionScript | lambda_function/src/main.py:106-110 | For a start action, one start request per id; for a stop action, one stop request per id; for any other action, nothing. So there are as many calls as ids exactly when the action is valid. |
| Plan.RegionScript | lambda_function/src/main.py:99-110 | Defines one region pass when nothing raises: the selection, then the transitions only if some instance is eligible. `RegionParts`, `RegionPassCalls` and `RegionPassShape` state what it does. |
| Plan.RegionsFrom | lambda_function/src/main.py:95-110 | Defines the passes of regions `i` onward, in configured order. `RegionsFromPasses` states the order. |
| Plan.InvocationScript | lambda_function/src/main.py:88-110 | Defines the calls of `_execute` when nothing raises: none for an unexpected action, otherwise every region pass in order. `InvocationPasses` states this. |
| Plan.Invocation | lambda_function/src/main.py:84-114 | An unexpected action raises `Exception('Unexpected action.')`. A result that does not raise is always the ok envelope `{statusCode: 200, body: ''}`. |
| Plan.HandlerResponse | lambda_function/src/base.py:55-69 | The response of `process_event` for this handler is always a 200 or a 500. `HandlerOutcome` states which. |
| Plan.RegionQuery | lambda_function/src/main.py:24-38 | Defines the `describe_instances` filter of one region pass: the region, the source state, and the configured tag key and value, as passed at main.py:100. |
| Scheduler.Ec2StateManager.constructor | lambda_function/src/main.py:13-16 | The handler holds the configuration it was given, and the provider. |
| Scheduler.Ec2StateManager.GetEc2InstanceIdsByTag | lambda_function/src/main.py:18-62 | Makes exactly the fail-fast run of the selection script: page after page, one membership query per instance found. If none of them raised, it returns the instances without a group, in discovery order. Otherwise it raises the first exception. |
| Scheduler.Ec2StateManager.KeepUnmanaged | lambda_function/src/main.py:44-60 | For one page: one membership query per instance, in order. The result is the filtered page, or the first exception. |
| Scheduler.Ec2StateManager.StopEc2Instances | lambda_function/src/main.py:64-72 | One stop request per id, in order. It stops at, and reports, the first one that raises. |
| Scheduler.Ec2StateManager.StartEc2Instances | lambda_function/src/main.py:74-82 | One start request per id, in order. It stops at, and reports, the first one that raises. |
| Scheduler.Ec2StateManager.RegionPass | lambda_function/src/main.py:99-110 | For one region: the selection, then starts or stops as the action says, only if something was selected. It makes exactly the fail-fast run of that region's script. |
| Scheduler.Ec2StateManager.Execute | lambda_function/src/main.py:84-114 | An unexpected action raises before any call. Otherwise the regions run in configured order. The method makes exactly the fail-fast run of the invocation script, and returns the ok envelope or raises the first exception. |
| Scheduler.Ec2StateManager.VisitRegions | lambda_function/src/main.py:95-110 | The region loop: it makes exactly the fail-fast run of the passes of all configured regions, in configured order, and reports the first exception, if any. |
| Scheduler.Ec2StateManager.ProcessEvent | lambda_function/src/base.py:55-69 | The handler's response for every outcome. When `_debug` raised, no provider call is made. |
| Properties.EligibleMembers | lambda_function/src/main.py:56-58 | An instance is kept exactly when it was found and belongs to no AutoScaling group. |
| Properties.EligibleSubsequence | lambda_function/src/main.py:42-62 | The kept instances keep the order in which they were found. |
| Properties.MembershipSubjects | lambda_function/src/main.py:45-53 | There is exactly one membership query per instance, in order, about that instance. None of them is a page request. |
| Properties.TransitionSubjects | lambda_function/src/main.py:69-81 | There is exactly one start (or one stop) request per id, in order. No request of the other kind is made, and none of them is a page request. |
| Properties.MembershipScope | lambda_function/src/main.py:45-53 | Every membership query concerns the region, and none of them starts or stops anything. |
| Properties.TransitionScope | lambda_function/src/main.py:69-81 | Every start or stop request concerns the region, and each of them starts or stops an instance. |
| Properties.SelectionChecks | lambda_function/src/main.py:43-53 | The selection queries the membership of every instance found, once each, in discovery order. |
| Properties.SelectionShape | lambda_function/src/main.py:24-43 | Of the page requests of a selection, only the one for page 0 opens a region pass, so a selection opens exactly one pass, for its region. |
| Properties.SelectionOpens | lambda_function/src/main.py:24-43 | A selection from a page that exists opens with the request for that page. |
| Properties.SelectionScope | lambda_function/src/main.py:18-62 | The selection starts and stops nothing, and every call of it concerns its region. |
| Properties.RegionParts | lambda_function/src/main.py:105-110 | A region pass is its selection followed by one transition request per eligible instance. |
| Properties.RegionPassCalls | lambda_function/src/main.py:99-110 | A region pass queries exactly the instances found. It starts exactly the eligible instances for a start action, stops exactly them for a stop action, and makes no transition of the other kind. |
| Properties.RegionOpens | lambda_function/src/main.py:100 | Each region pass opens with the request for the first page of its own query, and no other call of it asks for a first page. |
| Properties.RegionPassShape | lambda_function/src/main.py:99-110 | Every call of a region pass concerns its region, and all its queries come before its transitions. |
| Properties.NoTransitionWhenNoneEligible | lambda_function/src/main.py:106 | A region pass starts or stops something exactly when some instance is eligible. |
| Properties.IssuedRegionPass | lambda_function/src/main.py:99-110 | The calls a region pass actually makes, up to and including one that raises, all concern its region, make no start or stop before a query, and make no start or stop at all when no instance is eligible. |
| Properties.RegionsFromPasses | lambda_function/src/main.py:95 | The regions are visited in configured order, each as many times as it is listed. |
| Properties.InvocationPasses | lambda_function/src/main.py:88-95 | A valid action makes one pass per configured region, in order. An unexpected action makes no call and raises `Exception('Unexpected action.')`. |
| Properties.IssuedPasses | lambda_function/src/main.py:95 | The regions an invocation actually visits are a prefix of the configured regions, in configured order. |
| Properties.HandlerOutcome | lambda_function/src/base.py:55-69 | The response is 200 exactly when `_debug` raised nothing, the action is valid, and no call of the invocation raises. The 200 response is `{statusCode: 200, body: {statusCode: 200, body: ''}}`. Any other response is a 500 with error details. |
| Properties.SplitCommaFree | lambda_function/src/main.py:16 | No piece of the split region list contains a comma. |
| Properties.SplitJoin | lambda_function/src/main.py:16 | Joining the pieces with commas gives back the original string. |
| Properties.JoinSplit | lambda_function/src/main.py:16 | Splitting a comma-join of comma-free region names gives back exactly those names. |
| Scenarios.BatchParsed | lambda_function/src/main.py:13-16 | `start`, `env`, `batch` and `us-east-1,us-west-2` give a configuration with the two regions. |
| Scenarios.TwoInstancesScript | lambda_function/src/main.py:95-110 | `i-001` is managed and `i-002` is not. Both are queried, only `i-002` is started, and us-west-2 gets a single page request. |
| Scenarios.StartsOnlyUnmanaged | lambda_function/src/main.py:95-114 | Without faults every call of the script is made, so only `i-002` is started, and the response is the nested 200 envelope. |
| Scenarios.NothingFound | lambda_function/src/main.py:106 | With nothing found, only the two page requests are made and all of them are issued, nothing is started, and the response is the nested 200 envelope with an empty body. |
| Scenarios.MembershipQueryRaises | lambda_function/src/base.py:66-69 | When the membership query for `i-002` raises `ClientError`, the run stops there and the response is `500` with message `ClientError denied`. |

## Left out

- Building the boto3 clients, and the server-side filter of `describe_instances`: a filter is a `Query` value, and the instances it matches are the inventory's pages for it.
- Reservations inside a page are flattened. No call is made per reservation, so the order of the instances is unchanged.
- The AutoScaling response beyond the length of its `AutoScalingInstances` list.
- Reading `os.environ`: the configuration is a `Config` value, and `ParseConfig` builds it from the four strings. A missing variable fails at import time, before any handler code runs, so it is not modelled.
- `_debug`: only whether it raised is modelled, as the `debug` parameter. Its logging is not modelled.
- Logging throughout.
- Formatting the traceback (`sys.exc_info`, `traceback.format_exception`): the trace is a parameter.
- `lambda_handler`, which constructs the class and calls `process_event`. The construction itself can raise; see the `Plan.HandlerResponse` line below.
- Plan.HandlerResponse: constructing the handler sets the log level from `LOGLEVEL` (base.py:14). An unknown level name raises `ValueError` outside the catch-all of `process_event` (base.py:57), so `lambda_handler` itself can raise instead of returning a response. This is not modelled: the 200-or-500 contract is about `process_event`.
- The base class's default `_execute`: it is overridden.
- What starting or stopping does to an instance. The inventory does not change during a run. So a region listed twice sees the same instances twice, and whether a second run changes anything is not modelled.
- Only exceptions raised by provider calls, or by the action check, are modelled. Python-level failures such as a missing key in a response are not.
