/** What the handler promises about the calls it makes and the responses it
    gives, stated over the scripts of `Plan` and proved for every inventory
    and configuration. */
module Properties {
  import opened Strings
  import opened Envelope
  import opened Cloud
  import opened Plan

  /** The three kinds of per-instance call. */
  datatype Kind = Membership | Starting | Stopping

  /** The instance a call is about, if it is a per-instance call of kind `k`. */
  function Subject(k: Kind, c: Call): seq<InstanceId> {
    match c
    case DescribeInstances(_, _) => []
    case DescribeAutoScalingInstances(_, id) => if k == Membership then [id] else []
    case StartInstances(_, id) => if k == Starting then [id] else []
    case StopInstances(_, id) => if k == Stopping then [id] else []
  }

  /** The instances that the calls of kind `k` in `calls` are about, in call order. */
  function Subjects(k: Kind, calls: seq<Call>): seq<InstanceId> {
    if calls == [] then [] else Subject(k, calls[0]) + Subjects(k, calls[1..])
  }

  /** The region of every first-page directory query in `calls`, in call
      order: one per region pass. */
  function Passes(calls: seq<Call>): seq<Region> {
    if calls == [] then []
    else (if calls[0].DescribeInstances? && calls[0].page == 0 then [calls[0].query.region] else []) + Passes(calls[1..])
  }

  /** `a` is obtained from `b` by deleting elements. */
  predicate Subsequence<T(==)>(a: seq<T>, b: seq<T>) {
    if a == [] then true
    else if b == [] then false
    else if a[0] == b[0] then Subsequence(a[1..], b[1..])
    else Subsequence(a, b[1..])
  }

  /** Every call of `s` is about `region`. */
  predicate InRegion(s: seq<Call>, region: Region) {
    forall i :: 0 <= i < |s| ==> s[i].RegionOf() == region
  }

  /** No call of `s` starts or stops an instance. */
  predicate NoTransitions(s: seq<Call>) {
    forall i :: 0 <= i < |s| ==> !s[i].IsTransition()
  }

  /** Every call of `s` starts or stops an instance. */
  predicate AllTransitions(s: seq<Call>) {
    forall i :: 0 <= i < |s| ==> s[i].IsTransition()
  }

  /** No transition call of `s` comes before a call that is not one. */
  predicate QueriesFirst(s: seq<Call>) {
    forall i, j :: 0 <= i < j < |s| && s[i].IsTransition() ==> s[j].IsTransition()
  }

  // ---------------------------------------------------------------------
  // Eligibility

  /** An id is eligible exactly when it was found and has no AutoScaling
      group. */
  lemma {:induction false} EligibleMembers(inv: Inventory, region: Region, ids: seq<InstanceId>, x: InstanceId)
    ensures x in Eligible(inv, region, ids) <==> x in ids && (region, x) !in inv.managed
  {
    if ids != [] {
      EligibleMembers(inv, region, ids[1..], x);
      assert ids == [ids[0]] + ids[1..];
    }
  }

  /** The eligible ids keep the order they were found in. */
  lemma {:induction false} EligibleSubsequence(inv: Inventory, region: Region, ids: seq<InstanceId>)
    ensures Subsequence(Eligible(inv, region, ids), ids)
  {
    if ids != [] {
      EligibleSubsequence(inv, region, ids[1..]);
      var e := Eligible(inv, region, ids);
      var tail := Eligible(inv, region, ids[1..]);
      if inv.GroupCount(region, ids[0]) > 0 {
        assert e == tail;
        Extend(tail, ids[0], ids[1..]);
        assert [ids[0]] + ids[1..] == ids;
      } else {
        assert e == [ids[0]] + tail;
        assert e[1..] == tail;
      }
    }
  }

  /** Putting an element in front of `b` keeps a subsequence of `b` one. */
  lemma {:induction false} Extend<T>(a: seq<T>, x: T, b: seq<T>)
    requires Subsequence(a, b)
    ensures Subsequence(a, [x] + b)
    decreases |b|, 1
  {
    assert ([x] + b)[1..] == b;
    if a != [] && a[0] == x {
      SubsequenceTail(a, b);
    }
  }

  /** A non-empty subsequence of `b` loses its head and stays one. */
  lemma {:induction false} SubsequenceTail<T>(a: seq<T>, b: seq<T>)
    requires a != [] && Subsequence(a, b)
    ensures Subsequence(a[1..], b)
    decreases |b|, 0
  {
    assert b == [b[0]] + b[1..];
    if a[0] != b[0] {
      SubsequenceTail(a, b[1..]);
    }
    Extend(a[1..], b[0], b[1..]);
  }

  // ---------------------------------------------------------------------
  // Projections of the scripts

  lemma {:induction false} SubjectsAppend(k: Kind, a: seq<Call>, b: seq<Call>)
    ensures Subjects(k, a + b) == Subjects(k, a) + Subjects(k, b)
  {
    if a == [] {
      assert a + b == b;
    } else {
      assert (a + b)[0] == a[0];
      assert (a + b)[1..] == a[1..] + b;
      SubjectsAppend(k, a[1..], b);
    }
  }

  /** A single call opens a pass exactly when it asks for a first page. */
  lemma PassesOne(c: Call)
    ensures Passes([c]) == if c.DescribeInstances? && c.page == 0 then [c.query.region] else []
  {
    assert [c][1..] == [];
  }

  /** A page request followed by calls that open no pass opens a pass
      exactly when it asks for the first page. */
  lemma PagePasses(fetch: Call, checks: seq<Call>, later: seq<Call>)
    requires Passes(checks) == []
    ensures Passes([fetch] + checks + later) ==
      (if fetch.DescribeInstances? && fetch.page == 0 then [fetch.query.region] else []) + Passes(later)
  {
    PassesOne(fetch);
    PassesAppend([fetch], checks);
    PassesAppend([fetch] + checks, later);
  }

  lemma {:induction false} PassesAppend(a: seq<Call>, b: seq<Call>)
    ensures Passes(a + b) == Passes(a) + Passes(b)
  {
    if a == [] {
      assert a + b == b;
    } else {
      assert (a + b)[0] == a[0];
      assert (a + b)[1..] == a[1..] + b;
      PassesAppend(a[1..], b);
    }
  }

  lemma InRegionAppend(a: seq<Call>, b: seq<Call>, region: Region)
    requires InRegion(a, region) && InRegion(b, region)
    ensures InRegion(a + b, region)
  {
  }

  lemma NoTransitionsAppend(a: seq<Call>, b: seq<Call>)
    requires NoTransitions(a) && NoTransitions(b)
    ensures NoTransitions(a + b)
  {
  }

  /** A run of queries followed by a run of transitions has its queries first. */
  lemma QueriesFirstAppend(a: seq<Call>, b: seq<Call>)
    requires NoTransitions(a) && AllTransitions(b)
    ensures QueriesFirst(a + b)
  {
    forall i, j | 0 <= i < j < |a + b| && (a + b)[i].IsTransition()
      ensures (a + b)[j].IsTransition()
    {
      assert i >= |a|;
      assert (a + b)[j] == b[j - |a|];
    }
  }

  /** Calls that start or stop nothing are about no started or stopped instance. */
  lemma {:induction false} NoTransitionSubjects(s: seq<Call>)
    requires NoTransitions(s)
    ensures Subjects(Starting, s) == [] && Subjects(Stopping, s) == []
  {
    if s != [] {
      assert NoTransitions(s[1..]) by {
        forall i | 0 <= i < |s[1..]| ensures !s[1..][i].IsTransition() {
          assert s[1..][i] == s[i + 1];
        }
      }
      NoTransitionSubjects(s[1..]);
    }
  }

  /** One membership query per id, about that id, in order, and no page
      request. */
  lemma {:induction false} MembershipSubjects(k: Kind, region: Region, ids: seq<InstanceId>)
    ensures Subjects(k, MembershipCalls(region, ids)) == if k == Membership then ids else []
    ensures Passes(MembershipCalls(region, ids)) == []
  {
    if ids != [] {
      MembershipSubjects(k, region, ids[1..]);
      assert ids == [ids[0]] + ids[1..];
    }
  }

  /** The membership queries of a region are all about that region, and
      none of them starts or stops anything. */
  lemma {:induction false} MembershipScope(region: Region, ids: seq<InstanceId>)
    ensures InRegion(MembershipCalls(region, ids), region)
    ensures NoTransitions(MembershipCalls(region, ids))
  {
    if ids != [] {
      MembershipScope(region, ids[1..]);
    }
  }

  /** One transition call per id, of the kind asked for, in order, and no
      page request. */
  lemma {:induction false} TransitionSubjects(k: Kind, t: Transition, region: Region, ids: seq<InstanceId>)
    ensures Subjects(k, TransitionCalls(t, region, ids)) ==
      if (k == Starting && t == Start) || (k == Stopping && t == Stop) then ids else []
    ensures Passes(TransitionCalls(t, region, ids)) == []
  {
    if ids != [] {
      TransitionSubjects(k, t, region, ids[1..]);
      assert ids == [ids[0]] + ids[1..];
    }
  }

  /** The transition calls of a region are all about that region, and all
      of them start or stop an instance. */
  lemma {:induction false} TransitionScope(t: Transition, region: Region, ids: seq<InstanceId>)
    ensures InRegion(TransitionCalls(t, region, ids), region)
    ensures AllTransitions(TransitionCalls(t, region, ids))
  {
    if ids != [] {
      TransitionScope(t, region, ids[1..]);
    }
  }

  /** The selection queries the membership of every instance found, once,
      in discovery order. */
  lemma {:induction false} SelectionChecks(inv: Inventory, q: Query, p: nat)
    ensures Subjects(Membership, SelectionFrom(inv, q, p)) == DiscoveredFrom(inv, q, p)
    decreases |inv.Pages(q)| - p
  {
    if p < |inv.Pages(q)| {
      var fetch := [Call.DescribeInstances(q, p)];
      var checks := MembershipCalls(q.region, inv.Pages(q)[p]);
      var later := SelectionFrom(inv, q, p + 1);
      assert SelectionFrom(inv, q, p) == fetch + checks + later;
      SelectionChecks(inv, q, p + 1);
      MembershipSubjects(Membership, q.region, inv.Pages(q)[p]);
      SubjectsAppend(Membership, fetch + checks, later);
      SubjectsAppend(Membership, fetch, checks);
      assert Subjects(Membership, fetch) == [];
      assert Subjects(Membership, fetch + checks) == inv.Pages(q)[p];
      assert DiscoveredFrom(inv, q, p) == inv.Pages(q)[p] + DiscoveredFrom(inv, q, p + 1);
    }
  }

  /** Of the selection's page requests, only the one for page 0 opens a
      region pass. */
  lemma {:induction false} SelectionShape(inv: Inventory, q: Query, p: nat)
    ensures Passes(SelectionFrom(inv, q, p)) == if p == 0 then [q.region] else []
    decreases |inv.Pages(q)| - p
  {
    if p < |inv.Pages(q)| {
      var fetch := [Call.DescribeInstances(q, p)];
      var checks := MembershipCalls(q.region, inv.Pages(q)[p]);
      var later := SelectionFrom(inv, q, p + 1);
      assert SelectionFrom(inv, q, p) == fetch + checks + later;
      SelectionShape(inv, q, p + 1);
      MembershipSubjects(Membership, q.region, inv.Pages(q)[p]);
      PagePasses(Call.DescribeInstances(q, p), checks, later);
    } else {
      assert p != 0 && SelectionFrom(inv, q, p) == [];
    }
  }

  /** A selection from a page that exists opens with the request for it. */
  lemma SelectionOpens(inv: Inventory, q: Query, p: nat)
    requires p < |inv.Pages(q)|
    ensures |SelectionFrom(inv, q, p)| >= 1 && SelectionFrom(inv, q, p)[0] == Call.DescribeInstances(q, p)
  {
    var s := SelectionFrom(inv, q, p);
    assert s == [Call.DescribeInstances(q, p)] + (MembershipCalls(q.region, inv.Pages(q)[p]) + SelectionFrom(inv, q, p + 1));
  }

  /** The selection starts and stops nothing, and all of it is about the
      query's region. */
  lemma {:induction false} SelectionScope(inv: Inventory, q: Query, p: nat)
    ensures InRegion(SelectionFrom(inv, q, p), q.region)
    ensures NoTransitions(SelectionFrom(inv, q, p))
    decreases |inv.Pages(q)| - p
  {
    if p < |inv.Pages(q)| {
      var fetch := [Call.DescribeInstances(q, p)];
      var checks := MembershipCalls(q.region, inv.Pages(q)[p]);
      var later := SelectionFrom(inv, q, p + 1);
      assert SelectionFrom(inv, q, p) == fetch + checks + later;
      SelectionScope(inv, q, p + 1);
      MembershipScope(q.region, inv.Pages(q)[p]);
      InRegionAppend(fetch, checks, q.region);
      InRegionAppend(fetch + checks, later, q.region);
      NoTransitionsAppend(fetch, checks);
      NoTransitionsAppend(fetch + checks, later);
    }
  }

  // ---------------------------------------------------------------------
  // One region pass

  /** The transition a valid action asks for. */
  function TransitionOf(action: string): Transition {
    if action in START_ACTIONS then Start else Stop
  }

  /** A region pass of a valid action is its selection followed by one
      transition call per eligible instance (none when nothing is eligible). */
  lemma RegionParts(inv: Inventory, action: string, q: Query)
    requires SourceState(action).Ok?
    ensures RegionScript(inv, action, q) ==
      SelectionScript(inv, q) + TransitionCalls(TransitionOf(action), q.region, Eligible(inv, q.region, Discovered(inv, q)))
  {
    var eligible := Eligible(inv, q.region, Discovered(inv, q));
    if eligible == [] {
      assert TransitionCalls(TransitionOf(action), q.region, eligible) == [];
    }
  }

  /** A region pass of a valid action queries the membership of exactly the
      instances found, starts exactly the eligible ones when the action
      starts, and stops exactly the eligible ones when it stops. */
  lemma RegionPassCalls(inv: Inventory, action: string, q: Query)
    requires SourceState(action).Ok?
    ensures Subjects(Membership, RegionScript(inv, action, q)) == Discovered(inv, q)
    ensures Subjects(Starting, RegionScript(inv, action, q)) ==
      if action in START_ACTIONS then Eligible(inv, q.region, Discovered(inv, q)) else []
    ensures Subjects(Stopping, RegionScript(inv, action, q)) ==
      if action in STOP_ACTIONS then Eligible(inv, q.region, Discovered(inv, q)) else []
  {
    var eligible := Eligible(inv, q.region, Discovered(inv, q));
    var selection := SelectionScript(inv, q);
    var t := TransitionOf(action);
    var transitions := TransitionCalls(t, q.region, eligible);
    RegionParts(inv, action, q);
    SelectionChecks(inv, q, 0);
    SelectionScope(inv, q, 0);
    NoTransitionSubjects(selection);
    TransitionSubjects(Membership, t, q.region, eligible);
    TransitionSubjects(Starting, t, q.region, eligible);
    TransitionSubjects(Stopping, t, q.region, eligible);
    SubjectsAppend(Membership, selection, transitions);
    SubjectsAppend(Starting, selection, transitions);
    SubjectsAppend(Stopping, selection, transitions);
  }

  /** A region pass asks for the first page of its query exactly once. */
  lemma RegionPasses(inv: Inventory, action: string, q: Query)
    requires SourceState(action).Ok?
    ensures Passes(RegionScript(inv, action, q)) == [q.region]
  {
    var eligible := Eligible(inv, q.region, Discovered(inv, q));
    var t := TransitionOf(action);
    RegionParts(inv, action, q);
    SelectionShape(inv, q, 0);
    TransitionSubjects(Membership, t, q.region, eligible);
    PassesAppend(SelectionScript(inv, q), TransitionCalls(t, q.region, eligible));
  }

  /** A region pass opens with the request for the first page of its
      query, and no other call of it asks for a first page. */
  lemma RegionOpens(inv: Inventory, action: string, q: Query)
    requires SourceState(action).Ok?
    ensures |RegionScript(inv, action, q)| >= 1 && RegionScript(inv, action, q)[0] == Call.DescribeInstances(q, 0)
    ensures Passes(RegionScript(inv, action, q)) == [q.region]
  {
    RegionPasses(inv, action, q);
    SelectionOpens(inv, q, 0);
    var selection := SelectionScript(inv, q);
    var eligible := Eligible(inv, q.region, Discovered(inv, q));
    var transitions := if |eligible| > 0 then TransitionScript(action, q.region, eligible) else [];
    assert RegionScript(inv, action, q) == selection + transitions;
    assert RegionScript(inv, action, q)[0] == selection[0];
  }

  /** Every call of a region pass is about its region, and all its queries
      come before its transitions. */
  lemma RegionPassShape(inv: Inventory, action: string, q: Query)
    requires SourceState(action).Ok?
    ensures InRegion(RegionScript(inv, action, q), q.region)
    ensures QueriesFirst(RegionScript(inv, action, q))
  {
    var eligible := Eligible(inv, q.region, Discovered(inv, q));
    var t := TransitionOf(action);
    RegionParts(inv, action, q);
    SelectionScope(inv, q, 0);
    TransitionScope(t, q.region, eligible);
    InRegionAppend(SelectionScript(inv, q), TransitionCalls(t, q.region, eligible), q.region);
    QueriesFirstAppend(SelectionScript(inv, q), TransitionCalls(t, q.region, eligible));
  }

  /** A region pass starts or stops something exactly when some instance is
      eligible. */
  lemma NoTransitionWhenNoneEligible(inv: Inventory, action: string, q: Query)
    requires SourceState(action).Ok?
    ensures NoTransitions(RegionScript(inv, action, q)) <==> Eligible(inv, q.region, Discovered(inv, q)) == []
  {
    var eligible := Eligible(inv, q.region, Discovered(inv, q));
    var selection := SelectionScript(inv, q);
    var transitions := TransitionCalls(TransitionOf(action), q.region, eligible);
    RegionParts(inv, action, q);
    SelectionScope(inv, q, 0);
    TransitionScope(TransitionOf(action), q.region, eligible);
    if eligible == [] {
      assert transitions == [];
      assert RegionScript(inv, action, q) == selection + [] == selection;
    } else {
      assert transitions[0].IsTransition();
      assert RegionScript(inv, action, q)[|selection|] == transitions[0];
    }
  }

  // ---------------------------------------------------------------------
  // The whole invocation

  /** The passes of regions `i..` visit them in configured order. */
  lemma {:induction false} RegionsFromPasses(inv: Inventory, config: Config, state: string, i: nat)
    requires SourceState(config.action).Ok? && i <= |config.regions|
    ensures Passes(RegionsFrom(inv, config, state, i)) == config.regions[i..]
    decreases |config.regions| - i
  {
    if i < |config.regions| {
      RegionStep(inv, config, state, i);
      RegionsFromPasses(inv, config, state, i + 1);
      SliceHead(config.regions, i);
    } else {
      assert RegionsFrom(inv, config, state, i) == [];
    }
  }

  /** The pass of region `i` opens exactly one pass, for that region,
      before the passes of the regions after it. */
  lemma RegionStep(inv: Inventory, config: Config, state: string, i: nat)
    requires SourceState(config.action).Ok? && i < |config.regions|
    ensures Passes(RegionsFrom(inv, config, state, i)) == [config.regions[i]] + Passes(RegionsFrom(inv, config, state, i + 1))
  {
    var q := RegionQuery(config, state, config.regions[i]);
    var pass := RegionScript(inv, config.action, q);
    RegionPasses(inv, config.action, q);
    PassesAppend(pass, RegionsFrom(inv, config, state, i + 1));
  }

  /** A non-empty suffix is its first element followed by the rest. */
  lemma SliceHead<T>(s: seq<T>, i: nat)
    requires i < |s|
    ensures s[i..] == [s[i]] + s[i + 1..]
  {
  }

  /** An invocation with a valid action makes one pass per configured region,
      in configured order; with any other action it makes no call at all. */
  lemma InvocationPasses(inv: Inventory, config: Config)
    ensures SourceState(config.action).Ok? ==> Passes(InvocationScript(inv, config)) == config.regions
    ensures SourceState(config.action).Err? ==>
      InvocationScript(inv, config) == [] && Invocation(inv, config) == Err(UNEXPECTED_ACTION)
  {
    if SourceState(config.action).Ok? {
      RegionsFromPasses(inv, config, SourceState(config.action).value, 0);
      assert config.regions[0..] == config.regions;
    }
  }

  // ---------------------------------------------------------------------
  // The calls actually made

  /** What holds of every call of a script holds of every call of a prefix
      of it, and in particular of the calls a fail-fast run issues. */
  lemma PrefixScope(s: seq<Call>, t: seq<Call>, region: Region)
    requires t <= s
    ensures InRegion(s, region) ==> InRegion(t, region)
    ensures NoTransitions(s) ==> NoTransitions(t)
    ensures QueriesFirst(s) ==> QueriesFirst(t)
  {
    assert forall i :: 0 <= i < |t| ==> t[i] == s[i];
  }

  /** The passes opened by a prefix of a script are a prefix of the passes
      of the script. */
  lemma {:induction false} PassesPrefix(s: seq<Call>, t: seq<Call>)
    requires t <= s
    ensures Passes(t) <= Passes(s)
  {
    if t != [] {
      assert t[0] == s[0] && t[1..] <= s[1..];
      PassesPrefix(s[1..], t[1..]);
    }
  }

  /** The calls a region pass actually makes, up to and including the first
      one that raises, all concern its region, start or stop nothing before
      a query, and start or stop nothing at all when no instance is
      eligible. */
  lemma IssuedRegionPass(inv: Inventory, action: string, q: Query)
    requires SourceState(action).Ok?
    ensures InRegion(Issued(inv.faults, RegionScript(inv, action, q)), q.region)
    ensures QueriesFirst(Issued(inv.faults, RegionScript(inv, action, q)))
    ensures Eligible(inv, q.region, Discovered(inv, q)) == [] ==>
      NoTransitions(Issued(inv.faults, RegionScript(inv, action, q)))
  {
    var s := RegionScript(inv, action, q);
    FailFast(inv.faults, s);
    RegionPassShape(inv, action, q);
    NoTransitionWhenNoneEligible(inv, action, q);
    PrefixScope(s, Issued(inv.faults, s), q.region);
  }

  /** The regions an invocation actually visits are the configured ones, in
      configured order, up to the one where a call raised. */
  lemma IssuedPasses(inv: Inventory, config: Config)
    ensures Passes(Issued(inv.faults, InvocationScript(inv, config))) <= config.regions
  {
    var s := InvocationScript(inv, config);
    FailFast(inv.faults, s);
    InvocationPasses(inv, config);
    PassesPrefix(s, Issued(inv.faults, s));
  }

  /** The response of the handler: 200 exactly when `_debug` raised nothing,
      the action is valid and no call of the invocation raises, and then
      the body is the ok envelope of `_execute` wrapped in a second ok
      envelope; otherwise a 500 whose message names what was raised first. */
  lemma HandlerOutcome(inv: Inventory, config: Config, debug: Option<Error>, trace: seq<string>)
    ensures HandlerResponse(inv, config, debug, trace).statusCode == 200 <==>
      debug.None? && SourceState(config.action).Ok? &&
      forall i :: 0 <= i < |InvocationScript(inv, config)| ==> InvocationScript(inv, config)[i] !in inv.faults
    ensures HandlerResponse(inv, config, debug, trace).statusCode == 200 ==>
      HandlerResponse(inv, config, debug, trace) == Response(200, Nested(Response(200, Text(""))))
    ensures HandlerResponse(inv, config, debug, trace).statusCode != 200 ==>
      HandlerResponse(inv, config, debug, trace).statusCode == 500 &&
      HandlerResponse(inv, config, debug, trace).body.ErrorDetails?
  {
    FailFast(inv.faults, InvocationScript(inv, config));
  }

  // ---------------------------------------------------------------------
  // The region list

  /** A join of two or more parts is the first, a separator, then the rest joined. */
  lemma JoinCons(first: string, rest: seq<string>)
    requires |rest| >= 1
    ensures Join([first] + rest, ',') == first + [','] + Join(rest, ',')
  {
    assert ([first] + rest)[1..] == rest;
  }

  /** Putting a character in front of the first part puts it in front of the join. */
  lemma JoinPrepend(x: char, parts: seq<string>)
    requires |parts| >= 1
    ensures Join([[x] + parts[0]] + parts[1..], ',') == [x] + Join(parts, ',')
  {
    var first := [x] + parts[0];
    var q := [first] + parts[1..];
    assert |q| == |parts| && q[0] == first && q[1..] == parts[1..];
    if |parts| > 1 {
      var joined := Join(parts[1..], ',');
      assert Join(q, ',') == first + [','] + joined;
      assert Join(parts, ',') == parts[0] + [','] + joined;
      Regroup([x], parts[0] + [','], joined);
      Regroup([x], parts[0], [',']);
    }
  }

  /** No piece of a split holds a comma. */
  lemma {:induction false} SplitCommaFree(s: string)
    ensures forall i :: 0 <= i < |SplitRegions(s)| ==> ',' !in SplitRegions(s)[i]
  {
    if s != [] {
      var rest := SplitRegions(s[1..]);
      SplitCommaFree(s[1..]);
      if s[0] != ',' {
        assert ',' !in [s[0]] + rest[0];
        assert forall i :: 1 <= i < |SplitRegions(s)| ==> SplitRegions(s)[i] == rest[i];
      }
    }
  }

  /** Joining the pieces of a split with the separator gives the string back. */
  lemma {:induction false} SplitJoin(s: string)
    ensures Join(SplitRegions(s), ',') == s
  {
    if s != [] {
      var rest := SplitRegions(s[1..]);
      SplitJoin(s[1..]);
      if s[0] == ',' {
        assert SplitRegions(s) == [[]] + rest;
        JoinCons([], rest);
      } else {
        assert SplitRegions(s) == [[s[0]] + rest[0]] + rest[1..];
        JoinPrepend(s[0], rest);
      }
      assert s == [s[0]] + s[1..];
    }
  }

  /** Splitting a comma-free piece, a comma and a rest. */
  lemma {:induction false} SplitAfter(p: string, rest: string)
    requires ',' !in p
    ensures SplitRegions(p + [','] + rest) == [p] + SplitRegions(rest)
  {
    var s := p + [','] + rest;
    if p == [] {
      assert s == [','] + rest && s[1..] == rest;
    } else {
      assert s[0] == p[0] && s[1..] == p[1..] + [','] + rest;
      SplitAfter(p[1..], rest);
      assert [p[0]] + p[1..] == p;
    }
  }

  /** Splitting a join of comma-free pieces gives the pieces back. */
  lemma {:induction false} JoinSplit(parts: seq<string>)
    requires |parts| >= 1
    requires forall i :: 0 <= i < |parts| ==> ',' !in parts[i]
    ensures SplitRegions(Join(parts, ',')) == parts
  {
    if |parts| == 1 {
      SplitWhole(parts[0]);
    } else {
      assert parts == [parts[0]] + parts[1..];
      JoinCons(parts[0], parts[1..]);
      SplitAfter(parts[0], Join(parts[1..], ','));
      JoinSplit(parts[1..]);
    }
  }

  /** A comma-free string splits into itself alone. */
  lemma {:induction false} SplitWhole(p: string)
    requires ',' !in p
    ensures SplitRegions(p) == [p]
  {
    if p != [] {
      SplitWhole(p[1..]);
      assert [p[0]] + p[1..] == p;
    }
  }
}
