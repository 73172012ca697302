/** The receipts an admin attempt leaves behind, and the per-receipt checks of
    src/fault/admin_topology.rs.  A validator that returns Result<()> in the
    source is a predicate here: it holds exactly when the source returns Ok. */
module Receipts {
  import opened Basics

  // --------------------------------------------------------- vocabulary

  datatype Scenario = Decommission | Rebalance | OtherScenario(name: string)

  const CASE_FAMILY := "fault"
  const DECOMMISSION_CASE := CASE_FAMILY + "_admin_decommission_preserves_object_model"
  const REBALANCE_CASE := CASE_FAMILY + "_admin_rebalance_preserves_object_model"
  const DECOMMISSION_TARGET := "decommission-target"

  predicate Supported(scenario: Scenario) {
    scenario.Decommission? || scenario.Rebalance?
  }

  predicate CaseMatches(scenario: Scenario, caseName: string) {
    match scenario
    case Decommission => caseName == DECOMMISSION_CASE
    case Rebalance => caseName == REBALANCE_CASE
    case OtherScenario(_) => false
  }

  /** A status word, read the way the source reads it: ASCII-case-insensitively. */
  datatype Word =
    | NoWord | Active | Ready | Decommissioned
    | Queued | Running | Complete | Failed | Canceled
    | Started | Stopping | Stopped | Completed | Blocked | Incomplete
    | OtherWord(text: string)

  datatype Method = Get | Post | OtherMethod(verb: string)

  datatype Path =
    | PoolsList | PoolsDecommission | DecommissionStatus | PoolsCancel | PoolsClear
    | RebalanceStart | RebalanceStatusPath | RebalanceStop
    | OtherPath(text: string)

  datatype Attempt = Attempt(runId: string, caseName: string, tenantUid: string)

  predicate AttemptValid(a: Attempt) {
    !IsBlank(a.runId) && !IsBlank(a.caseName) && !IsBlank(a.tenantUid)
  }

  datatype Window = Window(startedAt: u64, evaluatedAt: u64) {
    predicate Valid() { 0 < startedAt <= evaluatedAt }
    predicate Contains(t: u64) { startedAt <= t <= evaluatedAt }
  }

  // -------------------------------------------------------- wire values

  datatype DecommissionProgress = DecommissionProgress(
    startTime: Option<string>,
    complete: bool, failed: bool, canceled: bool, queued: bool,
    objects: u64, objectsFailed: u64, bytes: u64, bytesFailed: u64,
    unresolvedEntries: nat)

  datatype DecommissionPoolStatus = DecommissionPoolStatus(
    id: nat, expression: string, status: Word, poolStatus: Word,
    decommission: Option<DecommissionProgress>)

  datatype RebalanceProgress = RebalanceProgress(objects: u64, versions: u64, bytes: u64)

  datatype RebalancePoolStatus = RebalancePoolStatus(
    id: nat, status: Word, stopping: bool, lastError: Option<string>,
    warningCount: u64, warningEntries: nat, lastWarning: Option<string>,
    progress: Option<RebalanceProgress>)

  datatype RebalanceStatus = RebalanceStatus(
    id: string, pools: seq<RebalancePoolStatus>, stoppedAt: Option<string>,
    failedPeers: seq<string>, reloadFailedPeers: seq<string>, pendingTerminalReload: bool)

  datatype AdminPool = AdminPool(
    id: nat, expression: string,
    status: Word, decommissionStatus: Word, rebalanceStatus: Word,
    totalSize: u64, currentSize: u64, usedSize: u64, used: real,
    decommission: Option<DecommissionProgress>)

  /** One entry of the Tenant's spec.pools; an absent or mistyped JSON field is None. */
  datatype PoolSpec = PoolSpec(
    name: Option<string>, servers: Option<u64>, volumesPerServer: Option<u64>, path: Option<string>)

  datatype TenantSpec = TenantSpec(internodeHttps: bool, pools: Option<seq<PoolSpec>>)

  datatype Tenant = Tenant(name: string, uid: string, namespace: string, resourceVersion: string, spec: TenantSpec)

  /** A captured response body, identified with what it decodes to. */
  datatype Body =
    | TenantBody(tenant: Tenant)
    | InfoBody(deploymentId: string)
    | PoolsBody(pools: seq<AdminPool>)
    | DecommissionBody(decommission: DecommissionPoolStatus)
    | RebalanceStartBody(startId: string)
    | RebalanceBody(rebalance: RebalanceStatus)
    | OpaqueBody(text: string)

  /** SHA-256, of which only determinism is used. */
  datatype Digest = Digest(of: Body)

  function Sha256(body: Body): Digest {
    Digest(body)
  }

  // ------------------------------------------------------------ targets

  datatype EndpointIdentity = EndpointIdentity(
    context: string, clusterUid: string, command: string, namespace: string,
    serviceName: string, serviceUid: string, tenantName: string, tenantUid: string,
    localEndpoint: string, remotePort: nat)

  /** captureConsistent stands for the checks of the loopback URL, the
      port-forward command line and the Namespace and Service JSON bodies. */
  datatype Endpoint = Endpoint(
    identity: EndpointIdentity, captureConsistent: bool,
    portForwardStartedAt: u64, clusterStartedAt: u64, clusterObservedAt: u64,
    serviceStartedAt: u64, serviceObservedAt: u64, tenantStartedAt: u64, tenantObservedAt: u64,
    tenantSha: Digest, tenantBody: Body)

  predicate EndpointValid(e: Endpoint) {
    && e.captureConsistent
    && !IsBlank(e.identity.context) && !IsBlank(e.identity.clusterUid)
    && !IsBlank(e.identity.namespace) && !IsBlank(e.identity.serviceName) && !IsBlank(e.identity.serviceUid)
    && !IsBlank(e.identity.tenantName) && !IsBlank(e.identity.tenantUid)
    && e.identity.remotePort == 9000
    && 0 < e.portForwardStartedAt <= e.clusterStartedAt <= e.clusterObservedAt
    && e.clusterObservedAt <= e.serviceStartedAt <= e.serviceObservedAt
    && e.serviceObservedAt <= e.tenantStartedAt <= e.tenantObservedAt
    && e.tenantSha == Sha256(e.tenantBody)
    && e.tenantBody.TenantBody?
    && e.tenantBody.tenant.namespace == e.identity.namespace
    && e.tenantBody.tenant.name == e.identity.tenantName
    && e.tenantBody.tenant.uid == e.identity.tenantUid
    && !IsBlank(e.tenantBody.tenant.resourceVersion)
  }

  predicate EndpointForTenant(e: Endpoint, namespace: string, tenant: string, uid: string) {
    && EndpointValid(e)
    && e.identity.namespace == namespace && e.identity.serviceName == tenant + "-io"
    && e.identity.tenantName == tenant && e.identity.tenantUid == uid
  }

  predicate CaptureWithin(e: Endpoint, w: Window) {
    && w.Contains(e.clusterStartedAt) && w.Contains(e.clusterObservedAt)
    && w.Contains(e.serviceStartedAt) && w.Contains(e.serviceObservedAt)
    && w.Contains(e.tenantStartedAt) && w.Contains(e.tenantObservedAt)
  }

  datatype Target = Target(endpoint: Endpoint, deploymentId: string)

  predicate SameRuntimeIdentity(expected: Target, current: Target) {
    && EndpointValid(expected.endpoint) && EndpointValid(current.endpoint)
    && expected.endpoint.identity == current.endpoint.identity
    && expected.endpoint.tenantBody.tenant.spec == current.endpoint.tenantBody.tenant.spec
    && expected.deploymentId == current.deploymentId
  }

  predicate Successful(status: nat) {
    200 <= status < 300
  }

  datatype RuntimeBinding = RuntimeBinding(
    target: Target, status: nat, startedAt: u64, observedAt: u64,
    requestId: Option<string>, sha: Digest, body: Body)

  predicate BindingValid(b: RuntimeBinding) {
    && EndpointValid(b.target.endpoint)
    && Successful(b.status)
    && b.target.endpoint.tenantObservedAt <= b.startedAt
    && 0 < b.startedAt <= b.observedAt
    && !IsBlank(b.target.deploymentId)
    && b.sha == Sha256(b.body)
    && b.body == InfoBody(b.target.deploymentId)
  }

  // ----------------------------------------------------------- requests

  datatype Request = Request(
    target: Target, runtimeProbe: Option<RuntimeBinding>,
    verb: Method, path: Path, query: map<string, string>, status: nat,
    startedAt: u64, observedAt: u64, requestId: Option<string>,
    sha: Option<Digest>, body: Option<Body>)

  predicate RequestValid(r: Request) {
    && EndpointValid(r.target.endpoint)
    && !IsBlank(r.target.deploymentId)
    && 0 < r.startedAt && r.target.endpoint.tenantObservedAt <= r.startedAt <= r.observedAt
    && (r.verb != Get ==> r.runtimeProbe.Some?)
    && (r.runtimeProbe.Some? ==>
          && BindingValid(r.runtimeProbe.value)
          && r.runtimeProbe.value.target == r.target
          && r.runtimeProbe.value.observedAt <= r.startedAt)
    && (r.sha.Some? <==> r.body.Some?)
    && (r.body.Some? ==> r.sha.value == Sha256(r.body.value))
  }

  /** parse_captured_json_response, before the typed decode. */
  function Captured(r: Request): Option<Body> {
    if r.body.Some? && r.sha.Some? && r.sha.value == Sha256(r.body.value) then r.body else None
  }

  predicate IsStart(scenario: Scenario, r: Request) {
    r.verb == Post && ((scenario.Decommission? && r.path.PoolsDecommission?) || (scenario.Rebalance? && r.path.RebalanceStart?))
  }

  predicate IsStatus(scenario: Scenario, r: Request) {
    r.verb == Get && ((scenario.Decommission? && r.path.DecommissionStatus?) || (scenario.Rebalance? && r.path.RebalanceStatusPath?))
  }

  predicate IsRollback(scenario: Scenario, r: Request) {
    r.verb == Post && ((scenario.Decommission? && r.path.PoolsCancel?) || (scenario.Rebalance? && r.path.RebalanceStop?))
  }

  predicate IsCancelOrStop(r: Request) {
    r.verb == Post && (r.path.PoolsCancel? || r.path.RebalanceStop?)
  }

  predicate ExactQuery(r: Request, scenario: Scenario, target: Option<nat>) {
    match scenario
    case Decommission => target.Some? && r.query == map["pool" := Decimal(target.value), "by-id" := "true"]
    case Rebalance => r.query == map[]
    case OtherScenario(_) => false
  }

  function StartTest(scenario: Scenario): Request -> bool {
    r => IsStart(scenario, r)
  }

  function StatusTest(scenario: Scenario): Request -> bool {
    r => IsStatus(scenario, r)
  }

  // ---------------------------------------------------------- snapshots

  datatype TenantGet = TenantGet(
    context: string, clusterUid: string, namespace: string, name: string, uid: string,
    resourceVersion: string, startedAt: u64, observedAt: u64, sha: Digest, body: Body)

  predicate TenantGetValid(g: TenantGet) {
    && !IsBlank(g.namespace) && !IsBlank(g.context) && !IsBlank(g.clusterUid)
    && !IsBlank(g.name) && !IsBlank(g.uid) && !IsBlank(g.resourceVersion)
    && 0 < g.startedAt <= g.observedAt
    && g.sha == Sha256(g.body)
    && g.body.TenantBody?
    && g.body.tenant.namespace == g.namespace && g.body.tenant.name == g.name
    && g.body.tenant.uid == g.uid && g.body.tenant.resourceVersion == g.resourceVersion
  }

  datatype Snapshot = Snapshot(
    attempt: Attempt, tenantGet: TenantGet, runtime: RuntimeBinding,
    observedAt: u64, request: Request, pools: seq<AdminPool>)

  /** AdminPoolSnapshot::validate_list_request. */
  predicate ListRequestValid(s: Snapshot) {
    && AttemptValid(s.attempt) && TenantGetValid(s.tenantGet)
    && BindingValid(s.runtime) && RequestValid(s.request)
    && s.request.runtimeProbe.Some?
    && var probe := s.request.runtimeProbe.value;
    && SameRuntimeIdentity(s.runtime.target, probe.target)
    && EndpointForTenant(s.runtime.target.endpoint, s.tenantGet.namespace, s.tenantGet.name, s.tenantGet.uid)
    && s.tenantGet.uid == s.attempt.tenantUid
    && s.observedAt == s.request.observedAt
    && s.tenantGet.observedAt < s.request.startedAt
    && s.tenantGet.observedAt <= probe.target.endpoint.clusterStartedAt
    && probe.observedAt <= s.request.startedAt
    && s.request.verb == Get && s.request.path.PoolsList? && s.request.query == map[]
    && Successful(s.request.status)
    && s.request.target == probe.target
    && s.tenantGet.context == s.runtime.target.endpoint.identity.context
    && s.tenantGet.clusterUid == s.runtime.target.endpoint.identity.clusterUid
    && s.tenantGet.namespace == s.runtime.target.endpoint.identity.namespace
    && Captured(s.request) == Some(PoolsBody(s.pools))
  }

  // ------------------------------------------- what a valid receipt says

  ghost predicate Nondecreasing(times: seq<u64>) {
    forall i, j :: 0 <= i < j < |times| ==> times[i] <= times[j]
  }

  lemma TimesJoin(a: seq<u64>, b: seq<u64>)
    requires a != [] && b != [] && Nondecreasing(a) && Nondecreasing(b) && a[|a| - 1] <= b[0]
    ensures Nondecreasing(a + b)
  {
    forall i, j | 0 <= i < j < |a + b| ensures (a + b)[i] <= (a + b)[j] {
      if i < |a| <= j {
        assert a[i] <= a[|a| - 1] && b[0] <= b[j - |a|];
      }
    }
  }

  /** The moments of one endpoint capture, in order. */
  function CaptureTimes(e: Endpoint): seq<u64> {
    [e.portForwardStartedAt, e.clusterStartedAt, e.clusterObservedAt, e.serviceStartedAt, e.serviceObservedAt,
     e.tenantStartedAt, e.tenantObservedAt]
  }

  /** A captured Tenant is the one its endpoint names, unaltered. */
  ghost predicate TenantCaptured(tenant: Tenant, namespace: string, name: string, uid: string) {
    && tenant.namespace == namespace && tenant.name == name && tenant.uid == uid
    && !IsBlank(namespace) && !IsBlank(name) && !IsBlank(uid) && !IsBlank(tenant.resourceVersion)
  }

  lemma EndpointReads(e: Endpoint)
    requires EndpointValid(e)
    ensures Nondecreasing(CaptureTimes(e)) && CaptureTimes(e)[0] > 0
    ensures e.tenantBody.TenantBody? && e.tenantSha == Digest(e.tenantBody)
    ensures TenantCaptured(e.tenantBody.tenant, e.identity.namespace, e.identity.tenantName, e.identity.tenantUid)
    ensures forall text :: text in [e.identity.context, e.identity.clusterUid, e.identity.serviceName, e.identity.serviceUid] ==> !IsBlank(text)
    ensures e.identity.remotePort == 9000 && e.captureConsistent
  {
    hide IsBlank;
  }

  /** A runtime binding: a successful answer that names the deployment, taken after the capture. */
  lemma BindingReads(b: RuntimeBinding)
    requires BindingValid(b)
    ensures EndpointValid(b.target.endpoint)
    ensures Nondecreasing(CaptureTimes(b.target.endpoint) + [b.startedAt, b.observedAt])
    ensures 200 <= b.status <= 299 && b.body == InfoBody(b.target.deploymentId) && b.sha == Digest(b.body)
    ensures !IsBlank(b.target.deploymentId)
  {
    hide EndpointValid, IsBlank;
    EndpointReads(b.target.endpoint);
    TimesJoin(CaptureTimes(b.target.endpoint), [b.startedAt, b.observedAt]);
  }

  /** A request: its capture, then the probe of the same target if there is one,
      and only then the request; a body and its digest come together. */
  lemma RequestReads(r: Request)
    requires RequestValid(r)
    ensures EndpointValid(r.target.endpoint) && !IsBlank(r.target.deploymentId)
    ensures Nondecreasing(CaptureTimes(r.target.endpoint) + [r.startedAt, r.observedAt])
    ensures r.verb != Get ==> r.runtimeProbe.Some?
    ensures r.runtimeProbe.Some? ==>
              && var probe := r.runtimeProbe.value;
              && BindingValid(probe) && probe.target == r.target
              && Nondecreasing(CaptureTimes(r.target.endpoint) + [probe.startedAt, probe.observedAt, r.startedAt, r.observedAt])
    ensures r.sha == if r.body.None? then None else Some(Digest(r.body.value))
  {
    hide EndpointValid, BindingValid, IsBlank;
    var times := CaptureTimes(r.target.endpoint);
    EndpointReads(r.target.endpoint);
    TimesJoin(times, [r.startedAt, r.observedAt]);
    if r.runtimeProbe.Some? {
      var probe := r.runtimeProbe.value;
      BindingReads(probe);
      assert (times + [probe.startedAt, probe.observedAt])[6] <= (times + [probe.startedAt, probe.observedAt])[7] <= (times + [probe.startedAt, probe.observedAt])[8];
      TimesJoin(times, [probe.startedAt, probe.observedAt, r.startedAt, r.observedAt]);
    }
  }

  /** One runtime: the same endpoint, the same Tenant spec and the same deployment. */
  lemma RuntimeReads(expected: Target, current: Target)
    requires SameRuntimeIdentity(expected, current)
    ensures EndpointValid(expected.endpoint) && EndpointValid(current.endpoint)
    ensures expected.endpoint.identity == current.endpoint.identity && expected.deploymentId == current.deploymentId
    ensures expected.endpoint.tenantBody.TenantBody? && current.endpoint.tenantBody.TenantBody?
    ensures expected.endpoint.tenantBody.tenant.spec == current.endpoint.tenantBody.tenant.spec
  {
    hide IsBlank;
  }

  lemma TenantGetReads(g: TenantGet)
    requires TenantGetValid(g)
    ensures 0 < g.startedAt <= g.observedAt && g.sha == Digest(g.body)
    ensures g.body.TenantBody? && TenantCaptured(g.body.tenant, g.namespace, g.name, g.uid) && g.body.tenant.resourceVersion == g.resourceVersion
    ensures !IsBlank(g.context) && !IsBlank(g.clusterUid)
  {
    hide IsBlank;
  }

  /** A pool snapshot: probe, Tenant GET and pools/list of one runtime and one
      Tenant, and the pools are those of the captured answer. */
  lemma ListReads(s: Snapshot)
    requires ListRequestValid(s)
    ensures TenantGetValid(s.tenantGet) && BindingValid(s.runtime) && RequestValid(s.request) && s.request.runtimeProbe.Some?
    ensures SameRuntimeIdentity(s.runtime.target, s.request.target)
    ensures var named := s.runtime.target.endpoint.identity;
            && s.tenantGet.context == named.context && s.tenantGet.clusterUid == named.clusterUid
            && s.tenantGet.namespace == named.namespace && s.tenantGet.name == named.tenantName
            && s.tenantGet.uid == named.tenantUid == s.attempt.tenantUid && named.serviceName == s.tenantGet.name + "-io"
    ensures s.tenantGet.observedAt <= s.request.target.endpoint.clusterStartedAt && s.tenantGet.observedAt < s.request.startedAt
    ensures s.request.verb == Get && s.request.path == PoolsList && s.request.query == map[] && 200 <= s.request.status <= 299
    ensures s.request.body == Some(PoolsBody(s.pools)) && s.request.sha == Some(Digest(PoolsBody(s.pools)))
    ensures s.observedAt == s.request.observedAt
    ensures !IsBlank(s.attempt.runId) && !IsBlank(s.attempt.caseName)
  {
    hide TenantGetValid, BindingValid, EndpointValid, IsBlank;
    RequestReads(s.request);
  }
}
