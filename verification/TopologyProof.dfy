/** Preflight: binding declared Tenant pools to runtime pools, the capacity
    guard, the topology proof, and the Pod names it implies
    (src/fault/admin_topology.rs, AdminTopologyProof and its helpers). */
module TopologyProof {
  import opened Basics
  import opened Receipts

  // ------------------------------------------------- runtime pool checks

  function PoolId(p: AdminPool): nat { p.id }

  function PoolExpression(p: AdminPool): string { Trim(p.expression) }

  predicate PoolIsIdle(p: AdminPool) {
    && (p.status.Active? || p.status.Ready?)
    && p.decommissionStatus.NoWord?
    && (p.rebalanceStatus.NoWord? || p.rebalanceStatus.Completed?)
    && p.decommission.None?
  }

  predicate SizesConsistent(p: AdminPool) {
    && p.totalSize > 0
    && CheckedAdd(p.currentSize, p.usedSize) == Some(p.totalSize)
    && 0.0 <= p.used <= 1.0
    && var expected := p.usedSize as real / p.totalSize as real;
    && -0.000001 <= p.used - expected <= 0.000001
  }

  /** validate_pool_wire_invariants */
  predicate WireInvariants(pools: seq<AdminPool>) {
    && pools != []
    && |Elements(Map(PoolId, pools))| == |pools|
    && |Elements(Map(PoolExpression, pools))| == |pools|
    && (forall p :: p in pools ==> PoolExpression(p) != "")
    && (forall p :: p in pools ==> SizesConsistent(p))
  }

  datatype TenantPoolProof = TenantPoolProof(
    name: string, tenantUid: string, statefulSetName: string, expectedEndpointSet: string,
    scheme: string, clusterDomain: string, dataPath: string,
    runtimePoolId: nat, servers: u64, volumesPerServer: u64)

  function BoundName(t: TenantPoolProof): string { t.name }

  function BoundId(t: TenantPoolProof): nat { t.runtimePoolId }

  predicate Binds(t: TenantPoolProof, p: AdminPool) {
    p.id == t.runtimePoolId && Trim(p.expression) == t.expectedEndpointSet
  }

  predicate TenantPoolComplete(t: TenantPoolProof) {
    && !IsBlank(t.name) && !IsBlank(t.tenantUid) && !IsBlank(t.statefulSetName)
    && !IsBlank(t.expectedEndpointSet) && (t.scheme == "http" || t.scheme == "https")
    && !IsBlank(t.clusterDomain) && !IsBlank(t.dataPath)
    && t.servers > 0 && t.volumesPerServer > 0
  }

  /** validate_runtime_pools without its check that there are exactly two pools. */
  predicate PoolsBound(tenantPools: seq<TenantPoolProof>, runtimePools: seq<AdminPool>) {
    && |Elements(Map(BoundName, tenantPools))| == |tenantPools|
    && |Elements(Map(BoundId, tenantPools))| == |tenantPools|
    && (forall t :: t in tenantPools ==> TenantPoolComplete(t))
    && (forall t :: t in tenantPools ==> exists p :: p in runtimePools && Binds(t, p))
    && |runtimePools| == |tenantPools|
    && WireInvariants(runtimePools)
    && (forall p :: p in runtimePools ==> PoolIsIdle(p))
  }

  predicate RuntimePoolsValid(tenantPools: seq<TenantPoolProof>, runtimePools: seq<AdminPool>) {
    |tenantPools| == 2 && PoolsBound(tenantPools, runtimePools)
  }

  ghost predicate OnlyRuntimeMatch(t: TenantPoolProof, runtimePools: seq<AdminPool>, j: nat) {
    && j < |runtimePools| && Binds(t, runtimePools[j])
    && forall k :: 0 <= k < |runtimePools| && Binds(t, runtimePools[k]) ==> k == j
  }

  ghost predicate OnlyTenantMatch(tenantPools: seq<TenantPoolProof>, p: AdminPool, i: nat) {
    && i < |tenantPools| && Binds(tenantPools[i], p)
    && forall k :: 0 <= k < |tenantPools| && Binds(tenantPools[k], p) ==> k == i
  }

  ghost predicate Bijection(tenantPools: seq<TenantPoolProof>, runtimePools: seq<AdminPool>) {
    && (forall t :: t in tenantPools ==> exists j: nat :: OnlyRuntimeMatch(t, runtimePools, j))
    && (forall p :: p in runtimePools ==> exists i: nat :: OnlyTenantMatch(tenantPools, p, i))
  }

  /** The accepted (id, trimmed cmdline) match is a bijection, for any number of pools. */
  lemma BindingIsABijection(tenantPools: seq<TenantPoolProof>, runtimePools: seq<AdminPool>)
    requires PoolsBound(tenantPools, runtimePools)
    ensures Bijection(tenantPools, runtimePools)
    ensures Elements(Map(BoundId, tenantPools)) == Elements(Map(PoolId, runtimePools))
  {
    FullCardinalityIffDistinct(Map(BoundId, tenantPools));
    FullCardinalityIffDistinct(Map(PoolId, runtimePools));
    BoundIdsAreTheRuntimeIds(tenantPools, runtimePools);
    forall t | t in tenantPools ensures exists j: nat :: OnlyRuntimeMatch(t, runtimePools, j) {
      var j := UniqueRuntimePool(t, runtimePools);
    }
    forall p | p in runtimePools ensures exists i: nat :: OnlyTenantMatch(tenantPools, p, i) {
      var k: nat :| k < |runtimePools| && runtimePools[k] == p;
      var i := UniqueTenantPool(tenantPools, runtimePools, k);
    }
  }

  /** Pigeonhole: n distinct declared IDs, each among the n runtime IDs, are all of them. */
  lemma BoundIdsAreTheRuntimeIds(tenantPools: seq<TenantPoolProof>, runtimePools: seq<AdminPool>)
    requires forall t :: t in tenantPools ==> exists p :: p in runtimePools && Binds(t, p)
    requires |Elements(Map(BoundId, tenantPools))| == |tenantPools| == |runtimePools|
    requires |Elements(Map(PoolId, runtimePools))| == |runtimePools|
    ensures Elements(Map(BoundId, tenantPools)) == Elements(Map(PoolId, runtimePools))
  {
    var declared, running := Map(BoundId, tenantPools), Map(PoolId, runtimePools);
    forall id | id in Elements(declared) ensures id in Elements(running) {
      var i :| 0 <= i < |declared| && declared[i] == id;
      assert tenantPools[i] in tenantPools;
      var p :| p in runtimePools && Binds(tenantPools[i], p);
      var j :| 0 <= j < |runtimePools| && runtimePools[j] == p;
      assert running[j] == id;
    }
    SameSizeSubsetIsEqual(Elements(declared), Elements(running));
  }

  lemma UniqueTenantPool(tenantPools: seq<TenantPoolProof>, runtimePools: seq<AdminPool>, j: nat) returns (i: nat)
    requires j < |runtimePools|
    requires forall t :: t in tenantPools ==> exists p :: p in runtimePools && Binds(t, p)
    requires Distinct(Map(BoundId, tenantPools)) && Distinct(Map(PoolId, runtimePools))
    requires Elements(Map(BoundId, tenantPools)) == Elements(Map(PoolId, runtimePools))
    ensures OnlyTenantMatch(tenantPools, runtimePools[j], i)
  {
    var declared, running := Map(BoundId, tenantPools), Map(PoolId, runtimePools);
    assert running[j] in Elements(declared);
    i :| i < |declared| && declared[i] == running[j];
    assert tenantPools[i] in tenantPools;
    var m := UniqueRuntimePool(tenantPools[i], runtimePools);
    assert running[m] == running[j];
    forall k | 0 <= k < |tenantPools| && Binds(tenantPools[k], runtimePools[j]) ensures k == i {
      assert declared[k] == declared[i];
    }
  }

  lemma UniqueRuntimePool(t: TenantPoolProof, runtimePools: seq<AdminPool>) returns (j: nat)
    requires exists p :: p in runtimePools && Binds(t, p)
    requires Distinct(Map(PoolId, runtimePools))
    ensures OnlyRuntimeMatch(t, runtimePools, j)
    ensures t.runtimePoolId in Map(PoolId, runtimePools)
  {
    var running := Map(PoolId, runtimePools);
    var p :| p in runtimePools && Binds(t, p);
    j :| j < |runtimePools| && runtimePools[j] == p;
    assert running[j] == t.runtimePoolId;
    forall k | 0 <= k < |runtimePools| && Binds(t, runtimePools[k]) ensures k == j {
      assert running[k] == running[j];
    }
  }

  /** Two runtime lists bound to the same declared pools carry the same IDs. */
  lemma BoundSnapshotsShareIds(tenantPools: seq<TenantPoolProof>, a: seq<AdminPool>, b: seq<AdminPool>)
    requires PoolsBound(tenantPools, a) && PoolsBound(tenantPools, b)
    ensures |a| == |b| && Elements(Map(PoolId, a)) == Elements(Map(PoolId, b))
  {
    BindingIsABijection(tenantPools, a);
    BindingIsABijection(tenantPools, b);
  }

  // ------------------------------------------------------ capacity guard

  datatype CapacityError =
    | NoWorkloadBudget | TargetMissing | FreeOverflow | TargetEmpty
    | GuardOverflow | HeadroomOverflow | Insufficient

  datatype Capacity =
    | Fits(targetExpression: Option<string>, targetUsed: u64, remainingFree: u64, requiredFree: u64)
    | Rejected(reason: CapacityError)

  predicate Survives(target: Option<nat>, p: AdminPool) {
    target != Some(p.id)
  }

  function FreeOf(target: Option<nat>): AdminPool -> nat {
    p => if Survives(target, p) then p.currentSize else 0
  }

  function TotalOf(target: Option<nat>): AdminPool -> nat {
    p => if Survives(target, p) then p.totalSize else 0
  }

  function UsedOf(target: Option<nat>): AdminPool -> nat {
    p => if Survives(target, p) then p.usedSize else 0
  }

  function HasId(id: nat): AdminPool -> bool {
    (p: AdminPool) => p.id == id
  }

  /** filter + try_fold(checked_add) over the surviving pools. */
  function CheckedFree(target: Option<nat>, pools: seq<AdminPool>, total: u64): Option<u64> {
    if pools == [] then Some(total)
    else if !Survives(target, pools[0]) then CheckedFree(target, pools[1..], total)
    else
      match CheckedAdd(total, pools[0].currentSize)
      case None => None
      case Some(next) => CheckedFree(target, pools[1..], next)
  }

  function TopologyCapacity(target: Option<nat>, pools: seq<AdminPool>, workload: u64): Capacity {
    if workload == 0 then Rejected(NoWorkloadBudget)
    else if target.None? then
      match CheckedFree(None, pools, 0)
      case None => Rejected(FreeOverflow)
      case Some(free) =>
        if free < workload then Rejected(Insufficient) else Fits(None, 0, free, workload)
    else
      var at := FirstIndex(HasId(target.value), pools);
      if at == |pools| then Rejected(TargetMissing)
      else
        match CheckedFree(target, pools, 0)
        case None => Rejected(FreeOverflow)
        case Some(free) =>
          if pools[at].usedSize == 0 then Rejected(TargetEmpty)
          else
            match CheckedMul(pools[at].usedSize, 130)
            case None => Rejected(GuardOverflow)
            case Some(scaled) =>
              match CheckedAdd(scaled, 99)
              case None => Rejected(GuardOverflow)
              case Some(raised) =>
                match CheckedAdd(raised / 100, workload)
                case None => Rejected(HeadroomOverflow)
                case Some(required) =>
                  if free < required then Rejected(Insufficient)
                  else Fits(Some(pools[at].expression), pools[at].usedSize, free, required)
  }

  lemma {:induction false} CheckedFreeIsTheSum(target: Option<nat>, pools: seq<AdminPool>, total: u64)
    ensures CheckedFree(target, pools, total)
         == if total + SumBy(FreeOf(target), pools) <= U64_MAX then Some(total + SumBy(FreeOf(target), pools)) else None
  {
    if pools != [] {
      if !Survives(target, pools[0]) {
        CheckedFreeIsTheSum(target, pools[1..], total);
      } else if total + pools[0].currentSize <= U64_MAX {
        CheckedFreeIsTheSum(target, pools[1..], total + pools[0].currentSize);
      }
    }
  }

  /** guard is the least integer not below 130% of used. */
  predicate IsCeilingOf130Percent(guard: int, used: int) {
    100 * guard >= 130 * used > 100 * (guard - 1)
  }

  /** What a decommission verdict means in plain integers: which pool is the
      target, how the guard rounds, and which overflow or shortage each
      rejection stands for. */
  ghost predicate DecommissionVerdict(r: Capacity, target: AdminPool, free: int, guard: int, workload: int) {
    && (r == Rejected(FreeOverflow) <==> free > U64_MAX)
    && (r == Rejected(TargetEmpty) <==> free <= U64_MAX && target.usedSize == 0)
    && (r == Rejected(GuardOverflow) <==>
          free <= U64_MAX && target.usedSize > 0 && 130 * target.usedSize + 99 > U64_MAX)
    && (r == Rejected(HeadroomOverflow) <==>
          && free <= U64_MAX && target.usedSize > 0 && 130 * target.usedSize + 99 <= U64_MAX
          && guard + workload > U64_MAX)
    && (r == Rejected(Insufficient) <==>
          && free <= U64_MAX && target.usedSize > 0 && 130 * target.usedSize + 99 <= U64_MAX
          && free < guard + workload <= U64_MAX)
    && (r.Fits? <==>
          && target.usedSize > 0 && 130 * target.usedSize + 99 <= U64_MAX
          && guard + workload <= free <= U64_MAX)
    && (r.Fits? ==>
          && r.targetExpression == Some(target.expression) && r.targetUsed == target.usedSize
          && r.remainingFree == free && r.requiredFree == guard + workload)
  }

  lemma FirstWithId(target: nat, pools: seq<AdminPool>, at: nat)
    requires at < |pools| && pools[at].id == target && forall i :: 0 <= i < at ==> pools[i].id != target
    ensures FirstIndex(HasId(target), pools) == at
  {
    var k := FirstIndex(HasId(target), pools);
    assert HasId(target)(pools[at]);
    assert k <= at;
  }

  lemma CeilingByDivision(used: nat, guard: int)
    requires IsCeilingOf130Percent(guard, used)
    ensures (130 * used + 99) / 100 == guard
  {
  }

  lemma DecommissionCapacityIsExact(target: nat, pools: seq<AdminPool>, workload: u64, at: nat, guard: int)
    requires workload > 0
    requires at < |pools| && pools[at].id == target
    requires forall i :: 0 <= i < at ==> pools[i].id != target
    requires IsCeilingOf130Percent(guard, pools[at].usedSize)
    ensures DecommissionVerdict(
              TopologyCapacity(Some(target), pools, workload), pools[at],
              SumBy(FreeOf(Some(target)), pools), guard, workload)
  {
    hide CheckedFree, SumBy, FirstIndex, IsCeilingOf130Percent;
    CheckedFreeIsTheSum(Some(target), pools, 0);
    FirstWithId(target, pools, at);
    CeilingByDivision(pools[at].usedSize, guard);
  }

  /** The verdicts that need no target pool. */
  lemma CapacityWithoutTarget(target: Option<nat>, pools: seq<AdminPool>, workload: u64)
    ensures var r := TopologyCapacity(target, pools, workload);
            && (r == Rejected(NoWorkloadBudget) <==> workload == 0)
            && (r == Rejected(TargetMissing) <==> workload > 0 && target.Some? && forall p :: p in pools ==> p.id != target.value)
            && (target.None? && workload > 0 ==>
                  && var free := SumBy(FreeOf(None), pools);
                  && (r == Rejected(FreeOverflow) <==> free > U64_MAX)
                  && (r == Rejected(Insufficient) <==> free < workload)
                  && (r.Fits? <==> workload <= free <= U64_MAX)
                  && (r.Fits? ==> r.targetExpression.None? && r.remainingFree == free && r.requiredFree == workload))
  {
    if target.None? {
      CheckedFreeIsTheSum(None, pools, 0);
    } else {
      var test := HasId(target.value);
      assert forall p :: p in pools ==> (test(p) <==> p.id == target.value);
      assert forall i :: 0 <= i < |pools| ==> pools[i] in pools;
    }
  }

  /** Acceptance leaves room on the survivors for their own data, everything
      on the target, the whole workload, and 30% of the target besides. */
  lemma AcceptedCapacitySuffices(target: nat, pools: seq<AdminPool>, workload: u64)
    requires forall p :: p in pools ==> SizesConsistent(p)
    requires TopologyCapacity(Some(target), pools, workload).Fits?
    ensures var used := TopologyCapacity(Some(target), pools, workload).targetUsed;
            100 * SumBy(TotalOf(Some(target)), pools)
              >= 100 * SumBy(UsedOf(Some(target)), pools) + 100 * used + 100 * workload + 30 * used
  {
    CheckedFreeIsTheSum(Some(target), pools, 0);
    SizesAddUp(Some(target), pools);
  }

  lemma {:induction false} SizesAddUp(target: Option<nat>, pools: seq<AdminPool>)
    requires forall p :: p in pools ==> SizesConsistent(p)
    ensures SumBy(TotalOf(target), pools) == SumBy(FreeOf(target), pools) + SumBy(UsedOf(target), pools)
  {
    if pools != [] {
      assert SizesConsistent(pools[0]);
      SizesAddUp(target, pools[1..]);
    }
  }

  /** With unique IDs the verdict, its figures and its errors ignore list order. */
  lemma CapacityIgnoresOrder(target: Option<nat>, a: seq<AdminPool>, b: seq<AdminPool>, workload: u64)
    requires multiset(a) == multiset(b) && Distinct(Map(PoolId, a))
    ensures TopologyCapacity(target, a, workload) == TopologyCapacity(target, b, workload)
  {
    SumByPermutation(FreeOf(target), a, b);
    CheckedFreeIsTheSum(target, a, 0);
    CheckedFreeIsTheSum(target, b, 0);
    if target.Some? {
      PermutationMembers(a, b);
      SameIdSamePool(a);
      FirstMatchIgnoresOrder(HasId(target.value), a, b);
    }
  }

  lemma SameIdSamePool(pools: seq<AdminPool>)
    requires Distinct(Map(PoolId, pools))
    ensures forall x, y :: x in pools && y in pools && x.id == y.id ==> x == y
  {
    forall x, y | x in pools && y in pools && x.id == y.id ensures x == y {
      var i :| 0 <= i < |pools| && pools[i] == x;
      var j :| 0 <= j < |pools| && pools[j] == y;
      assert Map(PoolId, pools)[i] == Map(PoolId, pools)[j];
    }
  }

  /** Where at most one member matches, the first match ignores list order. */
  lemma FirstMatchIgnoresOrder<T>(p: T -> bool, a: seq<T>, b: seq<T>)
    requires forall x :: x in a ==> x in b
    requires forall x :: x in b ==> x in a
    requires forall x, y :: x in a && y in a && p(x) && p(y) ==> x == y
    ensures var i, j := FirstIndex(p, a), FirstIndex(p, b);
            (i < |a| <==> j < |b|) && (i < |a| ==> a[i] == b[j])
  {
    var i, j := FirstIndex(p, a), FirstIndex(p, b);
    if i < |a| {
      FirstIndexFinds(p, b, a[i]);
    } else if j < |b| {
      FirstIndexFinds(p, a, b[j]);
    }
  }

  lemma FirstIndexFinds<T>(p: T -> bool, s: seq<T>, x: T)
    requires x in s && p(x)
    ensures FirstIndex(p, s) < |s|
  {
    var k :| 0 <= k < |s| && s[k] == x;
    assert FirstIndex(p, s) <= k;
  }

  // ------------------------------------------------- building the proof

  function TrimSlashes(s: string): string {
    if s != [] && s[|s| - 1] == '/' then TrimSlashes(s[..|s| - 1]) else s
  }

  /** expected_pool_endpoint_set: the StatefulSet name and the cmdline it implies. */
  function EndpointSet(tenant: string, pool: string, namespace: string, scheme: string,
                       domain: string, path: string, servers: u64, volumes: u64): Option<(string, string)> {
    if (scheme != "http" && scheme != "https") || IsBlank(tenant) || IsBlank(pool) || IsBlank(namespace)
      || IsBlank(domain) || path == "" || path[0] != '/' || path == "/" || servers == 0 || volumes == 0
    then None
    else
      var sts := tenant + "-" + pool;
      Some((sts, scheme + "://" + sts + "-{0..." + Decimal(servers - 1) + "}." + tenant + "-hl." + namespace
                 + ".svc." + domain + ":9000" + path + "/rustfs{0..." + Decimal(volumes - 1) + "}"))
  }

  function ExpressionIs(expected: string): AdminPool -> bool {
    (p: AdminPool) => Trim(p.expression) == expected
  }

  /** tenant_pool_proof */
  function BindPool(spec: PoolSpec, tenant: Tenant, domain: string, runtime: seq<AdminPool>): Option<TenantPoolProof> {
    if !Present(spec.name) || spec.servers.None? || spec.servers.value == 0
      || spec.volumesPerServer.None? || spec.volumesPerServer.value == 0
    then None
    else
      var scheme := if tenant.spec.internodeHttps then "https" else "http";
      var base := TrimSlashes(if spec.path.Some? then spec.path.value else "/data");
      if base == "" || base[0] != '/' then None
      else
        match EndpointSet(tenant.name, spec.name.value, tenant.namespace, scheme, domain, base,
                          spec.servers.value, spec.volumesPerServer.value)
        case None => None
        case Some((sts, expected)) =>
          var matches := Filter(ExpressionIs(expected), runtime);
          if |matches| != 1 then None
          else Some(TenantPoolProof(spec.name.value, tenant.uid, sts, expected, scheme, domain, base,
                                    matches[0].id, spec.servers.value, spec.volumesPerServer.value))
  }

  function Binder(tenant: Tenant, domain: string, runtime: seq<AdminPool>): PoolSpec -> Option<TenantPoolProof> {
    spec => BindPool(spec, tenant, domain, runtime)
  }

  /** tenant_pool_proofs_from_receipt */
  function BindPools(tenant: Tenant, domain: string, runtime: seq<AdminPool>): Option<seq<TenantPoolProof>> {
    if IsBlank(tenant.name) || IsBlank(tenant.uid) || IsBlank(tenant.namespace) || tenant.spec.pools.None? then None
    else Values(Map(Binder(tenant, domain, runtime), tenant.spec.pools.value))
  }

  datatype Proof = Proof(
    attempt: Attempt, scenario: Scenario, tenant: string, namespace: string, runtime: RuntimeBinding,
    tenantPools: seq<TenantPoolProof>, runtimePools: seq<AdminPool>,
    targetId: Option<nat>, targetExpression: Option<string>,
    remainingFree: u64, targetUsed: u64, workloadMax: u64, guardPercent: u64, requiredFree: u64,
    mutuallyExclusive: bool, satisfied: bool)

  function IsNamed(name: string): TenantPoolProof -> bool {
    (t: TenantPoolProof) => t.name == name
  }

  /** The target the scenario's plan names: None when the named pool is missing. */
  function PlannedTarget(scenario: Scenario, pools: seq<TenantPoolProof>): Option<Option<nat>> {
    match scenario
    case Decommission =>
      var k := FirstIndex(IsNamed(DECOMMISSION_TARGET), pools);
      if k == |pools| then None else Some(Some(pools[k].runtimePoolId))
    case Rebalance => Some(None)
    case OtherScenario(_) => None
  }

  function DomainOf(t: TenantPoolProof): string { t.clusterDomain }

  /** validate_tenant_receipt_against_proof */
  predicate ReceiptMatchesProof(proof: Proof, tenant: Tenant) {
    && proof.tenantPools != []
    && |Elements(Map(DomainOf, proof.tenantPools))| == 1
    && BindPools(tenant, proof.tenantPools[0].clusterDomain, proof.runtimePools) == Some(proof.tenantPools)
    && tenant.name == proof.tenant && tenant.uid == proof.attempt.tenantUid && tenant.namespace == proof.namespace
  }

  /** The per-pool recomputation in require_satisfied. */
  predicate PoolOwned(proof: Proof, t: TenantPoolProof) {
    && t.tenantUid == proof.attempt.tenantUid
    && EndpointSet(proof.tenant, t.name, proof.namespace, t.scheme, t.clusterDomain, t.dataPath,
                   t.servers, t.volumesPerServer) == Some((t.statefulSetName, t.expectedEndpointSet))
  }

  /** AdminTopologyProof::require_satisfied */
  predicate Satisfied(proof: Proof) {
    && proof.satisfied && proof.mutuallyExclusive
    && !IsBlank(proof.tenant) && !IsBlank(proof.attempt.tenantUid) && !IsBlank(proof.namespace)
    && AttemptValid(proof.attempt)
    && BindingValid(proof.runtime)
    && EndpointForTenant(proof.runtime.target.endpoint, proof.namespace, proof.tenant, proof.attempt.tenantUid)
    && ReceiptMatchesProof(proof, proof.runtime.target.endpoint.tenantBody.tenant)
    && (forall t :: t in proof.tenantPools ==> PoolOwned(proof, t))
    && RuntimePoolsValid(proof.tenantPools, proof.runtimePools)
    && PlannedTarget(proof.scenario, proof.tenantPools) == Some(proof.targetId)
    && proof.guardPercent == 130
    && TopologyCapacity(proof.targetId, proof.runtimePools, proof.workloadMax)
       == Fits(proof.targetExpression, proof.targetUsed, proof.remainingFree, proof.requiredFree)
  }

  datatype BuildContext = BuildContext(
    runId: string, caseName: string, clusterDomain: string, workloadMax: u64, runtime: RuntimeBinding)

  /** What Draft decides once the declared pools are bound. */
  function Decide(scenario: Scenario, pools: seq<TenantPoolProof>, runtime: seq<AdminPool>, workload: u64): (r: Option<(Option<nat>, Capacity)>)
    ensures r.Some? ==> r.value.1.Fits?
  {
    if !RuntimePoolsValid(pools, runtime) then None
    else
      match PlannedTarget(scenario, pools)
      case None => None
      case Some(target) =>
        if TopologyCapacity(target, runtime, workload).Rejected? then None
        else Some((target, TopologyCapacity(target, runtime, workload)))
  }

  /** The checks of AdminTopologyProof::build that do not look at pool lists. */
  predicate Admissible(scenario: Scenario, tenant: Tenant, c: BuildContext) {
    && CaseMatches(scenario, c.caseName) && !IsBlank(c.runId) && !IsBlank(c.clusterDomain) && c.workloadMax > 0
    && BindingValid(c.runtime)
    && c.runtime.target.endpoint.tenantBody == TenantBody(tenant)
    && EndpointForTenant(c.runtime.target.endpoint, tenant.namespace, tenant.name, tenant.uid)
  }

  /** AdminTopologyProof::build up to its final self-check. */
  function Draft(scenario: Scenario, tenant: Tenant, runtime: seq<AdminPool>, c: BuildContext): Option<Proof> {
    if !Admissible(scenario, tenant, c) then None
    else
      match BindPools(tenant, c.clusterDomain, runtime)
      case None => None
      case Some(pools) =>
        match Decide(scenario, pools, runtime, c.workloadMax)
        case None => None
        case Some((target, fit)) =>
          Some(Proof(Attempt(c.runId, c.caseName, tenant.uid), scenario, tenant.name, tenant.namespace,
                     c.runtime, pools, runtime, target, fit.targetExpression, fit.remainingFree, fit.targetUsed,
                     c.workloadMax, 130, fit.requiredFree, true, true))
  }

  function Build(scenario: Scenario, tenant: Tenant, runtime: seq<AdminPool>, c: BuildContext): Option<Proof> {
    match Draft(scenario, tenant, runtime, c)
    case None => None
    case Some(proof) => if Satisfied(proof) then Some(proof) else None
  }

  /** Build re-derives every fact it has just recorded, so the self-check
      that ends it never rejects a drafted proof. */
  lemma DraftPassesItsSelfCheck(scenario: Scenario, tenant: Tenant, runtime: seq<AdminPool>, c: BuildContext)
    requires Draft(scenario, tenant, runtime, c).Some?
    ensures Build(scenario, tenant, runtime, c) == Draft(scenario, tenant, runtime, c)
  {
    hide BindPools, PoolsBound, TopologyCapacity, PlannedTarget, IsBlank, PoolOwned;
    var proof := Draft(scenario, tenant, runtime, c).value;
    BoundPoolsAreOwned(tenant, c.clusterDomain, runtime, proof);
    CaseNamesAreNotBlank(scenario, c.caseName);
    assert proof.tenantPools[0].clusterDomain == c.clusterDomain by {
      assert proof.tenantPools[0] in proof.tenantPools;
    }
    assert ReceiptMatchesProof(proof, tenant);
  }

  lemma BoundPoolsAreOwned(tenant: Tenant, domain: string, runtime: seq<AdminPool>, proof: Proof)
    requires BindPools(tenant, domain, runtime) == Some(proof.tenantPools) && proof.tenantPools != []
    requires proof.tenant == tenant.name && proof.namespace == tenant.namespace && proof.attempt.tenantUid == tenant.uid
    ensures forall t :: t in proof.tenantPools ==> PoolOwned(proof, t) && t.clusterDomain == domain
    ensures |Elements(Map(DomainOf, proof.tenantPools))| == 1
  {
    var specs := tenant.spec.pools.value;
    forall t | t in proof.tenantPools ensures PoolOwned(proof, t) && t.clusterDomain == domain {
      var i :| 0 <= i < |proof.tenantPools| && proof.tenantPools[i] == t;
      var options := Map(Binder(tenant, domain, runtime), specs);
      assert options[i] in options;
      assert BindPool(specs[i], tenant, domain, runtime) == Some(t);
    }
    var domains := Map(DomainOf, proof.tenantPools);
    assert domains[0] == domain;
    assert Elements(domains) == {domain};
  }

  lemma CaseNamesAreNotBlank(scenario: Scenario, name: string)
    requires CaseMatches(scenario, name)
    ensures !IsBlank(name)
  {
    assert CASE_FAMILY[0] == 'f' && !IsWhitespace('f');
    assert name[0] == CASE_FAMILY[0];
  }

  lemma BindPoolIgnoresOrder(spec: PoolSpec, tenant: Tenant, other: Tenant, domain: string, a: seq<AdminPool>, b: seq<AdminPool>)
    requires multiset(a) == multiset(b)
    requires other == tenant.(spec := tenant.spec.(pools := other.spec.pools))
    ensures BindPool(spec, tenant, domain, a) == BindPool(spec, other, domain, b)
  {
    var scheme := if tenant.spec.internodeHttps then "https" else "http";
    var base := TrimSlashes(if spec.path.Some? then spec.path.value else "/data");
    if Present(spec.name) && spec.servers.Some? && spec.volumesPerServer.Some? {
      match EndpointSet(tenant.name, spec.name.value, tenant.namespace, scheme, domain, base,
                        spec.servers.value, spec.volumesPerServer.value)
      case None =>
      case Some((_, expected)) => SoleMatchIgnoresOrder(ExpressionIs(expected), a, b);
    }
  }

  lemma SoleMatchIgnoresOrder(p: AdminPool -> bool, a: seq<AdminPool>, b: seq<AdminPool>)
    requires multiset(a) == multiset(b)
    ensures |Filter(p, a)| == |Filter(p, b)|
    ensures |Filter(p, a)| == 1 ==> Filter(p, a)[0] == Filter(p, b)[0]
  {
    FilterPermutation(p, a, b);
    PermutationMembers(Filter(p, a), Filter(p, b));
    if |Filter(p, a)| == 1 {
      assert Filter(p, a)[0] in Filter(p, b);
    }
  }

  lemma MapElementsIgnoreOrder<T, U>(f: T -> U, a: seq<T>, b: seq<T>)
    requires multiset(a) == multiset(b)
    ensures Elements(Map(f, a)) == Elements(Map(f, b))
  {
    MapPermutation(f, a, b);
    PermutationMembers(Map(f, a), Map(f, b));
    var x, y := Elements(Map(f, a)), Elements(Map(f, b));
    assert x <= y && y <= x;
  }

  lemma RuntimePoolsIgnoreOrder(ta: seq<TenantPoolProof>, tb: seq<TenantPoolProof>, ra: seq<AdminPool>, rb: seq<AdminPool>)
    requires multiset(ta) == multiset(tb) && multiset(ra) == multiset(rb)
    requires RuntimePoolsValid(ta, ra)
    ensures RuntimePoolsValid(tb, rb)
  {
    PermutationMembers(ta, tb);
    PermutationMembers(ra, rb);
    MapElementsIgnoreOrder(BoundName, ta, tb);
    MapElementsIgnoreOrder(BoundId, ta, tb);
    MapElementsIgnoreOrder(PoolId, ra, rb);
    MapElementsIgnoreOrder(PoolExpression, ra, rb);
  }

  lemma PlannedTargetIgnoresOrder(scenario: Scenario, a: seq<TenantPoolProof>, b: seq<TenantPoolProof>)
    requires multiset(a) == multiset(b)
    requires |Elements(Map(BoundName, a))| == |a|
    ensures PlannedTarget(scenario, a) == PlannedTarget(scenario, b)
  {
    PermutationMembers(a, b);
    var names := Map(BoundName, a);
    FullCardinalityIffDistinct(names);
    forall x, y | x in a && y in a && x.name == y.name ensures x == y {
      var i :| 0 <= i < |a| && a[i] == x;
      var j :| 0 <= j < |a| && a[j] == y;
      assert names[i] == names[j];
    }
    FirstMatchIgnoresOrder(IsNamed(DECOMMISSION_TARGET), a, b);
  }

  /** The build context after capturing the Tenant GET receipt of t. */
  function Recaptured(c: BuildContext, t: Tenant): BuildContext {
    var e := c.runtime.target.endpoint.(tenantBody := TenantBody(t), tenantSha := Sha256(TenantBody(t)));
    c.(runtime := c.runtime.(target := c.runtime.target.(endpoint := e)))
  }

  lemma BindPoolsIgnoreOrder(tenant: Tenant, other: Tenant, domain: string, ra: seq<AdminPool>, rb: seq<AdminPool>)
    requires tenant.spec.pools.Some? && other.spec.pools.Some?
    requires multiset(tenant.spec.pools.value) == multiset(other.spec.pools.value)
    requires other == tenant.(spec := tenant.spec.(pools := other.spec.pools))
    requires multiset(ra) == multiset(rb)
    requires BindPools(tenant, domain, ra).Some?
    ensures BindPools(other, domain, rb).Some?
    ensures multiset(BindPools(tenant, domain, ra).value) == multiset(BindPools(other, domain, rb).value)
  {
    var specs := tenant.spec.pools.value;
    var f, g := Binder(tenant, domain, ra), Binder(other, domain, rb);
    forall i | 0 <= i < |specs| ensures f(specs[i]) == g(specs[i]) {
      BindPoolIgnoresOrder(specs[i], tenant, other, domain, ra, rb);
    }
    assert Map(f, specs) == Map(g, specs);
    MapPermutation(g, specs, other.spec.pools.value);
    ValuesPermutation(Map(f, specs), Map(g, other.spec.pools.value));
  }

  ghost predicate SameFigures(a: Proof, b: Proof) {
    && a.targetId == b.targetId && a.targetExpression == b.targetExpression
    && a.targetUsed == b.targetUsed && a.remainingFree == b.remainingFree && a.requiredFree == b.requiredFree
  }

  lemma DecideIgnoresOrder(scenario: Scenario, pa: seq<TenantPoolProof>, pb: seq<TenantPoolProof>,
                           ra: seq<AdminPool>, rb: seq<AdminPool>, workload: u64)
    requires multiset(pa) == multiset(pb) && multiset(ra) == multiset(rb)
    requires RuntimePoolsValid(pa, ra)
    ensures RuntimePoolsValid(pb, rb)
    ensures Decide(scenario, pa, ra, workload) == Decide(scenario, pb, rb, workload)
  {
    RuntimePoolsIgnoreOrder(pa, pb, ra, rb);
    PlannedTargetIgnoresOrder(scenario, pa, pb);
    FullCardinalityIffDistinct(Map(PoolId, ra));
    if PlannedTarget(scenario, pa).Some? {
      CapacityIgnoresOrder(PlannedTarget(scenario, pa).value, ra, rb, workload);
    }
  }

  lemma AdmissibleIgnoresOrder(scenario: Scenario, tenant: Tenant, other: Tenant, c: BuildContext)
    requires other == tenant.(spec := tenant.spec.(pools := other.spec.pools))
    requires Admissible(scenario, tenant, Recaptured(c, tenant))
    ensures Admissible(scenario, other, Recaptured(c, other))
  {
    assert EndpointValid(Recaptured(c, other).runtime.target.endpoint);
  }

  lemma DraftIgnoresOrder(scenario: Scenario, tenant: Tenant, other: Tenant,
                          ra: seq<AdminPool>, rb: seq<AdminPool>, c: BuildContext)
    requires tenant.spec.pools.Some? && other.spec.pools.Some?
    requires multiset(tenant.spec.pools.value) == multiset(other.spec.pools.value)
    requires other == tenant.(spec := tenant.spec.(pools := other.spec.pools))
    requires multiset(ra) == multiset(rb)
    requires Draft(scenario, tenant, ra, Recaptured(c, tenant)).Some?
    ensures Draft(scenario, other, rb, Recaptured(c, other)).Some?
    ensures SameFigures(Draft(scenario, tenant, ra, Recaptured(c, tenant)).value,
                        Draft(scenario, other, rb, Recaptured(c, other)).value)
  {
    hide Admissible, BindPools, PlannedTarget, TopologyCapacity, PoolsBound;
    AdmissibleIgnoresOrder(scenario, tenant, other, c);
    BindPoolsIgnoreOrder(tenant, other, c.clusterDomain, ra, rb);
    var pa, pb := BindPools(tenant, c.clusterDomain, ra).value, BindPools(other, c.clusterDomain, rb).value;
    DecideIgnoresOrder(scenario, pa, pb, ra, rb, c.workloadMax);
  }

  /** Permuting the Tenant's pool list or the runtime pool list neither changes
      whether a proof is built nor its target and capacity figures. */
  lemma BuildIgnoresListOrder(scenario: Scenario, tenant: Tenant, other: Tenant,
                              ra: seq<AdminPool>, rb: seq<AdminPool>, c: BuildContext)
    requires tenant.spec.pools.Some? && other.spec.pools.Some?
    requires multiset(tenant.spec.pools.value) == multiset(other.spec.pools.value)
    requires other == tenant.(spec := tenant.spec.(pools := other.spec.pools))
    requires multiset(ra) == multiset(rb)
    ensures var a, b := Build(scenario, tenant, ra, Recaptured(c, tenant)), Build(scenario, other, rb, Recaptured(c, other));
            (a.Some? <==> b.Some?) && (a.Some? ==> SameFigures(a.value, b.value))
  {
    if Draft(scenario, tenant, ra, Recaptured(c, tenant)).Some? {
      DraftIgnoresOrder(scenario, tenant, other, ra, rb, c);
      DraftPassesItsSelfCheck(scenario, tenant, ra, Recaptured(c, tenant));
      DraftPassesItsSelfCheck(scenario, other, rb, Recaptured(c, other));
    } else if Draft(scenario, other, rb, Recaptured(c, other)).Some? {
      DraftIgnoresOrder(scenario, other, tenant, rb, ra, c);
    }
  }

  // ------------------------------------------------------------ Pod names

  function PodName(statefulSet: string, ordinal: nat): string {
    statefulSet + "-" + Decimal(ordinal)
  }

  lemma NoDashAfter(s: string, n: nat)
    ensures PodName(s, n)[|s|] == '-'
    ensures forall i :: |s| < i < |PodName(s, n)| ==> PodName(s, n)[i] != '-'
  {
    forall i | |s| < i < |PodName(s, n)| ensures PodName(s, n)[i] != '-' {
      assert PodName(s, n)[i] == Decimal(n)[i - |s| - 1];
    }
  }

  /** A Pod name splits back uniquely at its last dash. */
  lemma PodNameSplitsUniquely(s: string, m: nat, t: string, n: nat)
    requires PodName(s, m) == PodName(t, n)
    ensures s == t && m == n
  {
    var x := PodName(s, m);
    NoDashAfter(s, m);
    NoDashAfter(t, n);
    assert s == x[..|s|] && t == x[..|t|];
    assert Decimal(m) == x[|s| + 1..] && Decimal(n) == x[|t| + 1..];
    DecimalIsInjective(m, n);
  }

  function PodsOf(t: TenantPoolProof, count: nat): seq<string> {
    seq(count, i requires 0 <= i < count => PodName(t.statefulSetName, i))
  }

  function PodList(pools: seq<TenantPoolProof>): seq<string> {
    if pools == [] then [] else PodList(pools[..|pools| - 1]) + PodsOf(pools[|pools| - 1], pools[|pools| - 1].servers)
  }

  function ServerCount(pools: seq<TenantPoolProof>): nat {
    if pools == [] then 0 else ServerCount(pools[..|pools| - 1]) + pools[|pools| - 1].servers
  }

  lemma {:induction false} PodListMembers(pools: seq<TenantPoolProof>, x: string)
    requires x in PodList(pools)
    ensures exists t, o: nat :: t in pools && x == PodName(t.statefulSetName, o)
  {
    var front, last := pools[..|pools| - 1], pools[|pools| - 1];
    if x in PodList(front) {
      PodListMembers(front, x);
      var t, o: nat :| t in front && x == PodName(t.statefulSetName, o);
      assert t in pools;
    } else {
      var o: nat :| o < last.servers && PodsOf(last, last.servers)[o] == x;
      assert last in pools;
    }
  }

  lemma {:induction false} DistinctSetsGiveDistinctPods(pools: seq<TenantPoolProof>)
    requires forall i, j :: 0 <= i < j < |pools| ==> pools[i].statefulSetName != pools[j].statefulSetName
    ensures Distinct(PodList(pools)) && |PodList(pools)| == ServerCount(pools)
  {
    if pools != [] {
      var front, last := pools[..|pools| - 1], pools[|pools| - 1];
      DistinctSetsGiveDistinctPods(front);
      var a, b := PodList(front), PodsOf(last, last.servers);
      forall i, j | 0 <= i < j < |b| ensures b[i] != b[j] {
        if b[i] == b[j] { PodNameSplitsUniquely(last.statefulSetName, i, last.statefulSetName, j); }
      }
      forall i, j | 0 <= i < |a| && 0 <= j < |b| ensures a[i] != b[j] {
        if a[i] == b[j] {
          PodListMembers(front, a[i]);
          var t, o: nat :| t in front && a[i] == PodName(t.statefulSetName, o);
          PodNameSplitsUniquely(t.statefulSetName, o, last.statefulSetName, j);
          assert false;
        }
      }
    }
  }

  lemma SatisfiedPools(proof: Proof)
    requires Satisfied(proof)
    ensures |proof.tenantPools| > 0 && Distinct(Map(BoundName, proof.tenantPools))
    ensures forall t :: t in proof.tenantPools ==> t.servers > 0 && t.statefulSetName == proof.tenant + "-" + t.name
  {
    hide BindingValid, EndpointForTenant, ReceiptMatchesProof, TopologyCapacity, PlannedTarget, IsBlank;
    FullCardinalityIffDistinct(Map(BoundName, proof.tenantPools));
    forall t | t in proof.tenantPools ensures t.servers > 0 && t.statefulSetName == proof.tenant + "-" + t.name {
      assert PoolOwned(proof, t) && TenantPoolComplete(t);
    }
  }

  lemma SatisfiedProofHasDistinctPods(proof: Proof)
    requires Satisfied(proof)
    ensures Distinct(PodList(proof.tenantPools)) && |PodList(proof.tenantPools)| == ServerCount(proof.tenantPools)
    ensures PodList(proof.tenantPools) != []
  {
    hide Satisfied;
    var pools, prefix := proof.tenantPools, proof.tenant + "-";
    SatisfiedPools(proof);
    var names := Map(BoundName, pools);
    forall i, j | 0 <= i < j < |pools| ensures pools[i].statefulSetName != pools[j].statefulSetName {
      assert pools[i] in pools && pools[j] in pools;
      assert pools[i].statefulSetName == prefix + names[i] && pools[j].statefulSetName == prefix + names[j];
      assert (prefix + names[i])[|prefix|..] == names[i] && (prefix + names[j])[|prefix|..] == names[j];
    }
    DistinctSetsGiveDistinctPods(pools);
    assert pools[|pools| - 1] in pools;
  }

  lemma {:induction false} PodListGrows(pools: seq<TenantPoolProof>, k: nat, count: nat)
    requires k < |pools| && count <= pools[k].servers
    ensures PodList(pools[..k]) + PodsOf(pools[k], count) <= PodList(pools)
    decreases |pools|
  {
    var front := pools[..|pools| - 1];
    if k < |front| {
      PodListGrows(front, k, count);
      assert front[..k] == pools[..k];
    } else {
      assert front == pools[..k];
      assert PodsOf(pools[k], count) <= PodsOf(pools[k], pools[k].servers);
    }
  }

  lemma NoPods()
    ensures PodList([]) == [] && Distinct(PodList([])) && Elements(PodList([])) == {}
  {
  }

  lemma OneMorePod(pools: seq<TenantPoolProof>, i: nat, ordinal: nat)
    requires i < |pools| && ordinal < pools[i].servers
    ensures var seen, name := PodList(pools[..i]) + PodsOf(pools[i], ordinal), PodName(pools[i].statefulSetName, ordinal);
            var all := PodList(pools[..i]) + PodsOf(pools[i], ordinal + 1);
            && Elements(all) == Elements(seen) + {name}
            && (Distinct(seen) && name !in Elements(seen) ==> Distinct(all))
            && (name in Elements(seen) ==> !Distinct(PodList(pools)))
  {
    hide PodList, PodsOf, PodName, Distinct, Elements;
    var seen, name := PodList(pools[..i]) + PodsOf(pools[i], ordinal), PodName(pools[i].statefulSetName, ordinal);
    PodsOfGrows(pools[i], ordinal);
    assert PodList(pools[..i]) + PodsOf(pools[i], ordinal + 1) == seen + [name];
    PodListGrows(pools, i, ordinal + 1);
    TakeOne(seen, name, PodList(pools));
  }

  lemma PodsOfGrows(t: TenantPoolProof, count: nat)
    ensures PodsOf(t, count + 1) == PodsOf(t, count) + [PodName(t.statefulSetName, count)]
  {
  }

  lemma TakeOne<T>(seen: seq<T>, x: T, whole: seq<T>)
    requires seen + [x] <= whole
    ensures Elements(seen + [x]) == Elements(seen) + {x}
    ensures Distinct(seen) && x !in Elements(seen) ==> Distinct(seen + [x])
    ensures x in Elements(seen) ==> !Distinct(whole)
  {
    if x in Elements(seen) {
      var k :| 0 <= k < |seen| && seen[k] == x;
      assert whole[k] == (seen + [x])[k] && whole[|seen|] == (seen + [x])[|seen|];
    }
  }

  /** AdminTopologyProof::expected_pod_names */
  method ExpectedPodNames(proof: Proof) returns (names: Option<set<string>>)
    ensures names.Some? <==> Distinct(PodList(proof.tenantPools)) && PodList(proof.tenantPools) != []
    ensures names.Some? ==> names.value == Elements(PodList(proof.tenantPools))
    ensures Satisfied(proof) ==> names.Some? && |names.value| == ServerCount(proof.tenantPools)
  {
    hide Satisfied, ServerCount, PodName, Distinct, Elements;
    NoPods();
    var pools := proof.tenantPools;
    if Satisfied(proof) { SatisfiedProofHasDistinctPods(proof); FullCardinalityIffDistinct(PodList(pools)); }
    var found: set<string> := {};
    for i := 0 to |pools|
      invariant Distinct(PodList(pools[..i])) && found == Elements(PodList(pools[..i]))
    {
      assert PodsOf(pools[i], 0) == [] && PodList(pools[..i]) + [] == PodList(pools[..i]);
      for ordinal := 0 to pools[i].servers
        invariant Distinct(PodList(pools[..i]) + PodsOf(pools[i], ordinal))
        invariant found == Elements(PodList(pools[..i]) + PodsOf(pools[i], ordinal))
      {
        var name := PodName(pools[i].statefulSetName, ordinal);
        OneMorePod(pools, i, ordinal);
        if name in found {
          return None;
        }
        found := found + {name};
      }
      assert pools[..i + 1][..i] == pools[..i];
    }
    assert pools[..|pools|] == pools;
    EmptyElements(PodList(pools));
    if found == {} {
      return None;
    }
    return Some(found);
  }
}
