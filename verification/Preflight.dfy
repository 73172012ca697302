/** What a built topology proof says of the cluster, in the fields of the Tenant
    and of the pools/list answer, and what keeps a proof from being built
    (AdminTopologyProof::build in src/fault/admin_topology.rs). */
module Preflight {
  import opened Basics
  import opened Receipts
  import opened TopologyProof

  lemma BuiltIsSatisfied(scenario: Scenario, tenant: Tenant, runtime: seq<AdminPool>, c: BuildContext)
    requires Build(scenario, tenant, runtime, c).Some?
    ensures var proof := Build(scenario, tenant, runtime, c).value;
            && Satisfied(proof) && Draft(scenario, tenant, runtime, c) == Some(proof)
            && proof.runtimePools == runtime && proof.scenario == scenario && proof.runtime == c.runtime
            && proof.tenant == tenant.name && proof.namespace == tenant.namespace && proof.workloadMax == c.workloadMax
            && proof.attempt == Attempt(c.runId, c.caseName, tenant.uid)
  {
    hide Satisfied, Admissible, BindPools, Decide;
  }

  lemma SatisfiedPoolsAreValid(proof: Proof)
    requires Satisfied(proof)
    ensures RuntimePoolsValid(proof.tenantPools, proof.runtimePools)
  {
    hide PoolsBound, BindingValid, EndpointForTenant, ReceiptMatchesProof, TopologyCapacity, PlannedTarget, IsBlank, PoolOwned;
  }

  /** No pool of a built proof is under another operation, and the sizes it reports add up. */
  lemma BuiltProofIsOfAnIdleCluster(scenario: Scenario, tenant: Tenant, runtime: seq<AdminPool>, c: BuildContext)
    requires Build(scenario, tenant, runtime, c).Some?
    ensures |runtime| == 2
    ensures forall p :: p in runtime ==>
              && (p.status == Active || p.status == Ready) && p.decommissionStatus == NoWord && p.decommission == None
              && (p.rebalanceStatus == NoWord || p.rebalanceStatus == Completed)
    ensures forall p :: p in runtime ==> p.currentSize + p.usedSize == p.totalSize > 0 && RatioIsRight(p)
    ensures forall i, j :: 0 <= i < j < |runtime| ==> runtime[i].id != runtime[j].id && Trim(runtime[i].expression) != Trim(runtime[j].expression)
    ensures forall p :: p in runtime ==> Trim(p.expression) != ""
  {
    hide Satisfied, Build, Draft, PoolsBound;
    BuiltIsSatisfied(scenario, tenant, runtime, c);
    var proof := Build(scenario, tenant, runtime, c).value;
    SatisfiedPoolsAreValid(proof);
    ValidPoolsRead(proof.tenantPools, runtime);
  }

  /** The reported ratio is that of the reported sizes, within a millionth. */
  ghost predicate RatioIsRight(p: AdminPool) {
    && p.totalSize > 0 && 0.0 <= p.used <= 1.0
    && p.usedSize as real / p.totalSize as real - 0.000001 <= p.used <= p.usedSize as real / p.totalSize as real + 0.000001
  }

  lemma ValidPoolsRead(tenantPools: seq<TenantPoolProof>, runtime: seq<AdminPool>)
    requires RuntimePoolsValid(tenantPools, runtime)
    ensures |tenantPools| == 2 && |runtime| == 2
    ensures forall p :: p in runtime ==>
              && (p.status == Active || p.status == Ready) && p.decommissionStatus == NoWord && p.decommission == None
              && (p.rebalanceStatus == NoWord || p.rebalanceStatus == Completed)
    ensures forall p :: p in runtime ==> p.currentSize + p.usedSize == p.totalSize > 0 && RatioIsRight(p)
    ensures forall i, j :: 0 <= i < j < |runtime| ==> runtime[i].id != runtime[j].id && Trim(runtime[i].expression) != Trim(runtime[j].expression)
    ensures forall p :: p in runtime ==> Trim(p.expression) != ""
  {
    hide WireInvariants, TenantPoolComplete, Binds, RatioIsRight;
    WiresRead(runtime);
  }

  /** What the wire invariants of a pools/list answer say. */
  lemma WiresRead(pools: seq<AdminPool>)
    requires WireInvariants(pools)
    ensures pools != []
    ensures forall p :: p in pools ==> p.currentSize + p.usedSize == p.totalSize > 0 && RatioIsRight(p)
    ensures forall i, j :: 0 <= i < j < |pools| ==> pools[i].id != pools[j].id && Trim(pools[i].expression) != Trim(pools[j].expression)
    ensures forall p :: p in pools ==> Trim(p.expression) != ""
  {
    hide SizesConsistent, Trim, RatioIsRight;
    var ids, expressions := Map(PoolId, pools), Map(PoolExpression, pools);
    FullCardinalityIffDistinct(ids);
    FullCardinalityIffDistinct(expressions);
    forall i, j | 0 <= i < j < |pools| ensures pools[i].id != pools[j].id && Trim(pools[i].expression) != Trim(pools[j].expression) {
      assert ids[i] != ids[j] && expressions[i] != expressions[j];
    }
    forall p | p in pools ensures p.currentSize + p.usedSize == p.totalSize > 0 && RatioIsRight(p) {
      SizesRead(p);
    }
    forall p | p in pools ensures Trim(p.expression) != "" {
      assert PoolExpression(p) != "";
    }
  }

  lemma SizesRead(p: AdminPool)
    requires SizesConsistent(p)
    ensures p.currentSize + p.usedSize == p.totalSize > 0 && RatioIsRight(p)
  {
  }

  /** So a busy pool, or one whose sizes do not add up, keeps a proof from being built. */
  lemma BusyPoolPreventsAProof(scenario: Scenario, tenant: Tenant, runtime: seq<AdminPool>, c: BuildContext, p: AdminPool)
    requires p in runtime
    requires || (p.status != Active && p.status != Ready) || p.decommissionStatus != NoWord || p.decommission.Some?
             || (p.rebalanceStatus != NoWord && p.rebalanceStatus != Completed)
             || p.totalSize == 0 || p.currentSize + p.usedSize != p.totalSize || !RatioIsRight(p)
    ensures Build(scenario, tenant, runtime, c).None?
  {
    hide Build, RatioIsRight;
    if Build(scenario, tenant, runtime, c).Some? {
      BuiltProofIsOfAnIdleCluster(scenario, tenant, runtime, c);
    }
  }

  // --------------------------------------------------- whose proof it is

  lemma CaseReads(scenario: Scenario, caseName: string)
    requires CaseMatches(scenario, caseName)
    ensures scenario.Decommission? || scenario.Rebalance?
    ensures caseName == (if scenario.Decommission? then "fault" + "_admin_decommission_preserves_object_model"
                         else "fault" + "_admin_rebalance_preserves_object_model")
  {
  }

  lemma DraftIsAdmissible(scenario: Scenario, tenant: Tenant, runtime: seq<AdminPool>, c: BuildContext)
    requires Build(scenario, tenant, runtime, c).Some?
    ensures Admissible(scenario, tenant, c)
    ensures var proof := Build(scenario, tenant, runtime, c).value;
            proof.satisfied && proof.mutuallyExclusive && proof.guardPercent == 130
  {
    hide Satisfied, Admissible, BindPools, Decide;
  }

  /** A built proof is of the scenario's own case and of the captured Tenant, seen
      through that Tenant's own Service and answered by a named deployment. */
  lemma BuiltProofIsOfThisTenant(scenario: Scenario, tenant: Tenant, runtime: seq<AdminPool>, c: BuildContext)
    requires Build(scenario, tenant, runtime, c).Some?
    ensures scenario.Decommission? || scenario.Rebalance?
    ensures c.caseName == (if scenario.Decommission? then "fault" + "_admin_decommission_preserves_object_model"
                           else "fault" + "_admin_rebalance_preserves_object_model")
    ensures !IsBlank(c.runId) && !IsBlank(c.clusterDomain) && c.workloadMax > 0
    ensures BindingValid(c.runtime) && c.runtime.target.endpoint.tenantBody == TenantBody(tenant)
    ensures var named := c.runtime.target.endpoint.identity;
            named.namespace == tenant.namespace && named.serviceName == tenant.name + "-io" && named.tenantName == tenant.name && named.tenantUid == tenant.uid
    ensures var proof := Build(scenario, tenant, runtime, c).value;
            && proof.attempt == Attempt(c.runId, c.caseName, tenant.uid) && proof.scenario == scenario
            && proof.tenant == tenant.name && proof.namespace == tenant.namespace && proof.runtime == c.runtime
            && proof.runtimePools == runtime && proof.workloadMax == c.workloadMax && proof.guardPercent == 130
            && proof.satisfied && proof.mutuallyExclusive
  {
    hide Build, Draft, Satisfied, IsBlank, BindingValid, EndpointValid, CaseMatches;
    BuiltIsSatisfied(scenario, tenant, runtime, c);
    DraftIsAdmissible(scenario, tenant, runtime, c);
    CaseReads(scenario, c.caseName);
  }

  // ------------------------------------------------------ its pools

  lemma {:induction false} SlashesTrimmed(s: string)
    ensures TrimSlashes(s) <= s && (TrimSlashes(s) != "" ==> TrimSlashes(s)[|TrimSlashes(s)| - 1] != '/')
    ensures forall i :: |TrimSlashes(s)| <= i < |s| ==> s[i] == '/'
  {
    if s != [] && s[|s| - 1] == '/' {
      SlashesTrimmed(s[..|s| - 1]);
    }
  }

  /** The data path of a pool: the declared one, or /data, absolute and without trailing slashes. */
  ghost predicate IsDataPath(path: string, declared: Option<string>) {
    var given := if declared.Some? then declared.value else "/data";
    && path <= given && (forall i :: |path| <= i < |given| ==> given[i] == '/')
    && path != "" && path[0] == '/' && path[|path| - 1] != '/'
  }

  lemma DataPathIsUnique(path: string, declared: Option<string>)
    requires IsDataPath(path, declared)
    ensures TrimSlashes(if declared.Some? then declared.value else "/data") == path
  {
    var given := if declared.Some? then declared.value else "/data";
    SlashesTrimmed(given);
    var trimmed := TrimSlashes(given);
    assert path == given[..|path|] && trimmed == given[..|trimmed|];
  }

  /** The cmdline a pool of this Tenant runs with. */
  function Cmdline(t: TenantPoolProof, tenant: Tenant, domain: string): string
    requires t.servers > 0 && t.volumesPerServer > 0
  {
    t.scheme + "://" + (tenant.name + "-" + t.name) + "-{0..." + Decimal(t.servers - 1) + "}." + tenant.name + "-hl." + tenant.namespace
    + ".svc." + domain + ":9000" + t.dataPath + "/rustfs{0..." + Decimal(t.volumesPerServer - 1) + "}"
  }

  /** The pool is bound as declared: its StatefulSet, its cmdline and the one
      runtime pool that runs with it. */
  ghost predicate BoundAsDeclared(t: TenantPoolProof, spec: PoolSpec, tenant: Tenant, domain: string, runtime: seq<AdminPool>) {
    && spec.name == Some(t.name) && !IsBlank(t.name)
    && spec.servers == Some(t.servers) && t.servers > 0 && spec.volumesPerServer == Some(t.volumesPerServer) && t.volumesPerServer > 0
    && t.tenantUid == tenant.uid && t.clusterDomain == domain && IsDataPath(t.dataPath, spec.path)
    && t.scheme == (if tenant.spec.internodeHttps then "https" else "http")
    && t.statefulSetName == tenant.name + "-" + t.name
    && t.expectedEndpointSet == Cmdline(t, tenant, domain)
    && exists i: nat :: RunsAlone(t, runtime, i)
  }

  ghost predicate RunsAlone(t: TenantPoolProof, runtime: seq<AdminPool>, i: nat) {
    && i < |runtime| && runtime[i].id == t.runtimePoolId
    && forall k :: 0 <= k < |runtime| ==> (Trim(runtime[k].expression) == t.expectedEndpointSet <==> k == i)
  }

  lemma EndpointSetReads(t: TenantPoolProof, tenant: Tenant, domain: string)
    requires t.servers > 0 && t.volumesPerServer > 0 && t.dataPath != "" && t.dataPath[0] == '/' && t.dataPath[|t.dataPath| - 1] != '/'
    requires (t.scheme == "http" || t.scheme == "https") && !IsBlank(t.name)
    requires !IsBlank(tenant.name) && !IsBlank(tenant.namespace) && !IsBlank(domain)
    ensures EndpointSet(tenant.name, t.name, tenant.namespace, t.scheme, domain, t.dataPath, t.servers, t.volumesPerServer)
            == Some((tenant.name + "-" + t.name, Cmdline(t, tenant, domain)))
  {
    hide IsBlank;
  }

  /** A declared pool is bound exactly so. */
  lemma PoolIsBoundIff(t: TenantPoolProof, spec: PoolSpec, tenant: Tenant, domain: string, runtime: seq<AdminPool>)
    requires !IsBlank(tenant.name) && !IsBlank(tenant.namespace) && !IsBlank(domain)
    ensures BindPool(spec, tenant, domain, runtime) == Some(t) <==> BoundAsDeclared(t, spec, tenant, domain, runtime)
  {
    hide IsBlank, Trim, EndpointSet, Cmdline, Filter;
    if BindPool(spec, tenant, domain, runtime) == Some(t) {
      SlashesTrimmed(if spec.path.Some? then spec.path.value else "/data");
      EndpointSetReads(t, tenant, domain);
      var i := SoleFilterIndex(ExpressionIs(t.expectedEndpointSet), runtime);
      assert RunsAlone(t, runtime, i);
    }
    if BoundAsDeclared(t, spec, tenant, domain, runtime) {
      DataPathIsUnique(t.dataPath, spec.path);
      EndpointSetReads(t, tenant, domain);
      var i: nat :| RunsAlone(t, runtime, i);
      FilterHasOne(ExpressionIs(t.expectedEndpointSet), runtime, i);
    }
  }

  /** A built proof binds the two declared pools in order, each as declared, and
      its target is the pool the plan names. */
  lemma BuiltProofBindsTheDeclaredPools(scenario: Scenario, tenant: Tenant, runtime: seq<AdminPool>, c: BuildContext)
    requires Build(scenario, tenant, runtime, c).Some?
    ensures tenant.spec.pools.Some?
    ensures var proof, specs := Build(scenario, tenant, runtime, c).value, tenant.spec.pools.value;
            && |specs| == 2 && |proof.tenantPools| == 2 && proof.tenantPools[0].name != proof.tenantPools[1].name
            && proof.tenantPools[0].runtimePoolId != proof.tenantPools[1].runtimePoolId
            && (forall i :: 0 <= i < 2 ==> BoundAsDeclared(proof.tenantPools[i], specs[i], tenant, c.clusterDomain, runtime))
            && (if scenario.Rebalance? then proof.targetId.None?
                else exists t :: t in proof.tenantPools && t.name == "decommission-target" && proof.targetId == Some(t.runtimePoolId))
  {
    hide Satisfied, Admissible, IsBlank, BindPool, BoundAsDeclared, PoolsBound, TopologyCapacity, WireInvariants;
    BuiltIsSatisfied(scenario, tenant, runtime, c);
    BuiltProofIsOfThisTenant(scenario, tenant, runtime, c);
    var proof, specs := Build(scenario, tenant, runtime, c).value, tenant.spec.pools.value;
    var options := Map(Binder(tenant, c.clusterDomain, runtime), specs);
    assert Values(options) == Some(proof.tenantPools);
    forall i | 0 <= i < |specs| ensures BoundAsDeclared(proof.tenantPools[i], specs[i], tenant, c.clusterDomain, runtime) {
      assert options[i] in options;
      PoolIsBoundIff(proof.tenantPools[i], specs[i], tenant, c.clusterDomain, runtime);
    }
    NamesDiffer(proof.tenantPools, runtime);
  }

  lemma NamesDiffer(tenantPools: seq<TenantPoolProof>, runtime: seq<AdminPool>)
    requires RuntimePoolsValid(tenantPools, runtime)
    ensures |tenantPools| == 2 && tenantPools[0].name != tenantPools[1].name && tenantPools[0].runtimePoolId != tenantPools[1].runtimePoolId
  {
    hide WireInvariants, TenantPoolComplete, Binds, PoolIsIdle;
    FullCardinalityIffDistinct(Map(BoundName, tenantPools));
    FullCardinalityIffDistinct(Map(BoundId, tenantPools));
    assert Map(BoundName, tenantPools)[0] != Map(BoundName, tenantPools)[1];
    assert Map(BoundId, tenantPools)[0] != Map(BoundId, tenantPools)[1];
  }

  /** The capacity figures of a built proof, in plain sums: what must be free is
      the workload and, for a decommission, 130% of the target's bytes rounded up. */
  lemma BuiltProofHasRoom(scenario: Scenario, tenant: Tenant, runtime: seq<AdminPool>, c: BuildContext)
    requires Build(scenario, tenant, runtime, c).Some?
    ensures var proof := Build(scenario, tenant, runtime, c).value;
            && proof.remainingFree == SumBy(FreeOf(proof.targetId), runtime) && proof.requiredFree <= proof.remainingFree
            && (proof.targetId.None? ==> proof.requiredFree == c.workloadMax && proof.targetExpression.None?)
            && (proof.targetId.Some? ==>
                  exists p :: p in runtime && p.id == proof.targetId.value && p.usedSize == proof.targetUsed > 0
                    && proof.targetExpression == Some(p.expression)
                    && IsCeilingOf130Percent(proof.requiredFree - c.workloadMax, p.usedSize))
  {
    hide Satisfied, Admissible, BindPools, PoolsBound, SumBy, PlannedTarget, CheckedFree;
    BuiltIsSatisfied(scenario, tenant, runtime, c);
    var proof := Build(scenario, tenant, runtime, c).value;
    FitsAs(proof);
    CapacityReads(proof.targetId, runtime, c.workloadMax);
  }

  lemma FitsAs(proof: Proof)
    requires Satisfied(proof)
    ensures TopologyCapacity(proof.targetId, proof.runtimePools, proof.workloadMax)
            == Fits(proof.targetExpression, proof.targetUsed, proof.remainingFree, proof.requiredFree)
  {
    hide PoolsBound, BindingValid, EndpointForTenant, ReceiptMatchesProof, TopologyCapacity, PlannedTarget, IsBlank, PoolOwned;
  }

  lemma CapacityReads(target: Option<nat>, pools: seq<AdminPool>, workload: u64)
    requires TopologyCapacity(target, pools, workload).Fits?
    ensures var r := TopologyCapacity(target, pools, workload);
            && r.remainingFree == SumBy(FreeOf(target), pools) && r.requiredFree <= r.remainingFree
            && (target.None? ==> r.requiredFree == workload && r.targetExpression.None?)
            && (target.Some? ==>
                  exists p :: p in pools && p.id == target.value && p.usedSize == r.targetUsed > 0 && r.targetExpression == Some(p.expression)
                    && IsCeilingOf130Percent(r.requiredFree - workload, p.usedSize))
  {
    hide SumBy, CheckedFree;
    CheckedFreeIsTheSum(target, pools, 0);
    if target.Some? {
      var p := pools[FirstIndex(HasId(target.value), pools)];
      assert p in pools && HasId(target.value)(p);
    }
  }

  // ------------------------------------------- exactly when one is built

  /** Two declared pools, bound as declared to the two pools that run, which are
      idle, well described and told apart by id and by cmdline. */
  ghost predicate ReadyCluster(pools: seq<TenantPoolProof>, tenant: Tenant, domain: string, runtime: seq<AdminPool>)
    requires tenant.spec.pools.Some?
  {
    && |pools| == 2 && |tenant.spec.pools.value| == 2 && |runtime| == 2
    && pools[0].name != pools[1].name && pools[0].runtimePoolId != pools[1].runtimePoolId
    && (forall i :: 0 <= i < 2 ==> BoundAsDeclared(pools[i], tenant.spec.pools.value[i], tenant, domain, runtime))
    && runtime[0].id != runtime[1].id && Trim(runtime[0].expression) != Trim(runtime[1].expression)
    && forall p :: p in runtime ==>
         && (p.status == Active || p.status == Ready) && p.decommissionStatus == NoWord && p.decommission == None
         && (p.rebalanceStatus == NoWord || p.rebalanceStatus == Completed)
         && p.currentSize + p.usedSize == p.totalSize > 0 && RatioIsRight(p) && Trim(p.expression) != ""
  }

  lemma SizesReadBack(p: AdminPool)
    requires p.currentSize + p.usedSize == p.totalSize > 0 && RatioIsRight(p)
    ensures SizesConsistent(p)
  {
  }

  lemma BoundIsComplete(t: TenantPoolProof, spec: PoolSpec, tenant: Tenant, domain: string, runtime: seq<AdminPool>)
    requires BoundAsDeclared(t, spec, tenant, domain, runtime) && !IsBlank(tenant.uid) && !IsBlank(domain)
    ensures TenantPoolComplete(t) && exists p :: p in runtime && Binds(t, p)
  {
    hide IsBlank, Trim, Cmdline;
    BoundIsFound(t, runtime);
    StartsVisibly(t.dataPath);
    CmdlineStartsVisibly(t, tenant, domain);
    NameShows(tenant.name + "-", t.name);
  }

  lemma BoundIsFound(t: TenantPoolProof, runtime: seq<AdminPool>)
    requires exists i: nat :: RunsAlone(t, runtime, i)
    ensures exists p :: p in runtime && Binds(t, p)
  {
    hide Trim;
    var i: nat :| RunsAlone(t, runtime, i);
    assert runtime[i] in runtime && Binds(t, runtime[i]);
  }

  lemma StartsVisibly(text: string)
    requires text != "" && (text[0] == 'h' || text[0] == '/')
    ensures !IsBlank(text)
  {
    assert !IsWhitespace(text[0]);
  }

  lemma CmdlineStartsVisibly(t: TenantPoolProof, tenant: Tenant, domain: string)
    requires t.servers > 0 && t.volumesPerServer > 0 && (t.scheme == "http" || t.scheme == "https")
    ensures !IsBlank(Cmdline(t, tenant, domain))
  {
    hide Decimal, IsBlank;
    StartsVisibly(Cmdline(t, tenant, domain));
  }

  lemma NameShows(prefix: string, name: string)
    requires !IsBlank(name)
    ensures !IsBlank(prefix + name)
  {
    var k :| 0 <= k < |name| && !IsWhitespace(name[k]);
    assert (prefix + name)[|prefix| + k] == name[k];
  }

  lemma ReadyPoolsAreValid(pools: seq<TenantPoolProof>, tenant: Tenant, domain: string, runtime: seq<AdminPool>)
    requires tenant.spec.pools.Some? && ReadyCluster(pools, tenant, domain, runtime)
    requires !IsBlank(tenant.uid) && !IsBlank(domain)
    ensures RuntimePoolsValid(pools, runtime)
  {
    hide BoundAsDeclared, RatioIsRight, WireInvariants, Trim, IsBlank, TenantPoolComplete, Binds, Elements;
    FullCardinalityIffDistinct(Map(BoundName, pools));
    FullCardinalityIffDistinct(Map(BoundId, pools));
    ReadyWires(runtime);
    BoundIsComplete(pools[0], tenant.spec.pools.value[0], tenant, domain, runtime);
    BoundIsComplete(pools[1], tenant.spec.pools.value[1], tenant, domain, runtime);
    assert pools == [pools[0], pools[1]];
  }

  lemma ReadyWires(runtime: seq<AdminPool>)
    requires |runtime| == 2 && runtime[0].id != runtime[1].id && Trim(runtime[0].expression) != Trim(runtime[1].expression)
    requires forall p :: p in runtime ==> p.currentSize + p.usedSize == p.totalSize > 0 && RatioIsRight(p) && Trim(p.expression) != ""
    ensures WireInvariants(runtime)
  {
    hide RatioIsRight, SizesConsistent, Trim, Elements;
    FullCardinalityIffDistinct(Map(PoolId, runtime));
    FullCardinalityIffDistinct(Map(PoolExpression, runtime));
    forall p | p in runtime ensures SizesConsistent(p) {
      SizesReadBack(p);
    }
  }

  /** A topology proof is built exactly when the attempt is admissible, the
      cluster is ready, the plan finds its target and the capacity suffices. */
  lemma ProofIsBuiltIff(scenario: Scenario, tenant: Tenant, runtime: seq<AdminPool>, c: BuildContext)
    ensures Build(scenario, tenant, runtime, c).Some? <==>
              && Admissible(scenario, tenant, c) && tenant.spec.pools.Some?
              && exists pools :: ReadyCluster(pools, tenant, c.clusterDomain, runtime) && MayProceed(scenario, pools, runtime, c.workloadMax)
  {
    hide Admissible, ReadyCluster, MayProceed, Build;
    if Build(scenario, tenant, runtime, c).Some? {
      BuiltClusterIsReady(scenario, tenant, runtime, c);
    }
    if Admissible(scenario, tenant, c) && tenant.spec.pools.Some? {
      forall pools | ReadyCluster(pools, tenant, c.clusterDomain, runtime) && MayProceed(scenario, pools, runtime, c.workloadMax)
        ensures Build(scenario, tenant, runtime, c).Some?
      {
        ReadyClusterIsBuilt(scenario, tenant, runtime, c, pools);
      }
    }
  }

  /** The pool to decommission is declared, and there is room; a rebalance has no target. */
  ghost predicate MayProceed(scenario: Scenario, pools: seq<TenantPoolProof>, runtime: seq<AdminPool>, workload: u64) {
    if scenario.Decommission?
    then exists t :: t in pools && t.name == "decommission-target" && TopologyCapacity(Some(t.runtimePoolId), runtime, workload).Fits?
    else scenario.Rebalance? && TopologyCapacity(None, runtime, workload).Fits?
  }

  lemma AdmissibleReads(scenario: Scenario, tenant: Tenant, c: BuildContext)
    requires Admissible(scenario, tenant, c)
    ensures !IsBlank(tenant.name) && !IsBlank(tenant.uid) && !IsBlank(tenant.namespace) && !IsBlank(c.clusterDomain)
    ensures scenario.Decommission? || scenario.Rebalance?
  {
    hide IsBlank, BindingValid;
  }

  lemma PlanReads(scenario: Scenario, pools: seq<TenantPoolProof>)
    requires |pools| == 2 && pools[0].name != pools[1].name && (scenario.Decommission? || scenario.Rebalance?)
    ensures scenario.Rebalance? ==> PlannedTarget(scenario, pools) == Some(None)
    ensures scenario.Decommission? ==>
              (PlannedTarget(scenario, pools).Some? <==> exists t :: t in pools && t.name == "decommission-target")
    ensures forall t :: scenario.Decommission? && t in pools && t.name == "decommission-target" ==>
              PlannedTarget(scenario, pools) == Some(Some(t.runtimePoolId))
  {
    if scenario.Decommission? {
      var test := IsNamed(DECOMMISSION_TARGET);
      var k := FirstIndex(test, pools);
      forall t | t in pools && t.name == "decommission-target" ensures k < |pools| && pools[k] == t {
        var j :| 0 <= j < |pools| && pools[j] == t;
        assert test(pools[j]);
      }
    }
  }

  lemma BuiltClusterIsReady(scenario: Scenario, tenant: Tenant, runtime: seq<AdminPool>, c: BuildContext)
    requires Build(scenario, tenant, runtime, c).Some?
    ensures Admissible(scenario, tenant, c) && tenant.spec.pools.Some?
    ensures var pools := Build(scenario, tenant, runtime, c).value.tenantPools;
            ReadyCluster(pools, tenant, c.clusterDomain, runtime) && MayProceed(scenario, pools, runtime, c.workloadMax)
  {
    hide Build, Draft, Admissible, BoundAsDeclared, RatioIsRight, Trim, Satisfied, TopologyCapacity, PlannedTarget;
    DraftIsAdmissible(scenario, tenant, runtime, c);
    AdmissibleReads(scenario, tenant, c);
    BuiltProofIsOfAnIdleCluster(scenario, tenant, runtime, c);
    BuiltProofBindsTheDeclaredPools(scenario, tenant, runtime, c);
    BuiltIsSatisfied(scenario, tenant, runtime, c);
    FitsAs(Build(scenario, tenant, runtime, c).value);
  }

  lemma ReadyClusterIsBuilt(scenario: Scenario, tenant: Tenant, runtime: seq<AdminPool>, c: BuildContext, pools: seq<TenantPoolProof>)
    requires Admissible(scenario, tenant, c) && tenant.spec.pools.Some?
    requires ReadyCluster(pools, tenant, c.clusterDomain, runtime) && MayProceed(scenario, pools, runtime, c.workloadMax)
    ensures Build(scenario, tenant, runtime, c).Some?
  {
    hide Build, Admissible, ReadyCluster, BindPools, RuntimePoolsValid, PlannedTarget, TopologyCapacity;
    AdmissibleReads(scenario, tenant, c);
    ReadyPoolsAreValid(pools, tenant, c.clusterDomain, runtime);
    ReadyPoolsBind(tenant, c.clusterDomain, runtime, pools);
    PlanReads(scenario, pools);
    assert Draft(scenario, tenant, runtime, c).Some?;
    DraftPassesItsSelfCheck(scenario, tenant, runtime, c);
  }

  lemma ReadyPoolsBind(tenant: Tenant, domain: string, runtime: seq<AdminPool>, pools: seq<TenantPoolProof>)
    requires tenant.spec.pools.Some? && ReadyCluster(pools, tenant, domain, runtime)
    requires !IsBlank(tenant.name) && !IsBlank(tenant.uid) && !IsBlank(tenant.namespace) && !IsBlank(domain)
    ensures BindPools(tenant, domain, runtime) == Some(pools) && |pools| == 2 && pools[0].name != pools[1].name
  {
    hide IsBlank, BoundAsDeclared, BindPool, RatioIsRight, Trim;
    var specs := tenant.spec.pools.value;
    var options := Map(Binder(tenant, domain, runtime), specs);
    forall i | 0 <= i < 2 ensures options[i] == Some(pools[i]) {
      PoolIsBoundIff(pools[i], specs[i], tenant, domain, runtime);
    }
    assert options == [Some(pools[0]), Some(pools[1])];
    assert Values(options).value == pools;
  }

  // ------------------------------------- the self-check and the builder

  /** The context a proof was built in, as the proof records it. */
  function ContextOf(proof: Proof): BuildContext
    requires proof.tenantPools != []
  {
    BuildContext(proof.attempt.runId, proof.attempt.caseName, proof.tenantPools[0].clusterDomain, proof.workloadMax, proof.runtime)
  }

  /** The self-check accepts nothing but what the builder makes: a proof of the
      scenario's own case is satisfied exactly when building anew from the Tenant
      it captured and the pools it lists yields this very proof. */
  lemma SatisfiedIffRebuilt(proof: Proof)
    requires CaseMatches(proof.scenario, proof.attempt.caseName)
    ensures Satisfied(proof) <==>
              && proof.tenantPools != [] && proof.runtime.target.endpoint.tenantBody.TenantBody?
              && Build(proof.scenario, proof.runtime.target.endpoint.tenantBody.tenant, proof.runtimePools, ContextOf(proof)) == Some(proof)
  {
    hide Satisfied, Build, Draft;
    if Satisfied(proof) {
      SatisfiedIsAdmissible(proof);
      SatisfiedIsDrafted(proof);
      DraftPassesItsSelfCheck(proof.scenario, proof.runtime.target.endpoint.tenantBody.tenant, proof.runtimePools, ContextOf(proof));
    } else if proof.tenantPools != [] && proof.runtime.target.endpoint.tenantBody.TenantBody? {
      var tenant := proof.runtime.target.endpoint.tenantBody.tenant;
      if Build(proof.scenario, tenant, proof.runtimePools, ContextOf(proof)).Some? {
        BuiltIsSatisfied(proof.scenario, tenant, proof.runtimePools, ContextOf(proof));
      }
    }
  }

  lemma SatisfiedIsAdmissible(proof: Proof)
    requires Satisfied(proof) && CaseMatches(proof.scenario, proof.attempt.caseName)
    ensures proof.tenantPools != [] && proof.runtime.target.endpoint.tenantBody.TenantBody?
    ensures Admissible(proof.scenario, proof.runtime.target.endpoint.tenantBody.tenant, ContextOf(proof))
  {
    hide BindPools, TopologyCapacity, PlannedTarget, IsBlank, PoolOwned, BindingValid, PoolsBound, CaseMatches, EndpointValid;
    FitsAs(proof);
    BudgetIsPositive(proof.targetId, proof.runtimePools, proof.workloadMax);
    DomainIsNamed(proof);
    EndpointReads(proof.runtime.target.endpoint);
  }

  lemma BudgetIsPositive(target: Option<nat>, pools: seq<AdminPool>, workload: u64)
    requires TopologyCapacity(target, pools, workload).Fits?
    ensures workload > 0
  {
  }

  lemma DomainIsNamed(proof: Proof)
    requires RuntimePoolsValid(proof.tenantPools, proof.runtimePools)
    ensures !IsBlank(proof.tenantPools[0].clusterDomain)
  {
    hide WireInvariants, Binds, PoolIsIdle, IsBlank;
    assert proof.tenantPools[0] in proof.tenantPools;
  }

  lemma SatisfiedIsDrafted(proof: Proof)
    requires Satisfied(proof) && proof.tenantPools != [] && proof.runtime.target.endpoint.tenantBody.TenantBody?
    requires Admissible(proof.scenario, proof.runtime.target.endpoint.tenantBody.tenant, ContextOf(proof))
    ensures Draft(proof.scenario, proof.runtime.target.endpoint.tenantBody.tenant, proof.runtimePools, ContextOf(proof)) == Some(proof)
  {
    hide Admissible, BindPools, TopologyCapacity, PlannedTarget, IsBlank, PoolOwned, BindingValid, EndpointForTenant, RuntimePoolsValid;
  }
}
