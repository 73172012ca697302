/** A concrete cluster of two pools, its topology proofs and its receipts: the
    ground on which the example runs stand. */
module ExampleCluster {
  import opened Basics
  import opened Receipts
  import opened TopologyProof
  import opened StatusProjection
  import opened Evidence

  const TARGET := DECOMMISSION_TARGET
  const DOMAIN := "d"
  const PATH := "/data"

  function Spec(name: string): PoolSpec {
    PoolSpec(Some(name), Some(1), Some(1), Some(PATH))
  }

  const TENANT := Tenant("t", "u", "n", "1", TenantSpec(false, Some([Spec("a"), Spec(TARGET)])))

  function Cmdline(name: string): string {
    "http" + "://" + ("t" + "-" + name) + "-{0..." + Decimal(0) + "}." + "t" + "-hl." + "n" + ".svc." + DOMAIN + ":9000" + PATH + "/rustfs{0..." + Decimal(0) + "}"
  }

  function Pool(id: nat, name: string): AdminPool {
    AdminPool(id, Cmdline(name), Active, NoWord, NoWord, 11, 10, 1, 1.0 / 11.0, None)
  }

  const POOLS := [Pool(0, "a"), Pool(1, TARGET)]

  /** An endpoint captured within one millisecond. */
  function EndpointAt(at: u64): Endpoint {
    Endpoint(EndpointIdentity("c", "k", "f", "n", "t" + "-io", "s", "t", "u", "l", 9000), true,
             1, at, at, at, at, at, at, Sha256(TenantBody(TENANT)), TenantBody(TENANT))
  }

  function TargetAt(at: u64): Target { Target(EndpointAt(at), "dep") }

  function Probe(at: u64): RuntimeBinding
    requires at + 2 <= U64_MAX
  {
    RuntimeBinding(TargetAt(at), 200, at + 1, at + 2, None, Sha256(InfoBody("dep")), InfoBody("dep"))
  }

  /** A request whose endpoint was captured at the given time, probed if asked. */
  function RequestAt(at: u64, probed: bool, verb: Method, path: Path, query: map<string, string>, body: Body): Request
    requires at + 4 <= U64_MAX
  {
    Request(TargetAt(at), if probed then Some(Probe(at)) else None, verb, path, query, 200, at + 3, at + 4, Some("r"),
            Some(Sha256(body)), Some(body))
  }

  /** Runtime probe, Tenant GET and pools/list, one after the other. */
  function SnapshotAt(at: u64, attempt: Attempt, pools: seq<AdminPool>): Snapshot
    requires at + 9 <= U64_MAX
  {
    var list := RequestAt(at + 5, true, Get, PoolsList, map[], PoolsBody(pools));
    Snapshot(attempt, TenantGet("c", "k", "n", "t", "u", "1", at + 3, at + 4, Sha256(TenantBody(TENANT)), TenantBody(TENANT)),
             Probe(at), at + 9, list, pools)
  }

  lemma BeginsVisibly(s: string)
    requires s != "" && ('0' <= s[0] <= '9' || 'a' <= s[0] <= 'z')
    ensures !IsBlank(s)
  {
    assert !IsWhitespace(s[0]);
  }

  lemma ShortNamesAreNotBlank()
    ensures !IsBlank("t") && !IsBlank("u") && !IsBlank("n") && !IsBlank("1") && !IsBlank("a") && !IsBlank(TARGET) && !IsBlank("c")
    ensures !IsBlank("k") && !IsBlank("s") && !IsBlank("d") && !IsBlank("dep") && !IsBlank("run") && !IsBlank("op") && !IsBlank("r")
  {
    hide IsBlank;
    BeginsVisibly("t"); BeginsVisibly("u"); BeginsVisibly("n"); BeginsVisibly("1"); BeginsVisibly("a");
    BeginsVisibly(TARGET); BeginsVisibly("c"); BeginsVisibly("k"); BeginsVisibly("s"); BeginsVisibly("d");
    BeginsVisibly("dep"); BeginsVisibly("run"); BeginsVisibly("op"); BeginsVisibly("r");
  }

  lemma CmdlineShape(name: string)
    requires !IsBlank(name)
    ensures Trim(Cmdline(name)) == Cmdline(name) && Cmdline(name) != "" && !IsBlank(Cmdline(name))
    ensures EndpointSet("t", name, "n", "http", DOMAIN, PATH, 1, 1) == Some(("t" + "-" + name, Cmdline(name)))
  {
    ShortNamesAreNotBlank();
    hide Decimal;
  }

  lemma CmdlinesDiffer()
    ensures Cmdline("a") != Cmdline(TARGET)
  {
    assert Cmdline("a")[9] == 'a' && Cmdline(TARGET)[9] == 'd';
  }

  /** Each declared pool binds to the runtime pool with its cmdline. */
  lemma PoolBinds(id: nat, name: string)
    requires (id == 0 && name == "a") || (id == 1 && name == TARGET)
    ensures BindPool(Spec(name), TENANT, DOMAIN, POOLS) ==
            Some(TenantPoolProof(name, "u", "t" + "-" + name, Cmdline(name), "http", DOMAIN, PATH, id, 1, 1))
  {
    ShortNamesAreNotBlank();
    hide IsWhitespace, Trim, Decimal, Cmdline, IsBlank, EndpointSet;
    CmdlineShape("a");
    CmdlineShape(TARGET);
    CmdlinesDiffer();
    assert TrimSlashes(PATH) == PATH;
    var test := ExpressionIs(Cmdline(name));
    assert test(POOLS[0]) == (id == 0) && test(POOLS[1]) == (id == 1);
    assert POOLS[1..] == [Pool(1, TARGET)] && [Pool(1, TARGET)][1..] == [];
    assert Filter(test, []) == [];
    assert Filter(test, [Pool(1, TARGET)]) == if id == 1 then [Pool(1, TARGET)] else [];
  }

  function BoundPool(id: nat, name: string): TenantPoolProof {
    TenantPoolProof(name, "u", "t" + "-" + name, Cmdline(name), "http", DOMAIN, PATH, id, 1, 1)
  }

  const BOUND := [BoundPool(0, "a"), BoundPool(1, TARGET)]

  lemma PoolsBind()
    ensures BindPools(TENANT, DOMAIN, POOLS) == Some(BOUND)
  {
    ShortNamesAreNotBlank();
    hide IsBlank, BindPool, Cmdline;
    PoolBinds(0, "a");
    PoolBinds(1, TARGET);
    var specs := [Spec("a"), Spec(TARGET)];
    var bound := Map(Binder(TENANT, DOMAIN, POOLS), specs);
    assert bound == [Some(BOUND[0]), Some(BOUND[1])];
    assert Values(bound).value == BOUND;
  }

  lemma PoolsAreConsistent()
    ensures WireInvariants(POOLS) && forall p :: p in POOLS ==> PoolIsIdle(p)
  {
    hide Cmdline, Trim, IsBlank;
    ShortNamesAreNotBlank();
    CmdlineShape("a");
    CmdlineShape(TARGET);
    CmdlinesDiffer();
    FullCardinalityIffDistinct(Map(PoolId, POOLS));
    FullCardinalityIffDistinct(Map(PoolExpression, POOLS));
    assert Map(PoolId, POOLS) == [0, 1];
    assert Map(PoolExpression, POOLS) == [Cmdline("a"), Cmdline(TARGET)];
  }

  lemma PoolsAreBound()
    ensures RuntimePoolsValid(BOUND, POOLS)
  {
    hide Cmdline, Trim, IsBlank, WireInvariants, PoolIsIdle;
    PoolsAreConsistent();
    ShortNamesAreNotBlank();
    NotBlankWhole();
    CmdlineShape("a");
    CmdlineShape(TARGET);
    FullCardinalityIffDistinct(Map(BoundName, BOUND));
    FullCardinalityIffDistinct(Map(BoundId, BOUND));
    assert Map(BoundName, BOUND) == ["a", TARGET] && Map(BoundId, BOUND) == [0, 1];
    assert Binds(BOUND[0], POOLS[0]) && Binds(BOUND[1], POOLS[1]);
    assert POOLS[0] in POOLS && POOLS[1] in POOLS;
  }

  lemma NotBlankWhole()
    ensures !IsBlank(PATH) && !IsBlank("t" + "-io") && forall name :: !IsBlank("t" + "-" + name)
  {
    assert !IsWhitespace(PATH[0]) && !IsWhitespace(("t" + "-io")[0]);
    forall name ensures !IsBlank("t" + "-" + name) {
      assert !IsWhitespace(("t" + "-" + name)[0]);
    }
  }

  function CaseOf(scenario: Scenario): string {
    if scenario.Decommission? then DECOMMISSION_CASE else REBALANCE_CASE
  }

  function ContextOf(scenario: Scenario): BuildContext {
    BuildContext("run", CaseOf(scenario), DOMAIN, 1, Probe(2))
  }

  function AttemptOf(scenario: Scenario): Attempt {
    Attempt("run", CaseOf(scenario), "u")
  }

  /** A decommission moves the one used byte of the target; its guard is 2 bytes, and the workload needs 1. */
  function ProofOf(scenario: Scenario): Proof {
    if scenario.Decommission?
    then Proof(AttemptOf(scenario), scenario, "t", "n", Probe(2), BOUND, POOLS, Some(1), Some(Cmdline(TARGET)), 10, 1, 1, 130, 3, true, true)
    else Proof(AttemptOf(scenario), scenario, "t", "n", Probe(2), BOUND, POOLS, None, None, 20, 0, 1, 130, 1, true, true)
  }

  lemma EndpointIsValid(at: u64)
    requires at > 0
    ensures EndpointForTenant(EndpointAt(at), "n", "t", "u")
  {
    hide IsBlank;
    ShortNamesAreNotBlank();
    NotBlankWhole();
  }

  lemma FreeBytes(target: Option<nat>)
    requires target == None || target == Some(1)
    ensures SumBy(FreeOf(target), POOLS) == if target.None? then 20 else 10
  {
    hide Cmdline;
    var free := FreeOf(target);
    assert POOLS[1..] == [Pool(1, TARGET)] && [Pool(1, TARGET)][1..] == [];
    assert free(POOLS[0]) == 10 && free(Pool(1, TARGET)) == if target.None? then 10 else 0;
    assert SumBy(free, []) == 0;
    assert SumBy(free, [Pool(1, TARGET)]) == free(Pool(1, TARGET));
  }

  lemma CapacityFits()
    ensures TopologyCapacity(None, POOLS, 1) == Fits(None, 0, 20, 1)
    ensures TopologyCapacity(Some(1), POOLS, 1) == Fits(Some(Cmdline(TARGET)), 1, 10, 3)
  {
    hide Cmdline;
    CheckedFreeIsTheSum(None, POOLS, 0);
    FreeBytes(None);
    FreeBytes(Some(1));
    DecommissionCapacityIsExact(1, POOLS, 1, 1, 2);
  }

  lemma TargetIsPlanned(scenario: Scenario)
    requires Supported(scenario)
    ensures PlannedTarget(scenario, BOUND) == Some(ProofOf(scenario).targetId)
  {
    hide Cmdline;
    var test := IsNamed(TARGET);
    assert !test(BOUND[0]) && test(BOUND[1]);
  }

  /** The builder yields these proofs, so they are satisfied. */
  lemma ProofIsBuilt(scenario: Scenario)
    requires Supported(scenario)
    ensures Build(scenario, TENANT, POOLS, ContextOf(scenario)) == Some(ProofOf(scenario)) && Satisfied(ProofOf(scenario))
  {
    hide IsBlank, Satisfied, EndpointValid, RuntimePoolsValid, BindPools, Cmdline, TopologyCapacity, PlannedTarget;
    ShortNamesAreNotBlank();
    EndpointIsValid(2);
    PoolsBind();
    PoolsAreBound();
    CapacityFits();
    TargetIsPlanned(scenario);
    DraftPassesItsSelfCheck(scenario, TENANT, POOLS, ContextOf(scenario));
  }

  const WINDOW := Window(1, 40)

  lemma ReceiptsAreValid(at: u64, probed: bool, verb: Method, path: Path, query: map<string, string>, body: Body)
    requires 0 < at <= 36 && (verb == Get || probed)
    ensures RequestInWindow(RequestAt(at, probed, verb, path, query, body), WINDOW)
    ensures SameRuntimeIdentity(Probe(2).target, TargetAt(at)) && SameRuntimeIdentity(Probe(2).target, Probe(at).target)
    ensures BindingValid(Probe(at))
  {
    hide IsBlank;
    ShortNamesAreNotBlank();
    EndpointIsValid(at);
    EndpointIsValid(2);
  }

  lemma SnapshotIsValid(at: u64, scenario: Scenario, pools: seq<AdminPool>)
    requires 0 < at <= 31 && Supported(scenario)
    ensures ListRequestValid(SnapshotAt(at, AttemptOf(scenario), pools))
    ensures TimingValid([SnapshotAt(at, AttemptOf(scenario), pools).request], WINDOW)
    ensures TenantGetMatches(SnapshotAt(at, AttemptOf(scenario), pools), ProofOf(scenario))
  {
    hide IsBlank, EndpointValid, BindPools, RequestInWindow, Cmdline;
    ShortNamesAreNotBlank();
    CaseNamesAreNotBlank(scenario, CaseOf(scenario));
    EndpointIsValid(at);
    EndpointIsValid(at + 5);
    ReceiptsAreValid(at, true, Get, PoolsList, map[], PoolsBody(pools));
    ReceiptsAreValid(at + 5, true, Get, PoolsList, map[], PoolsBody(pools));
    PoolsBind();
    assert Map(DomainOf, BOUND) == [DOMAIN, DOMAIN];
    assert Elements(Map(DomainOf, BOUND)) == {DOMAIN};
  }
}
