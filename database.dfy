/** The capacity calculations of the database tools: panel and service utilization,
    the capacity policy for a proposed load, the standard service-size ladder and the
    large-load listing. Each works on rows already fetched. */
module Database {
  import opened Optional
  import opened Sums
  import opened Records

  // Defaults the code substitutes for absent columns.
  const DefaultServiceSize: real := 200.0
  const DefaultVoltage: real := 240.0
  const DefaultPhases: int := 1
  const DefaultBusRating: real := 200.0
  const DefaultSpaces: int := 42
  const DefaultMinAmps: real := 20.0

  // Policy constants.
  const ThreePhaseFactor: real := 1.732
  const CautionPercent: real := 60.0
  const ContinuousLimitPercent: real := 80.0
  const OverloadPercent: real := 100.0
  const ContinuousLoadFactor: real := 0.8
  const StandardServiceSizes: seq<int> := [100, 125, 150, 200, 225, 320, 400, 600, 800, 1000, 1200]
  const MaxServiceSize: int := 1200

  const ProjectNotFound: string := "Project not found"

  /** Rated capacity in volt-amps of a rating at a voltage; three phases multiply by 1.732. */
  function CapacityVa(ratingAmps: real, voltage: real, phases: int): real
  {
    if phases == 3 then ratingAmps * voltage * ThreePhaseFactor else ratingAmps * voltage
  }

  /** Load as a percentage of capacity; 0 when the capacity is not positive. */
  function Utilization(loadVa: real, capacityVa: real): real
  {
    if capacityVa > 0.0 then loadVa / capacityVa * 100.0 else 0.0
  }

  /** Current in amps drawn by a load at a voltage; 0 when the voltage is not positive.
      The phase count plays no part, even for three-phase equipment. */
  function LoadAmps(loadVa: real, voltage: real): real
  {
    if voltage > 0.0 then loadVa / voltage else 0.0
  }

  /** With positive capacity, a utilization threshold is a load threshold:
      u < p exactly when the load is below p percent of capacity (and likewise for <=). */
  lemma UtilizationThreshold(loadVa: real, capacityVa: real, p: real)
    requires capacityVa > 0.0
    ensures Utilization(loadVa, capacityVa) < p <==> loadVa < capacityVa * p / 100.0
    ensures Utilization(loadVa, capacityVa) <= p <==> loadVa <= capacityVa * p / 100.0
  {
    var u := Utilization(loadVa, capacityVa);
    assert u == loadVa * 100.0 / capacityVa;
    assert u * capacityVa == loadVa * 100.0;
    if u < p {
      assert u * capacityVa < p * capacityVa;
    }
    if u <= p {
      assert u * capacityVa <= p * capacityVa;
    }
    if loadVa < capacityVa * p / 100.0 {
      assert u * capacityVa < p * capacityVa;
    }
    if loadVa <= capacityVa * p / 100.0 {
      assert u * capacityVa <= p * capacityVa;
    }
  }

  // ---------------------------------------------------------------------------
  // Circuit loads

  /** A circuit's `load_va`, 0 if absent (no fallback to `load_watts`). */
  function RecordedVa(c: Circuit): real { c.loadVa.GetOr(0.0) }

  /** A circuit's `load_va`, else its `load_watts` treated as VA, else 0. */
  function ConnectedVa(c: Circuit): real
  {
    match c.loadVa
    case Some(va) => va
    case None => c.loadWatts.GetOr(0.0)
  }

  /** Poles a circuit occupies, 1 if absent. */
  function Poles(c: Circuit): int { c.pole.GetOr(1) }

  /** Total connected load of a panel as the panel-load tool sums it: `load_va` only.
      It agrees with the panel-utilization total when every circuit records `load_va`. */
  function TotalPanelLoad(circuits: seq<Circuit>): (total: real)
    ensures (forall i :: 0 <= i < |circuits| ==> RecordedVa(circuits[i]) >= 0.0) ==> total >= 0.0
    ensures (forall i :: 0 <= i < |circuits| ==> circuits[i].loadVa.Some?) ==>
      total == SumReal(circuits, ConnectedVa)
  {
    assert (forall i :: 0 <= i < |circuits| ==> RecordedVa(circuits[i]) >= 0.0) ==>
      SumReal(circuits, RecordedVa) >= 0.0 by {
      if forall i :: 0 <= i < |circuits| ==> RecordedVa(circuits[i]) >= 0.0 {
        SumRealNonNegative(circuits, RecordedVa);
      }
    }
    assert (forall i :: 0 <= i < |circuits| ==> circuits[i].loadVa.Some?) ==>
      SumReal(circuits, RecordedVa) == SumReal(circuits, ConnectedVa) by {
      if forall i :: 0 <= i < |circuits| ==> circuits[i].loadVa.Some? {
        SumRealAgree(circuits, RecordedVa, ConnectedVa);
      }
    }
    SumReal(circuits, RecordedVa)
  }

  /** Panel loads add up over any split of the circuit list, in both summations. */
  lemma PanelLoadsAdditive(a: seq<Circuit>, b: seq<Circuit>)
    ensures TotalPanelLoad(a + b) == TotalPanelLoad(a) + TotalPanelLoad(b)
    ensures SumReal(a + b, ConnectedVa) == SumReal(a, ConnectedVa) + SumReal(b, ConnectedVa)
    ensures SumInt(a + b, Poles) == SumInt(a, Poles) + SumInt(b, Poles)
  {
    SumRealConcat(a, b, RecordedVa);
    SumRealConcat(a, b, ConnectedVa);
    SumIntConcat(a, b, Poles);
  }

  /** A circuit that records only watts adds nothing to the panel-load total but its
      watts to the panel-utilization total: the two summations differ. */
  lemma WattsOnlyCircuit(w: real)
    ensures var c := Circuit(None, Some(w), None, None, None, None, None);
      TotalPanelLoad([c]) == 0.0 && SumReal([c], ConnectedVa) == w
  {
    var c := Circuit(None, Some(w), None, None, None, None, None);
    SumRealSingleton(c, RecordedVa);
    SumRealSingleton(c, ConnectedVa);
  }

  // ---------------------------------------------------------------------------
  // Panel utilization

  datatype PanelStatus = Ok | Warning | Overloaded

  /** Ordinal of a status, from best to worst. */
  function StatusRank(s: PanelStatus): nat
  {
    match s
    case Ok => 0
    case Warning => 1
    case Overloaded => 2
  }

  /** The status band of an (unrounded) utilization; the three bands partition the reals. */
  function StatusFor(u: real): (s: PanelStatus)
    ensures s == Ok <==> u < ContinuousLimitPercent
    ensures s == Warning <==> ContinuousLimitPercent <= u < OverloadPercent
    ensures s == Overloaded <==> u >= OverloadPercent
  {
    if u < ContinuousLimitPercent then Ok
    else if u < OverloadPercent then Warning
    else Overloaded
  }

  /** A higher utilization never gives a better status. */
  lemma StatusMonotone(u1: real, u2: real)
    requires u1 <= u2
    ensures StatusRank(StatusFor(u1)) <= StatusRank(StatusFor(u2))
  {
  }

  datatype PanelReport = PanelReport(
    panelId: string,
    panelName: string,
    busRatingAmps: real,
    voltage: real,
    phases: int,
    capacityVa: real,
    currentLoadVa: real,
    currentLoadAmps: real,
    availableAmps: real,
    utilizationPercent: real,
    totalSpaces: int,
    spacesUsed: int,
    spacesAvailable: int,
    circuitCount: nat,
    canAddLoad: bool,
    status: PanelStatus)

  /** Detailed utilization of one panel. Absent columns read as bus rating 200 A, 240 V,
      one phase (from the `phase` key) and 42 spaces. */
  function PanelUtilization(panelId: string, panel: Panel, circuits: seq<Circuit>): (r: PanelReport)
    ensures r.panelId == panelId && r.panelName == panel.name.GetOr("Unknown")
    ensures r.busRatingAmps == panel.busRating.GetOr(DefaultBusRating)
    ensures r.voltage == panel.voltage.GetOr(DefaultVoltage)
    ensures r.phases == panel.phase.GetOr(DefaultPhases)
    ensures r.totalSpaces == panel.spaces.GetOr(DefaultSpaces)
    ensures r.currentLoadVa == SumReal(circuits, ConnectedVa)
    ensures r.spacesUsed == SumInt(circuits, Poles)
    ensures r.capacityVa == CapacityVa(r.busRatingAmps, r.voltage, r.phases)
    ensures r.utilizationPercent == Utilization(r.currentLoadVa, r.capacityVa)
    ensures r.status == StatusFor(r.utilizationPercent)
    ensures r.currentLoadAmps == LoadAmps(r.currentLoadVa, r.voltage)
    ensures r.canAddLoad <==> r.status == Ok
    ensures r.status == Overloaded <==> r.capacityVa > 0.0 && r.currentLoadVa >= r.capacityVa
    ensures r.canAddLoad <==> r.capacityVa <= 0.0 || r.currentLoadVa < 0.8 * r.capacityVa
    ensures r.capacityVa <= 0.0 ==> r.utilizationPercent == 0.0 && r.status == Ok
    ensures r.spacesAvailable == r.totalSpaces - r.spacesUsed
    ensures r.availableAmps == r.busRatingAmps - r.currentLoadAmps
    ensures r.voltage > 0.0 ==> r.currentLoadAmps * r.voltage == r.currentLoadVa
    ensures r.circuitCount == |circuits|
  {
    var busRating := panel.busRating.GetOr(DefaultBusRating);
    var voltage := panel.voltage.GetOr(DefaultVoltage);
    var phases := panel.phase.GetOr(DefaultPhases);
    var maxSpaces := panel.spaces.GetOr(DefaultSpaces);
    var totalLoadVa := SumReal(circuits, ConnectedVa);
    var polesUsed := SumInt(circuits, Poles);
    var capacityVa := CapacityVa(busRating, voltage, phases);
    var currentLoadAmps := LoadAmps(totalLoadVa, voltage);
    var utilization := Utilization(totalLoadVa, capacityVa);
    assert capacityVa > 0.0 ==>
      ((utilization < 80.0 <==> totalLoadVa < 0.8 * capacityVa) && (utilization < 100.0 <==> totalLoadVa < capacityVa)) by {
      if capacityVa > 0.0 {
        UtilizationThreshold(totalLoadVa, capacityVa, 80.0);
        UtilizationThreshold(totalLoadVa, capacityVa, 100.0);
      }
    }
    PanelReport(
      panelId, panel.name.GetOr("Unknown"), busRating, voltage, phases, capacityVa,
      totalLoadVa, currentLoadAmps, busRating - currentLoadAmps, utilization,
      maxSpaces, polesUsed, maxSpaces - polesUsed, |circuits|,
      utilization < ContinuousLimitPercent, StatusFor(utilization))
  }

  /** Adding a circuit with non-negative load to a panel never lowers its utilization
      and never improves its status. */
  lemma AddingCircuitNeverImprovesPanel(panelId: string, panel: Panel, circuits: seq<Circuit>, c: Circuit)
    requires ConnectedVa(c) >= 0.0
    ensures var before, after := PanelUtilization(panelId, panel, circuits), PanelUtilization(panelId, panel, circuits + [c]);
      before.utilizationPercent <= after.utilizationPercent
      && StatusRank(before.status) <= StatusRank(after.status)
      && after.spacesUsed == before.spacesUsed + Poles(c)
  {
    var before := PanelUtilization(panelId, panel, circuits);
    var after := PanelUtilization(panelId, panel, circuits + [c]);
    PanelLoadsAdditive(circuits, [c]);
    SumRealSingleton(c, ConnectedVa);
    SumIntSingleton(c, Poles);
    assert after.currentLoadVa == before.currentLoadVa + ConnectedVa(c);
    assert after.capacityVa == before.capacityVa;
    var cap := before.capacityVa;
    if cap > 0.0 {
      DivMonotone(before.currentLoadVa, after.currentLoadVa, cap);
    }
    StatusMonotone(before.utilizationPercent, after.utilizationPercent);
  }

  /** Because load amps ignore the phase factor, a three-phase panel at 60 % of its VA
      capacity is "OK" and may take load, yet reports negative available amps. */
  lemma ThreePhaseAmpsIgnoreFactor(bus: real, voltage: real)
    requires bus > 0.0 && voltage > 0.0
    ensures var panel := Panel(None, None, Some(bus), Some(voltage), Some(3), None, None, None, None);
      var load := Circuit(Some(0.6 * bus * voltage * 1.732), None, None, None, None, None, None);
      var r := PanelUtilization("p", panel, [load]);
      r.status == Ok && r.canAddLoad && r.availableAmps < 0.0
  {
    var panel := Panel(None, None, Some(bus), Some(voltage), Some(3), None, None, None, None);
    var va := 0.6 * bus * voltage * 1.732;
    var load := Circuit(Some(va), None, None, None, None, None, None);
    SumRealSingleton(load, ConnectedVa);
    var r := PanelUtilization("p", panel, [load]);
    assert r.capacityVa == bus * voltage * 1.732;
    assert r.currentLoadVa == va;
    assert r.currentLoadVa < 0.8 * r.capacityVa;
    assert r.currentLoadAmps * voltage == bus * 1.0392 * voltage;
    assert r.currentLoadAmps == bus * 1.0392;
  }

  /** A 100 A, 240 V single-phase panel carrying 18000 VA draws 75 A at 75 %: OK. */
  lemma PanelScenario()
    ensures var panel := Panel(None, None, Some(100.0), Some(240.0), Some(1), None, None, None, None);
      var r := PanelUtilization("p", panel, [Circuit(Some(10000.0), None, Some(2), None, None, None, None),
                                             Circuit(None, Some(8000.0), None, None, None, None, None)]);
      r.currentLoadAmps == 75.0 && r.utilizationPercent == 75.0 && r.status == Ok && r.canAddLoad
      && r.spacesUsed == 3 && r.spacesAvailable == 39 && r.availableAmps == 25.0
  {
    var c1 := Circuit(Some(10000.0), None, Some(2), None, None, None, None);
    var c2 := Circuit(None, Some(8000.0), None, None, None, None, None);
    assert [c1, c2] == [c1] + [c2];
    PanelLoadsAdditive([c1], [c2]);
    SumRealSingleton(c1, ConnectedVa);
    SumRealSingleton(c2, ConnectedVa);
    SumIntSingleton(c1, Poles);
    SumIntSingleton(c2, Poles);
  }

  // ---------------------------------------------------------------------------
  // Service utilization

  datatype ServiceUtil = ServiceUtil(
    serviceSize: real,
    voltage: real,
    phases: int,
    serviceCapacityVa: real,
    totalLoadVa: real,
    utilizationPercent: real)

  /** The service-utilization result: figures, or the soft error a caller can surface. */
  datatype ServiceResult = ServiceOk(util: ServiceUtil) | ServiceError(error: string)

  /** The figures agree with each other: capacity from size, voltage and phases, and
      utilization from load and capacity. */
  predicate Consistent(u: ServiceUtil)
  {
    && u.serviceCapacityVa == CapacityVa(u.serviceSize, u.voltage, u.phases)
    && u.utilizationPercent == Utilization(u.totalLoadVa, u.serviceCapacityVa)
  }

  /** Total service load: every panel's load, summed flat, each by the panel-load tool. */
  function ServiceLoadVa(panels: seq<seq<Circuit>>): real
  {
    SumReal(panels, TotalPanelLoad)
  }

  /** Service utilization of a project whose panels carry the given circuit lists. */
  function ServiceUtilizationOf(project: Option<Project>, panels: seq<seq<Circuit>>): (r: ServiceResult)
    ensures r.ServiceError? <==> project.None?
    ensures r.ServiceError? ==> r.error == ProjectNotFound
    ensures r.ServiceOk? ==> Consistent(r.util) && r.util.totalLoadVa == ServiceLoadVa(panels)
    ensures project.Some? ==>
      && r.util.serviceSize == project.value.serviceSize.GetOr(DefaultServiceSize)
      && r.util.voltage == project.value.voltage.GetOr(DefaultVoltage)
      && r.util.phases == project.value.phases.GetOr(DefaultPhases)
  {
    match project
    case None => ServiceError(ProjectNotFound)
    case Some(p) =>
      var size := p.serviceSize.GetOr(DefaultServiceSize);
      var voltage := p.voltage.GetOr(DefaultVoltage);
      var phases := p.phases.GetOr(DefaultPhases);
      var capacity := CapacityVa(size, voltage, phases);
      var load := ServiceLoadVa(panels);
      ServiceOk(ServiceUtil(size, voltage, phases, capacity, load, Utilization(load, capacity)))
  }

  /** Computes the service utilization, accumulating the panel loads one panel at a time. */
  method ServiceUtilization(project: Option<Project>, panels: seq<seq<Circuit>>) returns (r: ServiceResult)
    ensures r == ServiceUtilizationOf(project, panels)
  {
    if project.None? {
      return ServiceError(ProjectNotFound);
    }
    var p := project.value;
    var size := p.serviceSize.GetOr(DefaultServiceSize);
    var voltage := p.voltage.GetOr(DefaultVoltage);
    var phases := p.phases.GetOr(DefaultPhases);
    var totalLoadVa := 0.0;
    var i := 0;
    while i < |panels|
      invariant 0 <= i <= |panels|
      invariant totalLoadVa == SumReal(panels[..i], TotalPanelLoad)
    {
      SumRealSnoc(panels, i, TotalPanelLoad);
      totalLoadVa := totalLoadVa + TotalPanelLoad(panels[i]);
      i := i + 1;
    }
    assert panels[..i] == panels;
    var capacity;
    if phases == 3 {
      capacity := size * voltage * ThreePhaseFactor;
    } else {
      capacity := size * voltage;
    }
    var utilization := if capacity > 0.0 then totalLoadVa / capacity * 100.0 else 0.0;
    r := ServiceOk(ServiceUtil(size, voltage, phases, capacity, totalLoadVa, utilization));
  }

  /** The service is over its rating exactly when the flat panel total exceeds capacity. */
  lemma ServiceOverloadedIff(project: Project, panels: seq<seq<Circuit>>)
    ensures var u := ServiceUtilizationOf(Some(project), panels).util;
      u.utilizationPercent > 100.0 <==> u.serviceCapacityVa > 0.0 && u.totalLoadVa > u.serviceCapacityVa
  {
    var u := ServiceUtilizationOf(Some(project), panels).util;
    if u.serviceCapacityVa > 0.0 {
      UtilizationThreshold(u.totalLoadVa, u.serviceCapacityVa, 100.0);
    }
  }

  // ---------------------------------------------------------------------------
  // Capacity policy

  /** The verdict categories, with the figure each message embeds. */
  datatype Verdict =
    | Reject(overageAmps: real)
    | Warn(utilizationPercent: real, marginAmps: real)
    | ApproveWithCaution(utilizationPercent: real, remainingAmps: real)
    | Approve(remainingAmps: real)

  /** The text a verdict message starts with. */
  function VerdictPrefix(v: Verdict): string
  {
    match v
    case Reject(_) => "REJECT"
    case Warn(_, _) => "WARNING"
    case ApproveWithCaution(_, _) => "APPROVE WITH CAUTION"
    case Approve(_) => "APPROVE"
  }

  function Abs(x: real): real { if x < 0.0 then -x else x }

  /** The verdict for a projected utilization and the amps left after the change. */
  function CapacityVerdict(utilization: real, remainingAmps: real): (v: Verdict)
    ensures v.Reject? <==> utilization > OverloadPercent
    ensures v.Warn? <==> ContinuousLimitPercent < utilization <= OverloadPercent
    ensures v.ApproveWithCaution? <==> CautionPercent < utilization <= ContinuousLimitPercent
    ensures v.Approve? <==> utilization <= CautionPercent
    ensures v.Reject? ==> v == Reject(Abs(remainingAmps)) && v.overageAmps >= 0.0
    ensures v.Reject? && remainingAmps <= 0.0 ==> v.overageAmps == -remainingAmps
    ensures v.Warn? ==> v == Warn(utilization, remainingAmps)
    ensures v.ApproveWithCaution? ==> v == ApproveWithCaution(utilization, remainingAmps)
    ensures v.Approve? ==> v == Approve(remainingAmps)
  {
    if utilization > OverloadPercent then Reject(Abs(remainingAmps))
    else if utilization > ContinuousLimitPercent then Warn(utilization, remainingAmps)
    else if utilization > CautionPercent then ApproveWithCaution(utilization, remainingAmps)
    else Approve(remainingAmps)
  }

  /** The first entry of the ladder, from index `i` on, that is at least `required`;
      the largest size when none is. */
  function LadderFrom(i: nat, required: real): (size: int)
    requires i <= |StandardServiceSizes|
    decreases |StandardServiceSizes| - i
  {
    if i == |StandardServiceSizes| then MaxServiceSize
    else if StandardServiceSizes[i] as real >= required then StandardServiceSizes[i]
    else LadderFrom(i + 1, required)
  }

  /** The smallest standard size whose 80 % still covers `requiredAmps`, capped at 1200 A. */
  function RecommendedServiceSize(requiredAmps: real): (size: int)
    ensures size in StandardServiceSizes
    ensures size as real >= requiredAmps / ContinuousLoadFactor ==>
      forall s :: s in StandardServiceSizes && s as real >= requiredAmps / ContinuousLoadFactor ==> size <= s
    ensures size as real < requiredAmps / ContinuousLoadFactor ==>
      size == MaxServiceSize && forall s :: s in StandardServiceSizes ==> s as real < requiredAmps / ContinuousLoadFactor
  {
    var required := requiredAmps / ContinuousLoadFactor;
    LadderFromIsFirstFit(0, required);
    LadderFrom(0, required)
  }

  /** `LadderFrom(i, ...)` is the first entry at or after `i` that fits, and the ladder
      ascends, so it is also the least fitting entry. */
  lemma {:induction false} LadderFromIsFirstFit(i: nat, required: real)
    requires i <= |StandardServiceSizes|
    ensures LadderFrom(i, required) in StandardServiceSizes
    ensures LadderFrom(i, required) as real >= required ==>
      forall j :: i <= j < |StandardServiceSizes| && StandardServiceSizes[j] as real >= required ==>
        LadderFrom(i, required) <= StandardServiceSizes[j]
    ensures LadderFrom(i, required) as real < required ==>
      LadderFrom(i, required) == MaxServiceSize &&
      forall j :: i <= j < |StandardServiceSizes| ==> StandardServiceSizes[j] as real < required
    decreases |StandardServiceSizes| - i
  {
    var ladder := StandardServiceSizes;
    assert forall a, b :: 0 <= a < b < |ladder| ==> ladder[a] < ladder[b];
    if i < |ladder| && !(ladder[i] as real >= required) {
      LadderFromIsFirstFit(i + 1, required);
    }
  }

  /** Walks the ladder smallest first and returns the first size that fits. */
  method ScanServiceLadder(requiredAmps: real) returns (size: int)
    ensures size == RecommendedServiceSize(requiredAmps)
  {
    var required := requiredAmps / ContinuousLoadFactor;
    var i := 0;
    while i < |StandardServiceSizes|
      invariant 0 <= i <= |StandardServiceSizes|
      invariant LadderFrom(i, required) == LadderFrom(0, required)
    {
      if StandardServiceSizes[i] as real >= required {
        return StandardServiceSizes[i];
      }
      i := i + 1;
    }
    return MaxServiceSize;
  }

  /** The recommendation carries the load itself exactly up to the 1200 A cap. */
  lemma RecommendationCoversLoad(requiredAmps: real)
    ensures RecommendedServiceSize(requiredAmps) as real >= requiredAmps <==> requiredAmps <= 1200.0
  {
    var size := RecommendedServiceSize(requiredAmps);
    var required := requiredAmps / ContinuousLoadFactor;
    if requiredAmps <= 1200.0 && requiredAmps <= 960.0 {
      assert 1200 in StandardServiceSizes;
      assert size as real >= required;
    }
  }

  datatype CapacityReport =
    | Checked(
        canProceed: bool,
        requiresServiceUpgrade: bool,
        warning: bool,
        serviceSizeAmps: real,
        currentLoadAmps: real,
        proposedAdditionalAmps: real,
        newTotalAmps: real,
        availableBeforeChangeAmps: real,
        remainingAfterChangeAmps: real,
        currentUtilizationPercent: real,
        newUtilizationPercent: real,
        recommendedServiceSize: Option<int>,
        verdict: Verdict)
    | Failed(error: string, canProceed: bool)

  /** Exactly one of three booleans holds. */
  predicate ExactlyOne(a: bool, b: bool, c: bool)
  {
    (a && !b && !c) || (!a && b && !c) || (!a && !b && c)
  }

  /** Whether the service can take `additionalLoadAmps` more, given its utilization. */
  function CheckServiceCapacity(service: ServiceResult, additionalLoadAmps: real): (r: CapacityReport)
    ensures service.ServiceError? ==> r == Failed(service.error, false)
    ensures service.ServiceOk? ==> r.Checked?
    ensures r.Checked? ==> ExactlyOne(r.canProceed, r.warning, r.requiresServiceUpgrade)
    ensures r.Checked? ==> (r.canProceed <==> r.newUtilizationPercent <= 80.0)
    ensures r.Checked? ==> (r.warning <==> 80.0 < r.newUtilizationPercent <= 100.0)
    ensures r.Checked? ==> (r.requiresServiceUpgrade <==> r.newUtilizationPercent > 100.0)
    ensures r.Checked? ==> (VerdictPrefix(r.verdict) == "REJECT" <==> r.requiresServiceUpgrade)
    ensures r.Checked? ==> (VerdictPrefix(r.verdict) == "WARNING" <==> r.warning)
    ensures r.Checked? ==> (r.verdict.Approve? || r.verdict.ApproveWithCaution? <==> r.canProceed)
    ensures r.Checked? ==> (r.recommendedServiceSize.Some? <==> r.requiresServiceUpgrade)
    ensures r.Checked? && r.recommendedServiceSize.Some? ==>
      r.recommendedServiceSize.value in StandardServiceSizes
    ensures service.ServiceOk? ==>
      && r.serviceSizeAmps == service.util.serviceSize
      && r.currentLoadAmps == LoadAmps(service.util.totalLoadVa, service.util.voltage)
      && r.proposedAdditionalAmps == additionalLoadAmps
      && r.availableBeforeChangeAmps == service.util.serviceSize - r.currentLoadAmps
      && r.currentUtilizationPercent == service.util.utilizationPercent
      && r.newUtilizationPercent == Utilization(service.util.totalLoadVa + additionalLoadAmps * service.util.voltage,
                                                service.util.serviceCapacityVa)
    ensures r.Checked? && r.requiresServiceUpgrade ==>
      r.recommendedServiceSize == Some(RecommendedServiceSize(r.newTotalAmps))
    ensures r.Checked? ==> r.verdict == CapacityVerdict(r.newUtilizationPercent, r.remainingAfterChangeAmps)
    ensures r.Checked? ==> r.newTotalAmps == r.currentLoadAmps + additionalLoadAmps
    ensures r.Checked? ==> r.remainingAfterChangeAmps == r.availableBeforeChangeAmps - additionalLoadAmps
  {
    match service
    case ServiceError(e) => Failed(e, false)
    case ServiceOk(u) =>
      var currentLoadAmps := LoadAmps(u.totalLoadVa, u.voltage);
      var newTotalVa := u.totalLoadVa + additionalLoadAmps * u.voltage;
      var newTotalAmps := currentLoadAmps + additionalLoadAmps;
      var newUtilization := Utilization(newTotalVa, u.serviceCapacityVa);
      var remaining := u.serviceSize - newTotalAmps;
      var requiresUpgrade := newUtilization > OverloadPercent;
      Checked(
        newUtilization <= ContinuousLimitPercent,
        requiresUpgrade,
        ContinuousLimitPercent < newUtilization <= OverloadPercent,
        u.serviceSize,
        currentLoadAmps,
        additionalLoadAmps,
        newTotalAmps,
        u.serviceSize - currentLoadAmps,
        remaining,
        u.utilizationPercent,
        newUtilization,
        if requiresUpgrade then Some(RecommendedServiceSize(newTotalAmps)) else None,
        CapacityVerdict(newUtilization, remaining))
  }

  /** Fetches the utilization of a project's service, then checks the proposed load. */
  method CheckServiceCapacityForProject(project: Option<Project>, panels: seq<seq<Circuit>>, additionalLoadAmps: real)
    returns (r: CapacityReport)
    ensures r == CheckServiceCapacity(ServiceUtilizationOf(project, panels), additionalLoadAmps)
    ensures project.None? ==> r.Failed? && !r.canProceed
  {
    var service := ServiceUtilization(project, panels);
    r := CheckServiceCapacity(service, additionalLoadAmps);
  }

  /** More added load never lowers the projected utilization or total, never raises the
      remaining amps, and so never turns a rejection into an admission. */
  lemma CapacityCheckMonotone(u: ServiceUtil, a1: real, a2: real)
    requires a1 <= a2 && u.voltage >= 0.0
    ensures var r1, r2 := CheckServiceCapacity(ServiceOk(u), a1), CheckServiceCapacity(ServiceOk(u), a2);
      && r1.newUtilizationPercent <= r2.newUtilizationPercent
      && r1.newTotalAmps <= r2.newTotalAmps
      && r2.remainingAfterChangeAmps <= r1.remainingAfterChangeAmps
      && (r2.canProceed ==> r1.canProceed)
      && (r1.requiresServiceUpgrade ==> r2.requiresServiceUpgrade)
  {
    var cap := u.serviceCapacityVa;
    var va1 := u.totalLoadVa + a1 * u.voltage;
    var va2 := u.totalLoadVa + a2 * u.voltage;
    assert a1 * u.voltage <= a2 * u.voltage;
    if cap > 0.0 {
      DivMonotone(va1, va2, cap);
    }
  }

  /** A null change reproduces the current state: the projected utilization is the
      current one and the remaining amps are the available ones. */
  lemma NoChangeIsIdentity(u: ServiceUtil)
    requires Consistent(u)
    ensures var r := CheckServiceCapacity(ServiceOk(u), 0.0);
      && r.newUtilizationPercent == r.currentUtilizationPercent
      && r.newTotalAmps == r.currentLoadAmps
      && r.remainingAfterChangeAmps == r.availableBeforeChangeAmps
  {
  }

  /** 200 A at 240 V single-phase carrying 41280 VA (172 A), plus 48 A: 220 A in total,
      110 % projected, rejected 20 A over, and 275 A at 80 % calls for a 320 A service. */
  lemma ServiceScenario()
    ensures var project := Project(Some(200.0), Some(240.0), Some(1));
      var panels := [[Circuit(Some(41280.0), None, None, None, None, None, None)]];
      var r := CheckServiceCapacity(ServiceUtilizationOf(Some(project), panels), 48.0);
      && r.Checked?
      && r.currentLoadAmps == 172.0 && r.currentUtilizationPercent == 86.0
      && r.newTotalAmps == 220.0 && r.newUtilizationPercent == 110.0
      && r.requiresServiceUpgrade && !r.canProceed && !r.warning
      && r.recommendedServiceSize == Some(320)
      && r.verdict == Reject(20.0)
  {
    var c := Circuit(Some(41280.0), None, None, None, None, None, None);
    SumRealSingleton(c, RecordedVa);
    SumRealSingleton([c], TotalPanelLoad);
    assert ServiceLoadVa([[c]]) == 41280.0;
    assert RecommendedServiceSize(220.0) == 320;
  }

  // ---------------------------------------------------------------------------
  // Large loads

  /** One line of the large-load listing. */
  datatype LargeLoad = LargeLoad(
    description: string,
    breakerAmps: real,
    loadVa: real,
    loadType: string,
    panelId: Option<string>)

  function BreakerAmps(c: Circuit): real { c.breakerAmps.GetOr(0.0) }

  function AsLargeLoad(c: Circuit): LargeLoad
  {
    LargeLoad(c.description.GetOr("Unknown"), BreakerAmps(c), ConnectedVa(c),
              c.loadType.GetOr("Unknown"), c.panelId)
  }

  /** The circuits whose breaker is at least `minAmps`, projected, in the original order. */
  function SelectLarge(circuits: seq<Circuit>, minAmps: real): seq<LargeLoad>
  {
    if |circuits| == 0 then []
    else (if BreakerAmps(circuits[0]) >= minAmps then [AsLargeLoad(circuits[0])] else [])
         + SelectLarge(circuits[1..], minAmps)
  }

  /** A listing line is selected exactly when some circuit qualifying by breaker projects to it. */
  lemma {:induction false} SelectLargeMembers(circuits: seq<Circuit>, minAmps: real, x: LargeLoad)
    ensures x in SelectLarge(circuits, minAmps) <==>
      exists i :: 0 <= i < |circuits| && BreakerAmps(circuits[i]) >= minAmps && AsLargeLoad(circuits[i]) == x
  {
    if |circuits| > 0 {
      SelectLargeMembers(circuits[1..], minAmps, x);
      var rest := circuits[1..];
      if exists i :: 0 <= i < |rest| && BreakerAmps(rest[i]) >= minAmps && AsLargeLoad(rest[i]) == x {
        var i :| 0 <= i < |rest| && BreakerAmps(rest[i]) >= minAmps && AsLargeLoad(rest[i]) == x;
        assert circuits[i + 1] == rest[i];
      }
      forall i | 1 <= i < |circuits| && BreakerAmps(circuits[i]) >= minAmps && AsLargeLoad(circuits[i]) == x
        ensures x in SelectLarge(rest, minAmps)
      {
        assert rest[i - 1] == circuits[i];
      }
    }
  }

  predicate SortedByBreakerDesc(s: seq<LargeLoad>)
  {
    forall i, j :: 0 <= i < j < |s| ==> s[i].breakerAmps >= s[j].breakerAmps
  }

  /** The lines with a given breaker rating, in their order in `s`. */
  function WithBreaker(s: seq<LargeLoad>, amps: real): seq<LargeLoad>
  {
    if |s| == 0 then []
    else (if s[0].breakerAmps == amps then [s[0]] else []) + WithBreaker(s[1..], amps)
  }

  /** Inserts `x` before the first line whose rating is not above its own. */
  function InsertByBreaker(x: LargeLoad, s: seq<LargeLoad>): (r: seq<LargeLoad>)
    ensures multiset(r) == multiset(s) + multiset{x}
  {
    if |s| == 0 then [x]
    else if x.breakerAmps >= s[0].breakerAmps then [x] + s
    else
      assert s == [s[0]] + s[1..];
      [s[0]] + InsertByBreaker(x, s[1..])
  }

  /** Every line is rated at most `amps`. */
  predicate AllAtMost(s: seq<LargeLoad>, amps: real)
  {
    forall i :: 0 <= i < |s| ==> s[i].breakerAmps <= amps
  }

  lemma {:induction false} InsertKeepsBound(x: LargeLoad, s: seq<LargeLoad>, amps: real)
    requires AllAtMost(s, amps) && x.breakerAmps <= amps
    ensures AllAtMost(InsertByBreaker(x, s), amps)
  {
    if |s| > 0 && x.breakerAmps < s[0].breakerAmps {
      InsertKeepsBound(x, s[1..], amps);
    }
  }

  /** A listing headed by `h` is sorted when its tail is sorted and rated at most `h`. */
  lemma SortedCons(h: LargeLoad, t: seq<LargeLoad>)
    requires SortedByBreakerDesc(t) && AllAtMost(t, h.breakerAmps)
    ensures SortedByBreakerDesc([h] + t)
  {
    var r := [h] + t;
    forall i, j | 0 <= i < j < |r|
      ensures r[i].breakerAmps >= r[j].breakerAmps
    {
      if i > 0 {
        assert r[i] == t[i - 1];
      }
      assert r[j] == t[j - 1];
    }
  }

  /** Inserting into a sorted listing keeps it sorted. */
  lemma {:induction false} InsertKeepsSorted(x: LargeLoad, s: seq<LargeLoad>)
    requires SortedByBreakerDesc(s)
    ensures SortedByBreakerDesc(InsertByBreaker(x, s))
  {
    if |s| == 0 {
    } else if x.breakerAmps >= s[0].breakerAmps {
      SortedCons(x, s);
    } else {
      var tail := s[1..];
      assert SortedByBreakerDesc(tail);
      assert AllAtMost(tail, s[0].breakerAmps);
      InsertKeepsSorted(x, tail);
      InsertKeepsBound(x, tail, s[0].breakerAmps);
      SortedCons(s[0], InsertByBreaker(x, tail));
    }
  }

  /** Filtering a listing headed by `h` keeps `h` exactly when it has the rating. */
  lemma WithBreakerCons(h: LargeLoad, t: seq<LargeLoad>, k: real)
    ensures WithBreaker([h] + t, k) == (if h.breakerAmps == k then [h] else []) + WithBreaker(t, k)
  {
    assert ([h] + t)[1..] == t;
  }

  /** Insertion is stable: `x` lands before every line of equal rating. */
  lemma {:induction false} InsertIsStable(x: LargeLoad, s: seq<LargeLoad>, k: real)
    ensures WithBreaker(InsertByBreaker(x, s), k) == (if x.breakerAmps == k then [x] else []) + WithBreaker(s, k)
  {
    var mine := if x.breakerAmps == k then [x] else [];
    if |s| == 0 {
      WithBreakerCons(x, s, k);
    } else if x.breakerAmps >= s[0].breakerAmps {
      WithBreakerCons(x, s, k);
    } else {
      var rest := InsertByBreaker(x, s[1..]);
      var head := if s[0].breakerAmps == k then [s[0]] else [];
      WithBreakerCons(s[0], rest, k);
      InsertIsStable(x, s[1..], k);
      assert WithBreaker(s, k) == head + WithBreaker(s[1..], k);
      // `x` and `s[0]` have different ratings, so at most one of them is kept.
      assert head == [] || mine == [];
      assert head + (mine + WithBreaker(s[1..], k)) == mine + (head + WithBreaker(s[1..], k));
    }
  }

  /** A stable sort by breaker rating, largest first (insertion sort). */
  function SortByBreakerDesc(s: seq<LargeLoad>): (r: seq<LargeLoad>)
    ensures multiset(r) == multiset(s)
    ensures SortedByBreakerDesc(r)
    ensures forall k :: WithBreaker(r, k) == WithBreaker(s, k)
  {
    if |s| == 0 then []
    else
      var sortedRest := SortByBreakerDesc(s[1..]);
      assert s == [s[0]] + s[1..];
      InsertKeepsSorted(s[0], sortedRest);
      assert forall k :: WithBreaker(InsertByBreaker(s[0], sortedRest), k) == WithBreaker(s, k) by {
        forall k ensures WithBreaker(InsertByBreaker(s[0], sortedRest), k) == WithBreaker(s, k) {
          InsertIsStable(s[0], sortedRest, k);
        }
      }
      InsertByBreaker(s[0], sortedRest)
  }

  /** The large-load listing with the tool's default threshold of 20 A. */
  function GetLargeLoadsDefault(circuits: seq<Circuit>): seq<LargeLoad>
  {
    GetLargeLoads(circuits, DefaultMinAmps)
  }

  /** The large-load listing: circuits with a breaker of at least `minAmps` (20 by default),
      largest breaker first, ties in their original order. */
  function GetLargeLoads(circuits: seq<Circuit>, minAmps: real): (r: seq<LargeLoad>)
    ensures multiset(r) == multiset(SelectLarge(circuits, minAmps))
    ensures SortedByBreakerDesc(r)
    ensures forall k :: WithBreaker(r, k) == WithBreaker(SelectLarge(circuits, minAmps), k)
    ensures forall x :: x in r <==>
      exists i :: 0 <= i < |circuits| && BreakerAmps(circuits[i]) >= minAmps && AsLargeLoad(circuits[i]) == x
  {
    var selected := SelectLarge(circuits, minAmps);
    var r := SortByBreakerDesc(selected);
    assert forall x :: x in r <==>
      exists i :: 0 <= i < |circuits| && BreakerAmps(circuits[i]) >= minAmps && AsLargeLoad(circuits[i]) == x by {
      forall x ensures x in r <==>
        exists i :: 0 <= i < |circuits| && BreakerAmps(circuits[i]) >= minAmps && AsLargeLoad(circuits[i]) == x {
        assert x in r <==> x in multiset(r);
        assert x in selected <==> x in multiset(selected);
        SelectLargeMembers(circuits, minAmps, x);
      }
    }
    r
  }
}
