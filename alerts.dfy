/** The alert component (app/Http/Controllers/AlertController.php): the
    notification fan-out that follows the creation of an alert, and the
    validation and defaults of `store` and `update`. */
module Alerts {
  import opened Common
  import opened Users

  const Severities: set<string> := {"low", "medium", "high", "critical"}
  const Statuses: set<string> := {"new", "investigating", "resolved", "false_positive"}

  /** An alert row. Times are integer seconds. */
  datatype Alert = Alert(
    id: nat,
    networkLogId: nat,
    mlModelId: nat,
    attackType: string,
    severity: string,
    sourceIp: Option<string>,
    destinationIp: Option<string>,
    confidence: Option<real>,
    status: string,
    detectedAt: int,
    description: Option<string>)

  // ===========================================================================
  // Notification fan-out

  /** The two notification classes; their payloads are not part of this model. */
  datatype Kind = AlertCreated | CriticalThreatDetected

  /** One `notify` call: a notification of `kind` to the user with `userId`. */
  datatype Delivery = Delivery(userId: nat, kind: Kind)

  /** The severity-to-roles table of `sendNotificationsByRole`. */
  const NotificationRules: map<string, set<string>> := map[
    "critical" := {AdminRole, AnalystRole},
    "high" := {AdminRole, AnalystRole},
    "medium" := {AdminRole, AnalystRole},
    "low" := {AdminRole}]

  /** The roles notified for a severity; a severity outside the table falls
      back to Admin only. */
  function TargetRoles(severity: string): (roles: set<string>)
    ensures AdminRole in roles && roles <= {AdminRole, AnalystRole}
    ensures AnalystRole in roles <==> severity in {"critical", "high", "medium"}
  {
    if severity in NotificationRules then NotificationRules[severity] else {AdminRole}
  }

  predicate IsActing(u: User, acting: Option<User>) {
    acting.Some? && u.id == acting.value.id
  }

  /** The condition of the role-step query: an eligible role, and not the
      acting user (with no acting user the id condition excludes nobody). */
  function RoleEligible(severity: string, acting: Option<User>): User -> bool {
    (u: User) => u.role in TargetRoles(severity) && !IsActing(u, acting)
  }

  /** The role condition alone. */
  function InMatrix(severity: string): User -> bool {
    (u: User) => u.role in TargetRoles(severity)
  }

  /** The condition of the critical-step query. */
  function AdminOrAnalyst(): User -> bool {
    (u: User) => u.role == AdminRole || u.role == AnalystRole
  }

  function Deliveries(users: seq<User>, kind: Kind): (ds: seq<Delivery>)
    ensures |ds| == |users|
    ensures forall i :: 0 <= i < |users| ==> ds[i] == Delivery(users[i].id, kind)
  {
    seq(|users|, i requires 0 <= i < |users| => Delivery(users[i].id, kind))
  }

  /** Step 1: the acting user's own acknowledgement. */
  function SelfAck(acting: Option<User>): seq<Delivery> {
    if acting.Some? then [Delivery(acting.value.id, AlertCreated)] else []
  }

  /** Step 2: the critical broadcast. */
  function CriticalStep(roster: seq<User>, severity: string): seq<Delivery> {
    if severity == "critical" then Deliveries(Filter(roster, AdminOrAnalyst()), CriticalThreatDetected)
    else []
  }

  /** Step 3: the role-matrix distribution. */
  function RoleStep(roster: seq<User>, severity: string, acting: Option<User>): seq<Delivery> {
    Deliveries(Filter(roster, RoleEligible(severity, acting)), AlertCreated)
  }

  /** Every delivery the three steps attempt, in order. */
  function Planned(roster: seq<User>, severity: string, acting: Option<User>): seq<Delivery> {
    SelfAck(acting) + CriticalStep(roster, severity) + RoleStep(roster, severity, acting)
  }

  // ---- Counting deliveries to one user

  function WithId(p: User -> bool, id: nat): User -> bool {
    (u: User) => p(u) && u.id == id
  }

  lemma DeliveriesAppend(a: seq<User>, b: seq<User>, kind: Kind)
    ensures Deliveries(a + b, kind) == Deliveries(a, kind) + Deliveries(b, kind)
  {
  }

  /** Sending to the users of `users` that pass `p` reaches user `id` once per
      such user carrying that id. */
  lemma {:induction false} DeliveriesOfFilter(users: seq<User>, p: User -> bool, kind: Kind, id: nat)
    ensures multiset(Deliveries(Filter(users, p), kind))[Delivery(id, kind)]
         == |Filter(users, WithId(p, id))|
    decreases |users|
  {
    if users != [] {
      var init, last := users[..|users| - 1], users[|users| - 1];
      assert users == init + [last];
      FilterSnoc(init, last, p);
      FilterSnoc(init, last, WithId(p, id));
      DeliveriesAppend(Filter(init, p), if p(last) then [last] else [], kind);
      DeliveriesOfFilter(init, p, kind, id);
    }
  }

  /** With unique ids, a user of the roster is matched by its own id only. */
  lemma {:induction false} UniqueIdMatch(users: seq<User>, p: User -> bool, u: User)
    requires UniqueIds(users) && u in users
    ensures |Filter(users, WithId(p, u.id))| == if p(u) then 1 else 0
    decreases |users|
  {
    var init, last := users[..|users| - 1], users[|users| - 1];
    assert users == init + [last];
    assert UniqueIds(init);
    FilterSnoc(init, last, WithId(p, u.id));
    if u == last {
      assert forall v :: v in init ==> v.id != u.id;
      FilterNone(init, WithId(p, u.id));
    } else {
      assert u in init;
      assert last.id != u.id;
      UniqueIdMatch(init, p, u);
    }
  }

  lemma NoSuchId(users: seq<User>, p: User -> bool, id: nat)
    requires forall v :: v in users ==> !p(v) || v.id != id
    ensures |Filter(users, WithId(p, id))| == 0
  {
    FilterNone(users, WithId(p, id));
  }

  lemma KindOfDeliveries(users: seq<User>, kind: Kind, d: Delivery)
    requires d.kind != kind
    ensures multiset(Deliveries(users, kind))[d] == 0
  {
    assert d !in Deliveries(users, kind);
  }

  // ---- Properties of the planned fan-out

  /** The acting user gets exactly one AlertCreated: the self-acknowledgement,
      and never a second one from the role step, whatever their role. */
  lemma ActingUserNotifiedOnce(roster: seq<User>, severity: string, acting: Option<User>)
    requires acting.Some?
    ensures multiset(RoleStep(roster, severity, acting))[Delivery(acting.value.id, AlertCreated)] == 0
    ensures multiset(Planned(roster, severity, acting))[Delivery(acting.value.id, AlertCreated)] == 1
  {
    var d := Delivery(acting.value.id, AlertCreated);
    DeliveriesOfFilter(roster, RoleEligible(severity, acting), AlertCreated, acting.value.id);
    NoSuchId(roster, RoleEligible(severity, acting), acting.value.id);
    if severity == "critical" {
      KindOfDeliveries(Filter(roster, AdminOrAnalyst()), CriticalThreatDetected, d);
    }
  }

  /** Without an acting user there is no self-acknowledgement, and the role
      step reaches every user whose role is eligible. */
  lemma NoActingUser(roster: seq<User>, severity: string)
    ensures Planned(roster, severity, None)
         == CriticalStep(roster, severity)
          + Deliveries(Filter(roster, InMatrix(severity)), AlertCreated)
  {
    FilterEquiv(roster, RoleEligible(severity, None), InMatrix(severity));
    assert RoleStep(roster, severity, None) == Deliveries(Filter(roster, InMatrix(severity)), AlertCreated);
    assert SelfAck(None) == [];
  }

  /** Any other user of the roster gets one AlertCreated exactly when the role
      matrix names their role for this severity. */
  lemma RoleMatrixRecipient(roster: seq<User>, severity: string, acting: Option<User>, u: User)
    requires UniqueIds(roster) && u in roster && !IsActing(u, acting)
    ensures multiset(Planned(roster, severity, acting))[Delivery(u.id, AlertCreated)]
         == if u.role in TargetRoles(severity) then 1 else 0
  {
    var d := Delivery(u.id, AlertCreated);
    DeliveriesOfFilter(roster, RoleEligible(severity, acting), AlertCreated, u.id);
    UniqueIdMatch(roster, RoleEligible(severity, acting), u);
    if severity == "critical" {
      KindOfDeliveries(Filter(roster, AdminOrAnalyst()), CriticalThreatDetected, d);
    }
    assert multiset(SelfAck(acting))[d] == 0;
  }

  /** A critical alert sends one CriticalThreatDetected to each Admin and
      Analyst; any other severity sends none at all. */
  lemma CriticalRecipient(roster: seq<User>, severity: string, acting: Option<User>, u: User)
    requires UniqueIds(roster) && u in roster
    ensures multiset(Planned(roster, severity, acting))[Delivery(u.id, CriticalThreatDetected)]
         == if severity == "critical" && (u.role == AdminRole || u.role == AnalystRole) then 1 else 0
  {
    var d := Delivery(u.id, CriticalThreatDetected);
    KindOfDeliveries(Filter(roster, RoleEligible(severity, acting)), AlertCreated, d);
    assert multiset(SelfAck(acting))[d] == 0;
    if severity == "critical" {
      DeliveriesOfFilter(roster, AdminOrAnalyst(), CriticalThreatDetected, u.id);
      UniqueIdMatch(roster, AdminOrAnalyst(), u);
    }
  }

  lemma NonCriticalSendsNoCritical(roster: seq<User>, severity: string, acting: Option<User>)
    requires severity != "critical"
    ensures forall d :: d in Planned(roster, severity, acting) ==> d.kind == AlertCreated
  {
  }

  /** No de-duplication: on a critical alert an Admin or Analyst other than the
      acting user receives both kinds, one of each. */
  lemma CriticalAudienceNotifiedTwice(roster: seq<User>, acting: Option<User>, u: User)
    requires UniqueIds(roster) && u in roster && !IsActing(u, acting)
    requires u.role == AdminRole || u.role == AnalystRole
    ensures multiset(Planned(roster, "critical", acting))[Delivery(u.id, AlertCreated)] == 1
    ensures multiset(Planned(roster, "critical", acting))[Delivery(u.id, CriticalThreatDetected)] == 1
  {
    RoleMatrixRecipient(roster, "critical", acting, u);
    CriticalRecipient(roster, "critical", acting, u);
  }

  /** A low alert created by a user who is neither Admin nor Analyst notifies
      that user once and every Admin once, and sends nothing critical. */
  lemma LowAlertByOrdinaryUser(roster: seq<User>, acting: User)
    requires UniqueIds(roster) && acting in roster
    requires acting.role != AdminRole && acting.role != AnalystRole
    ensures Planned(roster, "low", Some(acting))
         == [Delivery(acting.id, AlertCreated)]
          + Deliveries(Filter(roster, (u: User) => u.role == AdminRole), AlertCreated)
  {
    forall u | u in roster
      ensures RoleEligible("low", Some(acting))(u) == (u.role == AdminRole)
    {
      if u.id == acting.id {
        var i :| 0 <= i < |roster| && roster[i] == u;
        var j :| 0 <= j < |roster| && roster[j] == acting;
        assert i == j;
      }
    }
    FilterEquiv(roster, RoleEligible("low", Some(acting)), (u: User) => u.role == AdminRole);
  }

  // ---- Delivery with failures

  /** The result of a dispatch: what reached the channel, which role-step
      deliveries failed and were logged, and whether an unguarded failure
      ended the dispatch early (the caller logs it and carries on). */
  datatype Dispatched = Dispatched(sent: seq<Delivery>, failed: seq<Delivery>, aborted: bool)

  function Delivered(failing: set<Delivery>): Delivery -> bool {
    (d: Delivery) => d !in failing
  }

  function Failed(failing: set<Delivery>): Delivery -> bool {
    (d: Delivery) => d in failing
  }

  /** Deliveries attempted with no try/catch around them: everything before
      the first failing one. */
  function Unguarded(ds: seq<Delivery>, failing: set<Delivery>): (r: seq<Delivery>)
    ensures |r| <= |ds| && r == ds[..|r|]
    ensures forall d :: d in r ==> d !in failing
    ensures |r| < |ds| <==> exists d :: d in ds && d in failing
    ensures |r| < |ds| ==> ds[|r|] in failing
  {
    if ds == [] then []
    else if ds[0] in failing then []
    else
      assert ds == [ds[0]] + ds[1..];
      [ds[0]] + Unguarded(ds[1..], failing)
  }

  lemma {:induction false} UnguardedAppend(a: seq<Delivery>, b: seq<Delivery>, failing: set<Delivery>)
    requires forall d :: d in a ==> d !in failing
    ensures Unguarded(a + b, failing) == a + Unguarded(b, failing)
    decreases |a|
  {
    if a != [] {
      assert (a + b)[1..] == a[1..] + b;
      UnguardedAppend(a[1..], b, failing);
    } else {
      assert a + b == b;
    }
  }

  /** `sendAlertNotifications` as a function of the roster, the alert's
      severity, the acting user and the set of deliveries that throw. The
      self-acknowledgement and the critical loop have no try/catch, so their
      first failure ends the dispatch; the role step catches per recipient. */
  function Dispatch(roster: seq<User>, severity: string, acting: Option<User>, failing: set<Delivery>): Dispatched
  {
    var unguarded := SelfAck(acting) + CriticalStep(roster, severity);
    var byRole := RoleStep(roster, severity, acting);
    if exists d :: d in unguarded && d in failing then
      Dispatched(Unguarded(unguarded, failing), [], true)
    else
      Dispatched(unguarded + Filter(byRole, Delivered(failing)), Filter(byRole, Failed(failing)), false)
  }

  /** With no failing delivery, everything planned is sent. */
  lemma DispatchWithoutFailures(roster: seq<User>, severity: string, acting: Option<User>, failing: set<Delivery>)
    requires forall d :: d in Planned(roster, severity, acting) ==> d !in failing
    ensures Dispatch(roster, severity, acting, failing) == Dispatched(Planned(roster, severity, acting), [], false)
  {
    var byRole := RoleStep(roster, severity, acting);
    FilterAll(byRole, Delivered(failing));
    FilterNone(byRole, Failed(failing));
  }

  /** Only a failure in the two unguarded steps ends the dispatch early. */
  lemma OnlyUnguardedFailuresAbort(roster: seq<User>, severity: string, acting: Option<User>, failing: set<Delivery>)
    ensures Dispatch(roster, severity, acting, failing).aborted
        <==> exists d :: d in SelfAck(acting) + CriticalStep(roster, severity) && d in failing
  {
  }

  /** The role step's recipients are never the self-acknowledged user and
      never receive the critical kind, so its deliveries are disjoint from
      the unguarded steps. */
  lemma RoleStepDisjoint(roster: seq<User>, severity: string, acting: Option<User>, d: Delivery)
    requires d in RoleStep(roster, severity, acting)
    ensures d !in SelfAck(acting) + CriticalStep(roster, severity)
  {
    var byRole := RoleStep(roster, severity, acting);
    var i :| 0 <= i < |byRole| && byRole[i] == d;
    var u := Filter(roster, RoleEligible(severity, acting))[i];
    assert RoleEligible(severity, acting)(u);
  }

  /** Failure isolation in the role step: when the dispatch reaches it, every
      recipient whose delivery does not fail is reached and every failing one
      is logged, whatever happens to the others. */
  lemma RoleFailuresAreIsolated(roster: seq<User>, severity: string, acting: Option<User>, failing: set<Delivery>, d: Delivery)
    requires !Dispatch(roster, severity, acting, failing).aborted
    requires d in RoleStep(roster, severity, acting)
    ensures d in Dispatch(roster, severity, acting, failing).sent <==> d !in failing
    ensures d in Dispatch(roster, severity, acting, failing).failed <==> d in failing
  {
    RoleStepDisjoint(roster, severity, acting, d);
  }

  /** A dispatch that reaches the role step accounts for every planned
      delivery exactly once: sent or logged as failed. */
  lemma DispatchAccountsForAll(roster: seq<User>, severity: string, acting: Option<User>, failing: set<Delivery>)
    requires !Dispatch(roster, severity, acting, failing).aborted
    ensures var r := Dispatch(roster, severity, acting, failing);
      multiset(r.sent) + multiset(r.failed) == multiset(Planned(roster, severity, acting))
  {
    FilterPartition(RoleStep(roster, severity, acting), failing);
  }

  lemma {:induction false} FilterPartition(ds: seq<Delivery>, failing: set<Delivery>)
    ensures multiset(Filter(ds, Delivered(failing))) + multiset(Filter(ds, Failed(failing))) == multiset(ds)
    decreases |ds|
  {
    if ds != [] {
      var init, last := ds[..|ds| - 1], ds[|ds| - 1];
      assert ds == init + [last];
      FilterSnoc(init, last, Delivered(failing));
      FilterSnoc(init, last, Failed(failing));
      FilterPartition(init, failing);
    }
  }

  /** An aborted dispatch sent an unbroken prefix of the unguarded steps,
      stopped at a failing delivery, and attempted nothing of the role step. */
  lemma AbortedDispatch(roster: seq<User>, severity: string, acting: Option<User>, failing: set<Delivery>)
    ensures var r := Dispatch(roster, severity, acting, failing);
      var unguarded := SelfAck(acting) + CriticalStep(roster, severity);
      r.aborted ==>
        && |r.sent| < |unguarded|
        && r.sent == unguarded[..|r.sent|]
        && unguarded[|r.sent|] in failing
        && r.failed == []
  {
  }

  /** `sendNotificationsByRole`: query the eligible users, then notify each
      inside its own try/catch, appending to `outbox` and to the error log. */
  method SendNotificationsByRole(outbox: seq<Delivery>, roster: seq<User>, severity: string,
                                 acting: Option<User>, failing: set<Delivery>)
    returns (sent: seq<Delivery>, failed: seq<Delivery>)
    ensures sent == outbox + Filter(RoleStep(roster, severity, acting), Delivered(failing))
    ensures failed == Filter(RoleStep(roster, severity, acting), Failed(failing))
  {
    var targets := Filter(roster, RoleEligible(severity, acting));
    ghost var all := Deliveries(targets, AlertCreated);
    var delivered := [];
    failed := [];
    var i := 0;
    while i < |targets|
      invariant 0 <= i <= |targets|
      invariant delivered == Filter(all[..i], Delivered(failing))
      invariant failed == Filter(all[..i], Failed(failing))
    {
      var d := Delivery(targets[i].id, AlertCreated);
      assert all[i] == d;
      SplitStep(all, i, failing);
      if d in failing {
        failed := failed + [d];   // logged, and the loop goes on
      } else {
        delivered := delivered + [d];
      }
      i := i + 1;
    }
    assert all[..i] == all;
    sent := outbox + delivered;
  }

  /** One more attempted delivery lands in exactly one of the two lists. */
  lemma SplitStep(all: seq<Delivery>, i: nat, failing: set<Delivery>)
    requires i < |all|
    ensures Filter(all[..i + 1], Delivered(failing))
         == Filter(all[..i], Delivered(failing)) + (if all[i] in failing then [] else [all[i]])
    ensures Filter(all[..i + 1], Failed(failing))
         == Filter(all[..i], Failed(failing)) + (if all[i] in failing then [all[i]] else [])
  {
    assert all[..i + 1] == all[..i] + [all[i]];
    FilterSnoc(all[..i], all[i], Delivered(failing));
    FilterSnoc(all[..i], all[i], Failed(failing));
  }

  /** The critical loop of `sendAlertNotifications`: no try/catch, so the
      first failing delivery ends it (and, by propagation, the dispatch). */
  method BroadcastCritical(outbox: seq<Delivery>, audience: seq<User>, failing: set<Delivery>)
    returns (sent: seq<Delivery>, aborted: bool)
    ensures sent == outbox + Unguarded(Deliveries(audience, CriticalThreatDetected), failing)
    ensures aborted <==> exists d :: d in Deliveries(audience, CriticalThreatDetected) && d in failing
  {
    ghost var all := Deliveries(audience, CriticalThreatDetected);
    sent := outbox;
    var i := 0;
    while i < |audience|
      invariant 0 <= i <= |audience|
      invariant sent == outbox + all[..i]
      invariant forall d :: d in all[..i] ==> d !in failing
    {
      var d := Delivery(audience[i].id, CriticalThreatDetected);
      assert all[i] == d;
      if d in failing {
        assert all == all[..i] + all[i..];
        UnguardedAppend(all[..i], all[i..], failing);
        return sent, true;
      }
      assert all[..i + 1] == all[..i] + [d];
      sent := sent + [d];
      i := i + 1;
    }
    assert all[..i] == all;
    UnguardedAppend(all, [], failing);
    assert all + [] == all;
    return sent, false;
  }

  /** `sendAlertNotifications`: self-acknowledgement, critical broadcast, then
      the role step. A throw in the first two ends the dispatch. */
  method SendAlertNotifications(roster: seq<User>, severity: string, acting: Option<User>, failing: set<Delivery>)
    returns (r: Dispatched)
    ensures r == Dispatch(roster, severity, acting, failing)
  {
    ghost var unguarded := SelfAck(acting) + CriticalStep(roster, severity);
    var sent: seq<Delivery> := [];
    if acting.Some? {
      var d := Delivery(acting.value.id, AlertCreated);
      if d in failing {
        assert unguarded == [d] + CriticalStep(roster, severity);
        return Dispatched([], [], true);
      }
      sent := [d];
    }
    assert sent == SelfAck(acting);
    if severity == "critical" {
      var aborted;
      sent, aborted := BroadcastCritical(sent, Filter(roster, AdminOrAnalyst()), failing);
      UnguardedAppend(SelfAck(acting), CriticalStep(roster, severity), failing);
      if aborted {
        return Dispatched(sent, [], true);
      }
      assert sent == unguarded;
    } else {
      assert unguarded == sent;
    }
    var failed;
    sent, failed := SendNotificationsByRole(sent, roster, severity, acting, failing);
    r := Dispatched(sent, failed, false);
  }

  // ===========================================================================
  // Validation and defaults of `store` and `update`

  /** An IP field's text together with whether it is a well-formed IP address
      (the framework's `ip` rule is not modelled). */
  datatype IpText = IpText(text: string, wellFormed: bool)

  datatype AlertInput = AlertInput(
    networkLogId: Input<nat>,
    mlModelId: Input<nat>,
    attackType: Input<string>,
    severity: Input<string>,
    sourceIp: Input<IpText>,
    destinationIp: Input<IpText>,
    confidence: Input<real>,
    description: Input<string>,
    status: Input<string>)

  datatype AlertField =
    | NetworkLogIdField | MlModelIdField | AttackTypeField | SeverityField
    | SourceIpField | DestinationIpField | ConfidenceField | DescriptionField | StatusField

  /** `required|exists:<table>,id` */
  predicate ExistingId(f: Input<nat>, ids: set<nat>) {
    f.Given? && f.value in ids
  }

  /** `nullable|ip` */
  predicate NullableIp(f: Input<IpText>) {
    f.Given? ==> f.value.wellFormed
  }

  /** `nullable|numeric|between:0,1` */
  predicate NullableUnitInterval(f: Input<real>) {
    f.Given? ==> 0.0 <= f.value <= 1.0
  }

  /** `sometimes|in:new,investigating,resolved,false_positive`: a status that
      is sent must be one of them (null included). */
  predicate OptionalStatus(f: Input<string>) {
    !f.Absent? ==> f.Given? && f.value in Statuses
  }

  /** The fields that break the rules; `isUpdate` selects `update`'s rule set,
      which adds the status rule. */
  function Violations(input: AlertInput, logIds: set<nat>, modelIds: set<nat>, isUpdate: bool): set<AlertField> {
    (if ExistingId(input.networkLogId, logIds) then {} else {NetworkLogIdField})
    + (if ExistingId(input.mlModelId, modelIds) then {} else {MlModelIdField})
    + (if RequiredString(input.attackType, 255) then {} else {AttackTypeField})
    + (if input.severity.Given? && input.severity.value in Severities then {} else {SeverityField})
    + (if NullableIp(input.sourceIp) then {} else {SourceIpField})
    + (if NullableIp(input.destinationIp) then {} else {DestinationIpField})
    + (if NullableUnitInterval(input.confidence) then {} else {ConfidenceField})
    + (if NullableString(input.description, 1000) then {} else {DescriptionField})
    + (if !isUpdate || OptionalStatus(input.status) then {} else {StatusField})
  }

  /** What every stored alert satisfies. */
  predicate WellFormed(a: Alert) {
    && a.severity in Severities
    && a.status in Statuses
    && !Blank(a.attackType) && |a.attackType| <= 255
    && (a.confidence.Some? ==> 0.0 <= a.confidence.value <= 1.0)
    && (a.description.Some? ==> |a.description.value| <= 1000)
  }

  function IpValue(f: Input<IpText>): Option<string> {
    if f.Given? then Some(f.value.text) else None
  }

  function IpUpdate(f: Input<IpText>, current: Option<string>): Option<string> {
    match f
    case Absent => current
    case Null => None
    case Given(ip) => Some(ip.text)
  }

  /** The row `store` creates from validated input: the validated fields, the
      detection time, and status "new" whatever the request says. */
  function Created(input: AlertInput, logIds: set<nat>, modelIds: set<nat>, id: nat, now: int): (a: Alert)
    requires Violations(input, logIds, modelIds, false) == {}
    ensures WellFormed(a) && a.status == "new" && a.detectedAt == now
    ensures a.severity == input.severity.value && a.attackType == input.attackType.value
    ensures a.networkLogId == input.networkLogId.value && a.networkLogId in logIds
    ensures a.mlModelId == input.mlModelId.value && a.mlModelId in modelIds
    ensures a.sourceIp == IpValue(input.sourceIp) && a.destinationIp == IpValue(input.destinationIp)
    ensures a.confidence == CreateValue(input.confidence)
    ensures a.description == CreateValue(input.description)
    ensures a.id == id
  {
    assert NetworkLogIdField !in Violations(input, logIds, modelIds, false);
    assert MlModelIdField !in Violations(input, logIds, modelIds, false);
    assert AttackTypeField !in Violations(input, logIds, modelIds, false);
    assert SeverityField !in Violations(input, logIds, modelIds, false);
    assert ConfidenceField !in Violations(input, logIds, modelIds, false);
    assert DescriptionField !in Violations(input, logIds, modelIds, false);
    Alert(id, input.networkLogId.value, input.mlModelId.value, input.attackType.value,
          input.severity.value, IpValue(input.sourceIp), IpValue(input.destinationIp),
          CreateValue(input.confidence), "new", now, CreateValue(input.description))
  }

  /** The row `update` leaves: validated fields replace the old ones, nullable
      fields that were not sent keep their value, and the status stays unless
      a new one was sent. */
  function Updated(a: Alert, input: AlertInput, logIds: set<nat>, modelIds: set<nat>): (b: Alert)
    requires WellFormed(a)
    requires Violations(input, logIds, modelIds, true) == {}
    ensures WellFormed(b)
    ensures b.id == a.id && b.detectedAt == a.detectedAt
    ensures b.status == if input.status.Given? then input.status.value else a.status
    ensures b.networkLogId == input.networkLogId.value && b.networkLogId in logIds
    ensures b.mlModelId == input.mlModelId.value && b.mlModelId in modelIds
    ensures b.attackType == input.attackType.value && b.severity == input.severity.value
    ensures b.sourceIp == IpUpdate(input.sourceIp, a.sourceIp)
    ensures b.destinationIp == IpUpdate(input.destinationIp, a.destinationIp)
    ensures b.confidence == UpdateValue(input.confidence, a.confidence)
    ensures b.description == UpdateValue(input.description, a.description)
    ensures input.description.Absent? ==> b.description == a.description
  {
    assert NetworkLogIdField !in Violations(input, logIds, modelIds, true);
    assert MlModelIdField !in Violations(input, logIds, modelIds, true);
    assert AttackTypeField !in Violations(input, logIds, modelIds, true);
    assert SeverityField !in Violations(input, logIds, modelIds, true);
    assert ConfidenceField !in Violations(input, logIds, modelIds, true);
    assert DescriptionField !in Violations(input, logIds, modelIds, true);
    assert StatusField !in Violations(input, logIds, modelIds, true);
    a.(networkLogId := input.networkLogId.value,
       mlModelId := input.mlModelId.value,
       attackType := input.attackType.value,
       severity := input.severity.value,
       sourceIp := IpUpdate(input.sourceIp, a.sourceIp),
       destinationIp := IpUpdate(input.destinationIp, a.destinationIp),
       confidence := UpdateValue(input.confidence, a.confidence),
       description := UpdateValue(input.description, a.description),
       status := if input.status.Given? then input.status.value else a.status)
  }

  function IndexOfAlert(alerts: seq<Alert>, id: nat): (k: nat)
    ensures k <= |alerts|
    ensures k < |alerts| ==> alerts[k].id == id
    ensures k == |alerts| ==> forall a :: a in alerts ==> a.id != id
  {
    if alerts == [] then 0
    else if alerts[0].id == id then 0
    else 1 + IndexOfAlert(alerts[1..], id)
  }

  /** Stored alerts are well formed, have distinct ids, and every id is below
      the next one the table hands out. */
  predicate TableInvariant(alerts: seq<Alert>, nextId: nat) {
    && (forall a :: a in alerts ==> WellFormed(a) && a.id < nextId)
    && (forall i, j :: 0 <= i < j < |alerts| ==> alerts[i].id != alerts[j].id)
  }

  /** Inserting a well-formed row under the next id keeps the invariant. */
  lemma InsertKeepsInvariant(alerts: seq<Alert>, nextId: nat, a: Alert)
    requires TableInvariant(alerts, nextId)
    requires WellFormed(a) && a.id == nextId
    ensures TableInvariant(alerts + [a], nextId + 1)
  {
    var s := alerts + [a];
    forall i, j | 0 <= i < j < |s|
      ensures s[i].id != s[j].id
    {
      if j == |alerts| {
        assert s[i] in alerts;
      }
    }
  }

  /** The alerts table. */
  class AlertTable {
    var alerts: seq<Alert>
    var nextId: nat

    ghost predicate Valid()
      reads this
    {
      TableInvariant(alerts, nextId)
    }

    constructor ()
      ensures Valid() && alerts == []
    {
      alerts, nextId := [], 1;
    }

    /** `store`: validate, insert with status "new", then dispatch. A dispatch
        that ends early is only logged: the alert stays and the outcome is
        Success. Rejected input changes nothing. */
    method Store(input: AlertInput, logIds: set<nat>, modelIds: set<nat>, now: int,
                 roster: seq<User>, acting: Option<User>, failing: set<Delivery>)
      returns (outcome: Outcome, dispatched: Option<Dispatched>)
      requires Valid()
      modifies this
      ensures Valid()
      ensures Violations(input, logIds, modelIds, false) != {} ==>
        outcome == Error && dispatched == None && alerts == old(alerts) && nextId == old(nextId)
      ensures Violations(input, logIds, modelIds, false) == {} ==>
        && outcome == Success
        && alerts == old(alerts) + [Created(input, logIds, modelIds, old(nextId), now)]
        && dispatched == Some(Dispatch(roster, input.severity.value, acting, failing))
    {
      if Violations(input, logIds, modelIds, false) != {} {
        return Error, None;
      }
      var a := Created(input, logIds, modelIds, nextId, now);
      InsertKeepsInvariant(alerts, nextId, a);
      alerts := alerts + [a];
      nextId := nextId + 1;
      var r := SendAlertNotifications(roster, a.severity, acting, failing);
      return Success, Some(r);
    }

    /** `update`: a missing alert is a 404; rejected input changes nothing;
        otherwise only that alert changes. */
    method Update(id: nat, input: AlertInput, logIds: set<nat>, modelIds: set<nat>) returns (outcome: Outcome)
      requires Valid()
      modifies this
      ensures Valid() && nextId == old(nextId)
      ensures var k := IndexOfAlert(old(alerts), id);
        && (k == |old(alerts)| ==> outcome == NotFound && alerts == old(alerts))
        && (k < |old(alerts)| && Violations(input, logIds, modelIds, true) != {} ==>
              outcome == Error && alerts == old(alerts))
        && (k < |old(alerts)| && Violations(input, logIds, modelIds, true) == {} ==>
              outcome == Success
              && alerts == old(alerts)[k := Updated(old(alerts)[k], input, logIds, modelIds)])
    {
      var k := IndexOfAlert(alerts, id);
      if k == |alerts| {
        return NotFound;
      }
      if Violations(input, logIds, modelIds, true) != {} {
        return Error;
      }
      alerts := alerts[k := Updated(alerts[k], input, logIds, modelIds)];
      return Success;
    }
  }
}
