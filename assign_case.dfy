/** The plugin that, when a case is created, makes the eligible user with the
    fewest active cases its owner. The organization service is replaced by the
    answers it gives during one invocation, and every call the handler makes
    on it is recorded, in order, in a call log. */
module AssignCaseToLowestWorkloadUser {
  import opened Wrappers
  import opened Workload

  type Guid = string

  /** Logical name of the case entity. */
  const Incident: string := "incident"
  /** Logical name of the user entity an owner reference points to. */
  const SystemUser: string := "systemuser"

  datatype Entity = Entity(logicalName: string, id: Guid)
  datatype EntityReference = EntityReference(logicalName: string, id: Guid)

  /** The "Target" input parameter: absent, present but not an entity, or an entity. */
  datatype Target = Missing | NotAnEntity | AnEntity(entity: Entity)

  /** What the organization service answers during one invocation: the
      eligible users in the order returned, whether each returned user
      carries its `fullname` attribute, and, per user, the number of active
      cases they own. `None` stands for a call that threw. */
  datatype Service = Service(
    eligibleUsers: Option<seq<Guid>>,
    hasFullname: Guid -> bool,
    activeCases: Guid -> Option<Count>,
    updateSucceeds: bool)

  /** A call issued on the organization service. */
  datatype Call =
    | RetrieveEligibleUsers
    | RetrieveActiveCases(userId: Guid)
    | Update(logicalName: string, id: Guid, ownerId: EntityReference)

  /** How the invocation ends: normal return without a write, normal return
      after the owner update, or the wrapped exception. */
  datatype Outcome = NoOp | Assigned(caseId: Guid, userId: Guid) | Failed

  /** What the scan over the users leaves behind: a user's turn threw, or
      the final `leastBusyUser` and `minCaseCount`. */
  datatype Scan = TurnFailed | Scanned(leastBusyUser: Option<Guid>, minCaseCount: int)

  /** The target is an entity whose logical name is "incident". */
  predicate IsCase(target: Target)
  {
    target.AnEntity? && target.entity.logicalName == Incident
  }

  /** One active-case query per user, in the given order. */
  function CountQueries(users: seq<Guid>): seq<Call>
  {
    seq(|users|, i requires 0 <= i < |users| => RetrieveActiveCases(users[i]))
  }

  /** A user's turn in the scan completes: reading its `fullname` for the
      trace does not throw, and its count query returns. */
  ghost predicate Answered(service: Service, user: Guid)
  {
    service.hasFullname(user) && service.activeCases(user).Some?
  }

  /** Every user's turn completes. */
  ghost predicate AllAnswered(users: seq<Guid>, service: Service)
  {
    forall i :: 0 <= i < |users| ==> Answered(service, users[i])
  }

  /** The position of the first user whose turn throws. */
  ghost function FirstUnanswered(users: seq<Guid>, service: Service): (f: nat)
    requires !AllAnswered(users, service)
    ensures f < |users| && !Answered(service, users[f])
    ensures forall j :: 0 <= j < f ==> Answered(service, users[j])
  {
    if !Answered(service, users[0]) then 0
    else 1 + FirstUnanswered(users[1..], service)
  }

  /** The calls a scan that throws has issued: the count queries of the
      users before the failing one, and the failing user's own query when
      it is its count query, not the read of its `fullname`, that throws. */
  ghost function CallsBeforeFailure(users: seq<Guid>, service: Service): seq<Call>
    requires !AllAnswered(users, service)
  {
    var f := FirstUnanswered(users, service);
    CountQueries(users[..f]) +
    if service.hasFullname(users[f]) then [RetrieveActiveCases(users[f])] else []
  }

  /** The counts the queries return, in user order. */
  ghost function CountsOf(users: seq<Guid>, service: Service): seq<Count>
    requires AllAnswered(users, service)
  {
    seq(|users|, i requires 0 <= i < |users| => service.activeCases(users[i]).value)
  }

  lemma CountQueriesSnoc(users: seq<Guid>, i: nat)
    requires i < |users|
    ensures CountQueries(users[..i + 1]) == CountQueries(users[..i]) + [RetrieveActiveCases(users[i])]
  {
  }

  lemma CountsOfSnoc(users: seq<Guid>, service: Service, i: nat)
    requires i < |users| && forall j :: 0 <= j <= i ==> Answered(service, users[j])
    ensures CountsOf(users[..i + 1], service) == CountsOf(users[..i], service) + [service.activeCases(users[i]).value]
  {
  }

  /** The scan stops at position `i` exactly when `i` is the first failing turn. */
  lemma FirstUnansweredAt(users: seq<Guid>, service: Service, i: nat)
    requires i < |users| && !Answered(service, users[i])
    requires forall j :: 0 <= j < i ==> Answered(service, users[j])
    ensures !AllAnswered(users, service)
    ensures FirstUnanswered(users, service) == i
  {
  }

  /** The user at an optional position: the `Entity` reference the scan keeps, or null. */
  function UserAt(users: seq<Guid>, k: Option<nat>): Option<Guid>
    requires k.Some? ==> k.value < |users|
  {
    match k
    case None => None
    case Some(i) => Some(users[i])
  }

  /** The `foreach` over the users: for each one in order, read its
      `fullname` for the trace, then issue its count query, keeping the first
      user whose count is strictly below the running minimum. Either step
      throwing ends the scan. */
  method ScanUsers(users: seq<Guid>, service: Service) returns (scan: Scan, calls: seq<Call>)
    ensures scan.TurnFailed? <==> !AllAnswered(users, service)
    ensures scan.TurnFailed? ==> calls == CallsBeforeFailure(users, service)
    ensures scan.Scanned? ==> calls == CountQueries(users)
    ensures scan.Scanned? ==>
      var cs := CountsOf(users, service);
      scan.minCaseCount == MinCaseCount(cs) && scan.leastBusyUser == UserAt(users, LeastBusy(cs))
  {
    var leastBusyUser: Option<Guid> := None;
    var minCaseCount: int := IntMax;
    calls := [];
    ghost var counts: seq<Count> := [];
    var i := 0;
    while i < |users|
      invariant 0 <= i <= |users|
      invariant forall j :: 0 <= j < i ==> Answered(service, users[j])
      invariant counts == CountsOf(users[..i], service)
      invariant calls == CountQueries(users[..i])
      invariant minCaseCount == MinCaseCount(counts)
      invariant leastBusyUser == UserAt(users, LeastBusy(counts))
    {
      var user := users[i];
      if !service.hasFullname(user) {
        FirstUnansweredAt(users, service, i);
        return TurnFailed, calls;
      }
      calls := calls + [RetrieveActiveCases(user)];
      CountQueriesSnoc(users, i);
      var userCases := service.activeCases(user);
      if userCases.None? {
        FirstUnansweredAt(users, service, i);
        return TurnFailed, calls;
      }
      var userCaseCount := userCases.value;
      CountsOfSnoc(users, service, i);
      LeastBusySnoc(counts, userCaseCount);
      if userCaseCount < minCaseCount {
        leastBusyUser := Some(user);
        minCaseCount := userCaseCount;
      }
      counts := counts + [userCaseCount];
      i := i + 1;
    }
    assert users[..i] == users;
    scan := Scanned(leastBusyUser, minCaseCount);
  }

  /** The plugin's entry point. */
  method Execute(target: Target, service: Service) returns (outcome: Outcome, calls: seq<Call>)
    // Not an "incident" entity: return before any call.
    ensures !IsCase(target) ==> outcome == NoOp && calls == []
    // No eligible users: the user query only, no update.
    ensures IsCase(target) && service.eligibleUsers == Some([]) ==>
      outcome == NoOp && calls == [RetrieveEligibleUsers]
    // At most one update, only as the last call, and an assignment is that update.
    ensures forall i :: 0 <= i < |calls| - 1 ==> !calls[i].Update?
    ensures outcome.Assigned? ==>
      IsCase(target) && outcome.caseId == target.entity.id && |calls| > 0 &&
      calls[|calls| - 1] == Update(Incident, outcome.caseId, EntityReference(SystemUser, outcome.userId))
    // The user query threw: wrapped failure, nothing else issued.
    ensures IsCase(target) && service.eligibleUsers.None? ==>
      outcome == Failed && calls == [RetrieveEligibleUsers]
    // A user's turn threw: the queries issued up to that point, no update.
    ensures IsCase(target) && service.eligibleUsers.Some? &&
            !AllAnswered(service.eligibleUsers.value, service) ==>
      outcome == Failed &&
      calls == [RetrieveEligibleUsers] + CallsBeforeFailure(service.eligibleUsers.value, service)
    // Every query returned: one count query per user, then one update iff a
    // user was chosen, setting the case's owner to the first least-loaded user.
    ensures IsCase(target) && service.eligibleUsers.Some? &&
            AllAnswered(service.eligibleUsers.value, service) ==>
      var users := service.eligibleUsers.value;
      var caseId := target.entity.id;
      match UserAt(users, LeastBusy(CountsOf(users, service)))
      case None =>
        outcome == NoOp && calls == [RetrieveEligibleUsers] + CountQueries(users)
      case Some(owner) =>
        calls == [RetrieveEligibleUsers] + CountQueries(users) +
                 [Update(Incident, caseId, EntityReference(SystemUser, owner))] &&
        outcome == (if service.updateSucceeds then Assigned(caseId, owner) else Failed)
  {
    calls := [];
    if !target.AnEntity? {
      return NoOp, calls;
    }
    var caseEntity := target.entity;
    if caseEntity.logicalName != Incident {
      return NoOp, calls;
    }
    calls := calls + [RetrieveEligibleUsers];
    if service.eligibleUsers.None? {
      return Failed, calls;
    }
    var users := service.eligibleUsers.value;
    if |users| > 0 {
      var scan, queries := ScanUsers(users, service);
      calls := calls + queries;
      if scan.TurnFailed? {
        return Failed, calls;
      }
      if scan.leastBusyUser.Some? {
        var owner := scan.leastBusyUser.value;
        calls := calls + [Update(caseEntity.logicalName, caseEntity.id, EntityReference(SystemUser, owner))];
        outcome := if service.updateSucceeds then Assigned(caseEntity.id, owner) else Failed;
      } else {
        outcome := NoOp;
      }
    } else {
      outcome := NoOp;
    }
  }

  /** Case C1 with users A, B and C holding 3, 1 and 1 active cases, in that
      order: B, the first of the two tied at the minimum, becomes the owner. */
  method TieAtMinimumGoesToEarliest() returns (outcome: Outcome, calls: seq<Call>)
    ensures outcome == Assigned("C1", "B")
    ensures calls == [RetrieveEligibleUsers, RetrieveActiveCases("A"), RetrieveActiveCases("B"),
                      RetrieveActiveCases("C"), Update(Incident, "C1", EntityReference(SystemUser, "B"))]
  {
    var users: seq<Guid> := ["A", "B", "C"];
    var service := Service(Some(users), _ => true, u => if u == "A" then Some(3) else Some(1), true);
    outcome, calls := Execute(AnEntity(Entity(Incident, "C1")), service);
    assert CountsOf(users, service) == [3, 1, 1];
    TieGoesToEarliest();
  }

  /** Case C1 with users A and B where B comes back without `fullname`:
      reading it for the trace throws before B's count query, so the
      invocation fails after A's query and issues no update. */
  method MissingFullnameFails() returns (outcome: Outcome, calls: seq<Call>)
    ensures outcome == Failed
    ensures calls == [RetrieveEligibleUsers, RetrieveActiveCases("A")]
  {
    var users: seq<Guid> := ["A", "B"];
    var service := Service(Some(users), u => u != "B", _ => Some(0), true);
    outcome, calls := Execute(AnEntity(Entity(Incident, "C1")), service);
    assert FirstUnanswered(users, service) == 1;
    assert users[..1] == ["A"];
  }
}
