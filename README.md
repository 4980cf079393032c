# AssignCaseToLowestWorkloadUser — a verified model of the assignment decision

The plugin acts on any message whose `Target` input parameter is an
`incident` (case) entity; the host registers it on case creation. It
fetches the eligible users, asks for each one how many active cases they own,
keeps the first user with the fewest, and makes that user the owner of the new
case with a single `Update`. Any exception inside the `try` block (lines 42-127) is wrapped in
`InvalidPluginExecutionException` and rethrown.

The model has three modules:

- `Wrappers` (`wrappers.dfy`): the `Option` type, used for a null reference
  and for a service call that threw.
- `Workload` (`workload.dfy`): the selection rule on the sequence of counts.
  `IsFirstArgMin` states "earliest position of the minimum". `FirstArgMin` is
  a reference definition computed from the back of the sequence. `LeastBusy`
  adds the `int.MaxValue` seed of the running minimum. `MinCaseCount` is the
  value `minCaseCount` ends with.
- `AssignCaseToLowestWorkloadUser` (`assign_case.dfy`): the handler. The
  `Target` input parameter is a datatype: missing, not an entity, or an
  entity. The organization service is a value holding what it answers during
  one invocation: the user list or a throw, whether each user carries its
  `fullname` attribute, a count or a throw per user, and whether `Update`
  succeeds. The trace message at line 80 reads `user["fullname"]` inside the
  `try`, and that read throws when the attribute is absent, so it is part of
  each user's turn in the scan. `Execute` returns the outcome together with the
  log of the calls it issued, in order. `ScanUsers` is the `foreach` loop. It
  is proved against `LeastBusy` and `MinCaseCount` through loop invariants.

## Model

| member | source | states |
|---|---|---|
| `Workload.FirstArgMin` | AssignCaseToLowestWorkloadUser.cs:101-106 | the result is a position of a minimum count, and every earlier count is strictly greater |
| `Workload.FirstArgMinUnique` | AssignCaseToLowestWorkloadUser.cs:101-106 | any position that is the earliest minimum is the one `FirstArgMin` gives, so the choice is determined by the counts and their order |
| `Workload.LeastBusy` | AssignCaseToLowestWorkloadUser.cs:73-107 | no user is chosen exactly when every count equals `int.MaxValue`; otherwise the chosen position is the earliest minimum and its count is below `int.MaxValue` |
| `Workload.MinCaseCount` | AssignCaseToLowestWorkloadUser.cs:74-106 | the final `minCaseCount` is at most `int.MaxValue`, at most every user's count, and is either the seed or one of the counts |
| `Workload.LeastBusySnoc` | AssignCaseToLowestWorkloadUser.cs:101-106 | one loop step: a new count replaces the choice and the minimum exactly when it is strictly below the running minimum; on a tie the earlier user stays |
| `Workload.TieGoesToEarliest` | AssignCaseToLowestWorkloadUser.cs:101-106 | with counts 3, 1, 1 the second user is chosen and the minimum is 1 |
| `AssignCaseToLowestWorkloadUser.FirstUnanswered` | AssignCaseToLowestWorkloadUser.cs:80-96 | the position where the scan stops on a throw: reading that user's `fullname` or its count query throws, and every earlier user's turn completed |
| `AssignCaseToLowestWorkloadUser.ScanUsers` | AssignCaseToLowestWorkloadUser.cs:73-107 | the scan fails exactly when some user's `fullname` read or count query throws, and then it has issued the count queries of the users before the first failing one, plus that user's own query when it was the query that threw; otherwise it issues one query per user in list order, and `leastBusyUser` and `minCaseCount` are the earliest least-loaded user and the minimum, or null and `int.MaxValue` |
| `AssignCaseToLowestWorkloadUser.Execute` | AssignCaseToLowestWorkloadUser.cs:30-137 | a target that is not an `incident` entity gives no call and a normal return; a throwing user query gives the wrapped failure after that one call; an empty user list gives no count query and no update; a throwing `fullname` read or count query gives the wrapped failure with no update; otherwise one count query per user in order, then one `Update` of the same case setting `ownerid` to the earliest least-loaded user when one exists, ending in a normal return when `Update` succeeds and in the wrapped failure, with the `Update` still the last call, when it throws; at most one update is ever issued and only as the last call |
| `AssignCaseToLowestWorkloadUser.TieAtMinimumGoesToEarliest` | AssignCaseToLowestWorkloadUser.cs:77-116 | case C1 with users A, B, C holding 3, 1, 1 active cases: the owner becomes B, after the user query, three count queries in order and one `Update` |
| `AssignCaseToLowestWorkloadUser.MissingFullnameFails` | AssignCaseToLowestWorkloadUser.cs:80 | a user returned without `fullname` makes the invocation fail before that user's count query, with no update |

## Left out

- Obtaining the execution context, the tracing service and the organization
  service from the service provider (lines 19-25): host plumbing with no
  visible decision in it.
- The FetchXML user query and the per-user `QueryExpression` (lines 47-65,
  83-94): their results are inputs. The eligibility filter (enabled,
  interactive access mode, the fixed position) and the `fullname` ordering are
  applied by the platform, so the model takes the user list in the order
  returned.
- What `RetrieveMultiple` counts (paging, what an active case is in the store):
  a count is any `int` from 0 to `int.MaxValue`, as `Entities.Count` gives.
- Each user's count is one fixed answer per user id. The model therefore
  cannot express the same id returned twice in the user list with two
  different counts. The user query asks for distinct rows (line 48), and
  each listed user is queried once (line 96).
- The race between concurrent invocations that pick the same user: the
  handler has no concurrency logic.
- Tracing calls: logging only, apart from the `fullname` read their
  arguments make at line 80. The reads at lines 99 and 111 are of a user
  whose `fullname` was already read at line 80, so they cannot throw on
  their own and add nothing to the model.
- The exception type, message and inner exception: a failure is the single
  `Failed` outcome.
- What `Update` does to the store (the owner overwrite itself): the model
  records the call and its arguments, not the store's state. For the same
  reason, re-running the handler on an already assigned case is not modelled
  beyond the handler being a function of the answers it receives.
- A user entity's other attributes: a user is its id and whether it carries
  `fullname`.
