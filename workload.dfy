/** The least-loaded choice the handler makes, stated on the sequence of
    active-case counts in the order the users were returned. */
module Workload {
  import opened Wrappers

  /** `int.MaxValue`: the seed of the handler's running minimum. */
  const IntMax: int := 0x7FFF_FFFF

  /** A record count as the handler holds it: a non-negative 32-bit `int`. */
  type Count = c: int | 0 <= c <= IntMax

  /** `k` is the earliest position that holds the minimum of `cs`. */
  ghost predicate IsFirstArgMin(cs: seq<int>, k: int)
  {
    0 <= k < |cs| &&
    (forall j :: 0 <= j < |cs| ==> cs[k] <= cs[j]) &&
    (forall j :: 0 <= j < k ==> cs[k] < cs[j])
  }

  /** The reference argmin, computed from the back of the sequence. */
  function FirstArgMin(cs: seq<int>): (k: nat)
    requires |cs| > 0
    ensures IsFirstArgMin(cs, k)
  {
    if |cs| == 1 then 0
    else
      var init := cs[..|cs| - 1];
      var k := FirstArgMin(init);
      assert forall j :: 0 <= j < |init| ==> init[j] == cs[j];
      if cs[|cs| - 1] < cs[k] then |cs| - 1 else k
  }

  /** There is only one earliest minimum position. */
  lemma FirstArgMinUnique(cs: seq<int>, k: int)
    requires IsFirstArgMin(cs, k)
    ensures k == FirstArgMin(cs)
  {
  }

  /** The position of the user the handler settles on, or `None` when the
      running minimum never drops below its `int.MaxValue` seed. */
  function LeastBusy(cs: seq<Count>): (r: Option<nat>)
    ensures r.None? <==> forall j :: 0 <= j < |cs| ==> cs[j] == IntMax
    ensures r.Some? ==> IsFirstArgMin(cs, r.value) && cs[r.value] < IntMax
  {
    if |cs| == 0 then None
    else
      var k := FirstArgMin(cs);
      if cs[k] < IntMax then Some(k) else None
  }

  /** The value the running minimum ends with: the least of the counts and
      the `int.MaxValue` seed. */
  function MinCaseCount(cs: seq<Count>): (m: int)
    ensures m <= IntMax && forall j :: 0 <= j < |cs| ==> m <= cs[j]
    ensures m == IntMax || m in cs
  {
    match LeastBusy(cs)
    case None => IntMax
    case Some(k) => cs[k]
  }

  /** One step of the scan: a new count replaces the choice exactly when it
      is strictly below the running minimum, so a tie keeps the earlier user. */
  lemma LeastBusySnoc(cs: seq<Count>, c: Count)
    ensures LeastBusy(cs + [c]) == if c < MinCaseCount(cs) then Some(|cs|) else LeastBusy(cs)
    ensures MinCaseCount(cs + [c]) == if c < MinCaseCount(cs) then c else MinCaseCount(cs)
  {
  }

  /** Three users with 3, 1 and 1 active cases: the second one is chosen. */
  lemma TieGoesToEarliest()
    ensures LeastBusy([3, 1, 1]) == Some(1)
    ensures MinCaseCount([3, 1, 1]) == 1
  {
  }
}
