/** Plan subscription in `EligiblePlanUserService`: the "already
    subscribed" check and `subscribePlan`, which asks the payment provider for
    a subscription and then marks the user's eligibility row as subscribed.
    The eligibility table is an array of rows in the order the repository
    returns them; the payment provider's answers are inputs. */
module EligiblePlanUserService {
  import opened Wrappers
  import opened Domain

  const AlreadySubscribed := "Already Subscribed"
  const CustomerRetrievalFailed := "Failed at retrieving customer information"
  const SubscribeFailed := "Subscribe Failed"
  const FailedUnexpected := "Failed unexpected"

  /** `userIsEligible`: `found` is the row `findOneByUserEmail` returns for
      the e-mail. It is the row's own id, not the id of its plan group, that
      is compared with the plan id. */
  function UserIsEligible(found: Option<EligibleRecord>, planId: int): (eligible: bool)
    ensures eligible <==> exists row :: found == Some(row) && row.id == planId
  {
    found.Some? && found.value.id == planId
  }

  /** Only the row's own id decides: its plan group and its subscribed flag
      play no part. */
  lemma EligibilityComparesRowId(row: EligibleRecord, planId: int, group: Option<ParkingPlan>, subscribed: bool)
    ensures UserIsEligible(Some(row.(planGroup := group, subscribed := subscribed)), planId)
              == UserIsEligible(Some(row), planId)
    ensures UserIsEligible(Some(row), planId) <==> row.id == planId
    ensures !UserIsEligible(None, planId)
  {
  }

  /** The loop of `subscribePlan` looks at the rows for `email` in order:
      a row whose plan group has the plan id is the match; a row with no plan
      group makes `getPlanGroup().getId()` throw. */
  predicate MatchesPlan(row: EligibleRecord, email: string, planId: int)
  {
    row.userEmail == email && row.planGroup.Some? && row.planGroup.value.id == planId
  }

  /** A row the loop passes over: another user's, or this user's for another plan group. */
  predicate PassesOver(row: EligibleRecord, email: string, planId: int)
  {
    row.userEmail != email || (row.planGroup.Some? && row.planGroup.value.id != planId)
  }

  datatype PlanMatch = MatchAt(index: nat) | NoMatch | NullPlanGroupAt(index: nat)

  /** Where the loop of `subscribePlan` ends when it starts at row `i`. */
  function FindPlanFrom(rows: seq<EligibleRecord>, email: string, planId: int, i: nat): (m: PlanMatch)
    requires i <= |rows|
    ensures m.MatchAt? ==>
              && i <= m.index < |rows| && MatchesPlan(rows[m.index], email, planId)
              && forall j :: i <= j < m.index ==> PassesOver(rows[j], email, planId)
    ensures m.NullPlanGroupAt? ==>
              && i <= m.index < |rows| && rows[m.index].userEmail == email && rows[m.index].planGroup.None?
              && forall j :: i <= j < m.index ==> PassesOver(rows[j], email, planId)
    ensures m.NoMatch? ==> forall j :: i <= j < |rows| ==> PassesOver(rows[j], email, planId)
    decreases |rows| - i
  {
    if i == |rows| then NoMatch
    else if rows[i].userEmail != email then FindPlanFrom(rows, email, planId, i + 1)
    else if rows[i].planGroup.None? then NullPlanGroupAt(i)
    else if rows[i].planGroup.value.id == planId then MatchAt(i)
    else FindPlanFrom(rows, email, planId, i + 1)
  }

  /** What `subscribePlan` returns and what the table holds afterwards.
      `customerFound` says whether retrieving the customer succeeded and
      `subscription` is the id of the subscription the provider created
      (`None` if creating it threw). */
  function Subscribe(rows: seq<EligibleRecord>, email: string, planId: int, found: Option<EligibleRecord>,
                     customerFound: bool, subscription: Option<string>): (Outcome<string>, seq<EligibleRecord>)
  {
    if UserIsEligible(found, planId) then (Returned(AlreadySubscribed), rows)
    else if !customerFound then (Returned(CustomerRetrievalFailed), rows)
    else if subscription.None? then (Returned(SubscribeFailed), rows)
    else
      match FindPlanFrom(rows, email, planId, 0)
      case MatchAt(k) => (Returned(subscription.value), rows[k := rows[k].(subscribed := true)])
      case NoMatch => (Returned(FailedUnexpected), rows)
      case NullPlanGroupAt(_) => (NullPointerException, rows)
  }

  /** `subscribePlan` on the table `table`, flipping the matching row in place. */
  method SubscribePlan(table: array<EligibleRecord>, email: string, planId: int, found: Option<EligibleRecord>,
                       customerFound: bool, subscription: Option<string>)
    returns (result: Outcome<string>)
    modifies table
    ensures (result, table[..]) == Subscribe(old(table[..]), email, planId, found, customerFound, subscription)
  {
    if UserIsEligible(found, planId) {
      return Returned(AlreadySubscribed);
    }
    if !customerFound {
      return Returned(CustomerRetrievalFailed);
    }
    if subscription.None? {
      return Returned(SubscribeFailed);
    }
    var i := 0;
    while i < table.Length
      invariant 0 <= i <= table.Length
      invariant table[..] == old(table[..])
      invariant FindPlanFrom(table[..], email, planId, 0) == FindPlanFrom(table[..], email, planId, i)
    {
      var row := table[i];
      if row.userEmail == email {
        if row.planGroup.None? {
          return NullPointerException;
        }
        if row.planGroup.value.id == planId {
          table[i] := row.(subscribed := true);
          return Returned(subscription.value);
        }
      }
      i := i + 1;
    }
    return Returned(FailedUnexpected);
  }

  /** An eligible user gets "Already Subscribed" and the table is untouched. */
  lemma AlreadyEligibleChangesNothing(rows: seq<EligibleRecord>, email: string, planId: int, found: Option<EligibleRecord>,
                                      customerFound: bool, subscription: Option<string>)
    requires UserIsEligible(found, planId)
    ensures Subscribe(rows, email, planId, found, customerFound, subscription) == (Returned(AlreadySubscribed), rows)
  {
  }

  /** A failure at the payment provider is reported and the table is untouched. */
  lemma PaymentFailureChangesNothing(rows: seq<EligibleRecord>, email: string, planId: int, found: Option<EligibleRecord>,
                                     customerFound: bool, subscription: Option<string>)
    requires !UserIsEligible(found, planId)
    requires !customerFound || subscription.None?
    ensures var (result, after) := Subscribe(rows, email, planId, found, customerFound, subscription);
            && after == rows
            && result == Returned(if !customerFound then CustomerRetrievalFailed else SubscribeFailed)
  {
  }

  /** After a successful subscription, the first of the user's rows for the
      plan group is marked subscribed, every other row is as it was, and the
      subscription id is returned. */
  lemma SuccessMarksFirstMatchingRow(rows: seq<EligibleRecord>, email: string, planId: int, found: Option<EligibleRecord>,
                                     subscriptionId: string, k: nat)
    requires !UserIsEligible(found, planId)
    requires k < |rows| && MatchesPlan(rows[k], email, planId)
    requires forall j :: 0 <= j < k ==> PassesOver(rows[j], email, planId)
    ensures var (result, after) := Subscribe(rows, email, planId, found, true, Some(subscriptionId));
            && result == Returned(subscriptionId)
            && |after| == |rows|
            && after[k] == rows[k].(subscribed := true)
            && forall j :: 0 <= j < |rows| && j != k ==> after[j] == rows[j]
  {
  }

  /** When no row of the user's has the plan group, the subscription has
      been created but the call reports "Failed unexpected" and the table is
      untouched. */
  lemma NoMatchingRowFailsUnexpectedly(rows: seq<EligibleRecord>, email: string, planId: int, found: Option<EligibleRecord>,
                                       subscriptionId: string)
    requires !UserIsEligible(found, planId)
    requires forall j :: 0 <= j < |rows| ==> PassesOver(rows[j], email, planId)
    ensures Subscribe(rows, email, planId, found, true, Some(subscriptionId)) == (Returned(FailedUnexpected), rows)
  {
  }

  /** Whatever the inputs, at most one row changes, only by becoming
      subscribed, and it is a row of the user's for the plan group. */
  lemma SubscribeChangesAtMostOneRow(rows: seq<EligibleRecord>, email: string, planId: int, found: Option<EligibleRecord>,
                                     customerFound: bool, subscription: Option<string>)
    ensures var after := Subscribe(rows, email, planId, found, customerFound, subscription).1;
            && |after| == |rows|
            && forall j :: 0 <= j < |rows| && after[j] != rows[j] ==>
                 && after[j] == rows[j].(subscribed := true)
                 && MatchesPlan(rows[j], email, planId)
                 && forall i :: 0 <= i < |rows| && i != j ==> after[i] == rows[i]
  {
  }

  /** The check never looks at the subscribed flag: a user whose row is
      already subscribed but whose row id differs from the plan id is sent to
      the payment provider again, and the same row is marked again. */
  lemma ResubscribingSubscribesAgain(rows: seq<EligibleRecord>, email: string, planId: int, found: Option<EligibleRecord>,
                                     subscriptionId: string, k: nat)
    requires !UserIsEligible(found, planId)
    requires k < |rows| && MatchesPlan(rows[k], email, planId) && rows[k].subscribed
    requires forall j :: 0 <= j < k ==> PassesOver(rows[j], email, planId)
    ensures Subscribe(rows, email, planId, found, true, Some(subscriptionId)) == (Returned(subscriptionId), rows)
  {
    assert rows[k := rows[k].(subscribed := true)] == rows;
  }
}
