/** The list logic of `SalesActivityService`: the activity filter, the
    in-flight lookup, and the construction of new sale activities, including
    the scan that correlates a subscription with one of its invoices. */
module SalesActivityService {
  import opened Wrappers
  import opened Domain
  import opened Seqs

  /** The vehicle has entered and has not left yet. */
  predicate IsInFlight(a: SaleActivity)
  {
    a.entryDatetime.Some? && a.exitDatetime.None?
  }

  predicate HasEntry(a: SaleActivity)
  {
    a.entryDatetime.Some?
  }

  predicate HasEntryAndCharge(a: SaleActivity)
  {
    a.entryDatetime.Some? && a.chargeAmount.Some?
  }

  predicate HasPositiveCharge(a: SaleActivity)
  {
    a.chargeAmount.Some? && a.chargeAmount.value > 0.0
  }

  // ---------------------------------------------------------------------
  // findInFlightActivityByUser
  // ---------------------------------------------------------------------

  /** The in-flight activities among `activities` (the user's activities as
      the repository returns them): every activity that does not qualify is
      skipped and the scan goes on. */
  method FindInFlightActivityByUser(activities: seq<SaleActivity>) returns (inFlight: seq<SaleActivity>)
    ensures inFlight == Where(activities, IsInFlight)
  {
    inFlight := [];
    var i := 0;
    while i < |activities|
      invariant 0 <= i <= |activities|
      invariant inFlight == Where(activities[..i], IsInFlight)
    {
      var activity := activities[i];
      if activity.entryDatetime.Some? && activity.exitDatetime.None? {
        inFlight := inFlight + [activity];
      }
      assert activities[..i + 1] == activities[..i] + [activity];
      WhereAppend(activities[..i], [activity], IsInFlight);
      i := i + 1;
    }
    assert activities[..i] == activities;
  }

  // ---------------------------------------------------------------------
  // filter
  // ---------------------------------------------------------------------

  /** What one iteration of `filter` does with an activity when `inFlight`
      is false: add it and go on, leave the loop, or unbox a null charge. */
  datatype Step = Keep | Stop | UnboxNullCharge

  function StepFor(a: SaleActivity, sale: bool, record: bool): Step
  {
    if sale then
      if record then
        (if a.entryDatetime.Some? && a.chargeAmount.Some? then Keep else Stop)
      else
        match a.chargeAmount
        case None => UnboxNullCharge
        case Some(charge) => if charge > 0.0 then Keep else Stop
    else if record then
      (if a.entryDatetime.Some? then Keep else Stop)
    else
      Keep
  }

  /** The outcome of `filter` (with `inFlight` false) once the activities
      before index `i` have all been added: the list ends at the first
      activity that is not kept. */
  function ScanFrom(acts: seq<SaleActivity>, sale: bool, record: bool, i: nat): (r: Outcome<seq<SaleActivity>>)
    requires i <= |acts|
    ensures r.Returned? ==> i <= |r.value| <= |acts| && r.value == acts[..|r.value|]
    ensures r.Returned? ==> forall k :: i <= k < |r.value| ==> StepFor(acts[k], sale, record) == Keep
    ensures r.Returned? && |r.value| < |acts| ==> StepFor(acts[|r.value|], sale, record) == Stop
    ensures r.NullPointerException? ==>
      exists k :: i <= k < |acts| && StepFor(acts[k], sale, record) == UnboxNullCharge
                  && forall j :: i <= j < k ==> StepFor(acts[j], sale, record) == Keep
    decreases |acts| - i
  {
    if i == |acts| then Returned(acts)
    else
      match StepFor(acts[i], sale, record)
      case Keep => ScanFrom(acts, sale, record, i + 1)
      case Stop => Returned(acts[..i])
      case UnboxNullCharge => NullPointerException
  }

  /** What `filter` returns: with `inFlight` set only the first activity is
      looked at; otherwise the scan runs until the first activity that the
      other two flags reject. */
  function Filtering(acts: seq<SaleActivity>, sale: bool, record: bool, inFlight: bool): Outcome<seq<SaleActivity>>
  {
    if inFlight then Returned(if |acts| > 0 && IsInFlight(acts[0]) then [acts[0]] else [])
    else ScanFrom(acts, sale, record, 0)
  }

  /** `filter` with the branch structure of the source, including its
      `break`s. The input is a sequence, so it is left as it was. */
  method Filter(activities: seq<SaleActivity>, sale: bool, record: bool, inFlight: bool)
    returns (result: Outcome<seq<SaleActivity>>)
    ensures result == Filtering(activities, sale, record, inFlight)
  {
    var filteredList: seq<SaleActivity> := [];
    var i := 0;
    while i < |activities|
      invariant 0 <= i <= |activities|
      invariant inFlight ==> i == 0
      invariant filteredList == activities[..i]
      invariant ScanFrom(activities, sale, record, 0) == ScanFrom(activities, sale, record, i)
    {
      var activity := activities[i];
      if inFlight {
        assert i == 0 && filteredList == [];
        if activity.entryDatetime.Some? && activity.exitDatetime.None? {
          filteredList := filteredList + [activity];
        }
        assert activity == activities[0];
        assert filteredList == if IsInFlight(activity) then [activity] else [];
        assert Filtering(activities, sale, record, true) == Returned(if IsInFlight(activity) then [activity] else []);
        break;
      }
      if sale {
        if record {
          if activity.entryDatetime.Some? && activity.chargeAmount.Some? {
            filteredList := filteredList + [activity];
          } else {
            assert StepFor(activity, sale, record) == Stop;
            assert Filtering(activities, sale, record, inFlight) == Returned(filteredList);
            break;
          }
        } else {
          if activity.chargeAmount.None? {
            assert StepFor(activity, sale, record) == UnboxNullCharge;
            assert ScanFrom(activities, sale, record, i) == NullPointerException;
            return NullPointerException;
          }
          if activity.chargeAmount.value > 0.0 {
            filteredList := filteredList + [activity];
          } else {
            assert StepFor(activity, sale, record) == Stop;
            assert Filtering(activities, sale, record, inFlight) == Returned(filteredList);
            break;
          }
        }
      } else {
        if record {
          if activity.entryDatetime.Some? {
            filteredList := filteredList + [activity];
          } else {
            assert StepFor(activity, sale, record) == Stop;
            assert Filtering(activities, sale, record, inFlight) == Returned(filteredList);
            break;
          }
        } else {
          filteredList := filteredList + [activity];
        }
      }
      assert StepFor(activity, sale, record) == Keep;
      assert filteredList == activities[..i + 1];
      i := i + 1;
      if i == |activities| {
        assert filteredList == activities;
        assert Filtering(activities, sale, record, inFlight) == Returned(filteredList);
      }
    }
    result := Returned(filteredList);
  }

  /** Whatever the flags, a list that `filter` returns is a prefix of its
      input, in the input's order. */
  lemma FilterReturnsPrefix(acts: seq<SaleActivity>, sale: bool, record: bool, inFlight: bool)
    ensures var r := Filtering(acts, sale, record, inFlight);
            r.Returned? ==> |r.value| <= |acts| && r.value == acts[..|r.value|]
  {
  }

  /** With `inFlight` set, `sale` and `record` are ignored and nothing past
      the first activity is examined. */
  lemma InFlightExaminesOnlyFirst(acts: seq<SaleActivity>, sale: bool, record: bool, sale': bool, record': bool)
    ensures Filtering(acts, sale, record, true) == Filtering(acts, sale', record', true)
    ensures Filtering(acts, sale, record, true) == Filtering(acts[..if |acts| == 0 then 0 else 1], sale, record, true)
    ensures Filtering(acts, sale, record, true).Returned?
    ensures Filtering(acts, sale, record, true).value == if |acts| > 0 && IsInFlight(acts[0]) then [acts[0]] else []
  {
  }

  /** When every activity is either kept or stops the loop according to
      `p`, the scan yields the longest prefix satisfying `p`. */
  lemma ScanIsTakeWhile(acts: seq<SaleActivity>, sale: bool, record: bool, p: SaleActivity -> bool)
    requires forall a :: StepFor(a, sale, record) == (if p(a) then Keep else Stop)
    ensures ScanFrom(acts, sale, record, 0) == Returned(TakeWhile(acts, p))
  {
    var r := ScanFrom(acts, sale, record, 0);
    LongestPrefixWhereUnique(r.value, TakeWhile(acts, p), acts, p);
  }

  /** `sale` and `record` set: the longest prefix whose activities all have
      an entry time and a charge. A null charge never throws here. */
  lemma SaleAndRecordFilter(acts: seq<SaleActivity>)
    ensures Filtering(acts, true, true, false) == Returned(TakeWhile(acts, HasEntryAndCharge))
  {
    ScanIsTakeWhile(acts, true, true, HasEntryAndCharge);
  }

  /** Only `record` set: the longest prefix whose activities all have an
      entry time. */
  lemma RecordOnlyFilter(acts: seq<SaleActivity>)
    ensures Filtering(acts, false, true, false) == Returned(TakeWhile(acts, HasEntry))
  {
    ScanIsTakeWhile(acts, false, true, HasEntry);
  }

  /** No flag set: the input comes back whole. */
  lemma NoFlagFilterIsIdentity(acts: seq<SaleActivity>)
    ensures Filtering(acts, false, false, false) == Returned(acts)
  {
    var r := ScanFrom(acts, false, false, 0);
    assert forall a :: StepFor(a, false, false) == Keep;
    assert r.Returned?;
    assert |r.value| == |acts|;
    assert acts[..|acts|] == acts;
  }

  /** Only `sale` set: the longest prefix whose activities all have a
      positive charge; if the activity that ends that prefix has a null
      charge, unboxing it throws instead. */
  lemma SaleOnlyFilter(acts: seq<SaleActivity>)
    ensures var w := TakeWhile(acts, HasPositiveCharge);
            Filtering(acts, true, false, false)
              == if |w| < |acts| && acts[|w|].chargeAmount.None? then NullPointerException else Returned(w)
  {
    var w := TakeWhile(acts, HasPositiveCharge);
    var r := ScanFrom(acts, true, false, 0);
    if r.Returned? {
      LongestPrefixWhereUnique(r.value, w, acts, HasPositiveCharge);
    } else {
      var k :| 0 <= k < |acts| && StepFor(acts[k], true, false) == UnboxNullCharge
               && forall j :: 0 <= j < k ==> StepFor(acts[j], true, false) == Keep;
      LongestPrefixWhereUnique(acts[..k], w, acts, HasPositiveCharge);
    }
  }

  /** The corrected filter: the activities the three flags select, with the
      ones that do not qualify skipped rather than ending the scan. */
  predicate Selected(a: SaleActivity, sale: bool, record: bool, inFlight: bool)
  {
    if inFlight then IsInFlight(a)
    else if sale && record then HasEntryAndCharge(a)
    else if sale then HasPositiveCharge(a)
    else if record then HasEntry(a)
    else true
  }

  function FilterCorrected(acts: seq<SaleActivity>, sale: bool, record: bool, inFlight: bool): (r: seq<SaleActivity>)
    ensures forall a :: a in r <==> a in acts && Selected(a, sale, record, inFlight)
  {
    Where(acts, a => Selected(a, sale, record, inFlight))
  }

  /** The corrected filter in in-flight mode is exactly what
      `findInFlightActivityByUser` computes. */
  lemma CorrectedInFlightIsFindInFlight(acts: seq<SaleActivity>, sale: bool, record: bool)
    ensures FilterCorrected(acts, sale, record, true) == Where(acts, IsInFlight)
  {
    WhereCongruent(acts, a => Selected(a, sale, record, true), IsInFlight);
  }

  /** The `break` loses a qualifying activity that follows a rejected one:
      with only `record` set, an activity with no entry time hides a later
      activity that has one. */
  lemma FilterStopsAtFirstMismatch()
    ensures var pending := BlankSaleActivity;
            var parked := BlankSaleActivity.(entryDatetime := Some(0));
            && Filtering([pending, parked], false, true, false) == Returned([])
            && FilterCorrected([pending, parked], false, true, false) == [parked]
  {
    var pending := BlankSaleActivity;
    var parked := BlankSaleActivity.(entryDatetime := Some(0));
    RecordOnlyFilter([pending, parked]);
    assert !HasEntry([pending, parked][0]);
    var p := (a: SaleActivity) => Selected(a, false, true, false);
    assert [pending, parked][1..] == [parked];
    assert [parked][1..] == [];
    assert Where([parked], p) == [parked] + Where([], p);
    assert Where([pending, parked], p) == [] + Where([parked], p);
  }

  /** In-flight mode of `filter` against `findInFlightActivityByUser`: the
      filter's answer is at most the first in-flight activity, and only when
      that activity comes first. */
  lemma InFlightFilterIsPrefixOfFindInFlight(acts: seq<SaleActivity>, sale: bool, record: bool)
    ensures var r := Filtering(acts, sale, record, true).value;
            var all := Where(acts, IsInFlight);
            |r| <= 1 && r == all[..|r|]
  {
    if |acts| > 0 {
      assert acts == [acts[0]] + acts[1..];
      WhereAppend([acts[0]], acts[1..], IsInFlight);
    }
  }

  // ---------------------------------------------------------------------
  // createSaleActivityWithPlan: the invoice scan
  // ---------------------------------------------------------------------

  /** How the scan over the fetched invoices ends. */
  datatype InvoiceScan = MatchedInvoice(invoiceId: string) | NoInvoiceMatched | NullSubscription

  /** `invoice.getSubscription().equals(stripeId)` for an invoice whose
      subscription is set: `equals` is false for a null argument. */
  predicate Bills(invoice: Invoice, stripeId: Option<string>)
  {
    invoice.subscription.Some? && invoice.subscription == stripeId
  }

  /** The scan passed over the invoice: it has a subscription, not this one. */
  predicate PassesOver(invoice: Invoice, stripeId: Option<string>)
  {
    invoice.subscription.Some? && invoice.subscription != stripeId
  }

  /** The first invoice from index `i` on that bills the subscription, unless
      an invoice without a subscription comes first (its `equals` throws). */
  function ScanInvoicesFrom(invoices: seq<Invoice>, stripeId: Option<string>, i: nat): (r: InvoiceScan)
    requires i <= |invoices|
    ensures r.MatchedInvoice? ==>
      exists k :: i <= k < |invoices| && Bills(invoices[k], stripeId) && invoices[k].id == r.invoiceId
                  && forall j :: i <= j < k ==> PassesOver(invoices[j], stripeId)
    ensures r.NullSubscription? ==>
      exists k :: i <= k < |invoices| && invoices[k].subscription.None?
                  && forall j :: i <= j < k ==> PassesOver(invoices[j], stripeId)
    ensures r.NoInvoiceMatched? ==> forall j :: i <= j < |invoices| ==> PassesOver(invoices[j], stripeId)
    decreases |invoices| - i
  {
    if i == |invoices| then NoInvoiceMatched
    else if invoices[i].subscription.None? then NullSubscription
    else if invoices[i].subscription == stripeId then MatchedInvoice(invoices[i].id)
    else ScanInvoicesFrom(invoices, stripeId, i + 1)
  }

  /** The invoice id a new sale activity gets: the fetched invoices are
      `None` when listing them threw a payment-provider exception, which is
      caught and leaves the id unset. */
  function InvoiceIdFor(invoices: Option<seq<Invoice>>, stripeId: Option<string>): Option<string>
  {
    if invoices.None? then None
    else
      match ScanInvoicesFrom(invoices.value, stripeId, 0)
      case MatchedInvoice(id) => Some(id)
      case _ => None
  }

  /** `createSaleActivityWithPlan`: build the sale activity for a plan
      subscription through successive setters. `invoices` is what listing the
      customer's latest invoices gave (`None` if it threw) and `storedPlanName`
      the name the plan repository holds for the plan group's id. An invoice
      with no subscription before the match, or a null charge (multiplied for
      the service fee), throws. */
  method CreateSaleActivityWithPlan(user: User, plan: PlanSubscription, invoices: Option<seq<Invoice>>, storedPlanName: string)
    returns (created: Outcome<SaleActivity>)
    ensures created.NullPointerException? <==>
              (invoices.Some? && ScanInvoicesFrom(invoices.value, plan.stripeId, 0).NullSubscription?)
              || plan.planChargeAmount.None?
    ensures created.Returned? ==>
              && created.value.invoiceId == InvoiceIdFor(invoices, plan.stripeId)
              && created.value.holder == Some(user)
              && created.value.planId == Some(plan.planGroup.id)
              && created.value.planName == Some(storedPlanName)
              && created.value.lotId == Some(plan.planGroup.lotId)
              && created.value.userEmail == Some(user.login)
              && created.value.userPhoneNumber == Some(user.mobileNumber)
              && created.value.userLicensePlate == Some(user.licensePlate)
              && created.value.planSubscriptionDate == plan.planStartDate
              && created.value.chargeAmount == plan.planChargeAmount
              && created.value.ppId == Some(plan.paymentProfileId)
              && created.value.entryDatetime.None?
              && created.value.exitDatetime.None?
              && created.value.parkingStatus.None?
  {
    var newActivity := BlankSaleActivity;
    if invoices.Some? {
      var list := invoices.value;
      var i := 0;
      while i < |list|
        invariant 0 <= i <= |list|
        invariant newActivity == BlankSaleActivity
        invariant ScanInvoicesFrom(list, plan.stripeId, 0) == ScanInvoicesFrom(list, plan.stripeId, i)
      {
        var invoice := list[i];
        if invoice.subscription.None? {
          return NullPointerException;
        }
        if invoice.subscription == plan.stripeId {
          newActivity := newActivity.(invoiceId := Some(invoice.id));
          break;
        }
        i := i + 1;
      }
    }
    newActivity := newActivity.(holder := Some(user));
    newActivity := newActivity.(planId := Some(plan.planGroup.id));
    newActivity := newActivity.(planName := Some(storedPlanName));
    newActivity := newActivity.(lotId := Some(plan.planGroup.lotId));
    newActivity := newActivity.(userEmail := Some(user.login));
    newActivity := newActivity.(userPhoneNumber := Some(user.mobileNumber));
    newActivity := newActivity.(userLicensePlate := Some(user.licensePlate));
    newActivity := newActivity.(planSubscriptionDate := plan.planStartDate);
    var totalCharge := plan.planChargeAmount;
    newActivity := newActivity.(chargeAmount := totalCharge);
    if totalCharge.None? {
      return NullPointerException;
    }
    newActivity := newActivity.(ppId := Some(plan.paymentProfileId));
    created := Returned(newActivity);
  }

  /** The id found is that of the first invoice billing the subscription:
      every invoice listed before it bills another one. */
  lemma InvoiceIdIsFirstMatch(invoices: seq<Invoice>, stripeId: Option<string>, k: nat)
    requires k < |invoices| && Bills(invoices[k], stripeId)
    requires forall j :: 0 <= j < k ==> PassesOver(invoices[j], stripeId)
    ensures InvoiceIdFor(Some(invoices), stripeId) == Some(invoices[k].id)
  {
  }

  // ---------------------------------------------------------------------
  // createSaleActivityForPlanUser
  // ---------------------------------------------------------------------

  /** `createSaleActivityForPlanUser`: a free (zero-charge) session that
      starts `now` with status "Parked". */
  method CreateSaleActivityForPlanUser(user: User, plan: ParkingPlan, storedPlanName: string, now: int)
    returns (newActivity: SaleActivity)
    ensures IsInFlight(newActivity)
    ensures newActivity.entryDatetime == Some(now)
    ensures newActivity.parkingStatus == Some("Parked")
    ensures newActivity.chargeAmount == Some(0.0)
    ensures newActivity.invoiceId.None?
    ensures newActivity.planSubscriptionDate.None? && newActivity.ppId.None?
    ensures newActivity.exitDatetime.None?
    ensures newActivity.holder == Some(user)
    ensures newActivity.planId == Some(plan.id)
    ensures newActivity.planName == Some(storedPlanName)
    ensures newActivity.lotId == Some(plan.lotId)
    ensures newActivity.userEmail == Some(user.login)
    ensures newActivity.userPhoneNumber == Some(user.mobileNumber)
    ensures newActivity.userLicensePlate == Some(user.licensePlate)
  {
    newActivity := BlankSaleActivity;
    newActivity := newActivity.(holder := Some(user));
    newActivity := newActivity.(planId := Some(plan.id));
    newActivity := newActivity.(planName := Some(storedPlanName));
    newActivity := newActivity.(lotId := Some(plan.lotId));
    newActivity := newActivity.(userEmail := Some(user.login));
    newActivity := newActivity.(userPhoneNumber := Some(user.mobileNumber));
    newActivity := newActivity.(userLicensePlate := Some(user.licensePlate));
    var totalCharge := 0.0;
    newActivity := newActivity.(chargeAmount := Some(totalCharge));
    newActivity := newActivity.(entryDatetime := Some(now));
    newActivity := newActivity.(parkingStatus := Some("Parked"));
  }

  /** A free session at the head of a list is what the in-flight filter
      returns and is found by the in-flight lookup; the sale filter stops at
      it because its charge is not positive. */
  lemma FreeSessionAtHead(a: SaleActivity, rest: seq<SaleActivity>)
    requires IsInFlight(a) && a.chargeAmount == Some(0.0)
    ensures Filtering([a] + rest, true, false, true) == Returned([a])
    ensures Filtering([a] + rest, true, true, false).value[..1] == [a]
    ensures Filtering([a] + rest, true, false, false) == Returned([])
    ensures Where([a] + rest, IsInFlight) == [a] + Where(rest, IsInFlight)
  {
    SaleAndRecordFilter([a] + rest);
    SaleOnlyFilter([a] + rest);
    WhereAppend([a], rest, IsInFlight);
  }
}
