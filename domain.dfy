/** The persistent entities the core reads and writes, as values. Only the
    fields the modelled operations touch are kept. Date-times are instants
    (milliseconds since the epoch); amounts are reals, of which only the sign
    is ever inspected. */
module Domain {
  import opened Wrappers

  /** A subscribable pricing plan (`ParkingPlan`). */
  datatype ParkingPlan = ParkingPlan(id: int, planName: string, lotId: int, unitChargeAmount: real)

  /** A `PlanEligibleUser` row: an e-mail address that may subscribe to the
      plan group `planGroup` (absent when the column is null), and whether it
      has subscribed. */
  datatype EligibleRecord = EligibleRecord(
    id: int,
    userEmail: string,
    planGroup: Option<ParkingPlan>,
    subscribed: bool)

  /** A registered user. */
  datatype User = User(login: string, mobileNumber: string, licensePlate: string, stripeToken: Option<string>)

  /** A user's subscription to a plan (`PlanSubscription`): the payment
      provider's subscription id, the plan group it is for, when it started,
      what it charges and the payment profile it is billed to. */
  datatype PlanSubscription = PlanSubscription(
    stripeId: Option<string>,
    planGroup: ParkingPlan,
    planStartDate: Option<int>,
    planChargeAmount: Option<real>,
    paymentProfileId: int)

  /** An invoice as the payment provider lists it: its id and the id of the
      subscription it bills (absent for an invoice outside any subscription). */
  datatype Invoice = Invoice(id: string, subscription: Option<string>)

  /** A `ParkingSaleActivity`: a parking session extended with billing fields. */
  datatype SaleActivity = SaleActivity(
    holder: Option<User>,
    planId: Option<int>,
    planName: Option<string>,
    lotId: Option<int>,
    userEmail: Option<string>,
    userPhoneNumber: Option<string>,
    userLicensePlate: Option<string>,
    planSubscriptionDate: Option<int>,
    chargeAmount: Option<real>,
    ppId: Option<int>,
    invoiceId: Option<string>,
    entryDatetime: Option<int>,
    exitDatetime: Option<int>,
    parkingStatus: Option<string>)

  /** A freshly constructed `ParkingSaleActivity`: every field is null. */
  const BlankSaleActivity: SaleActivity :=
    SaleActivity(None, None, None, None, None, None, None, None, None, None, None, None, None, None)
}
