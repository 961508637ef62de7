# Callisto core logic in Dafny

A model of the decision and list logic of Callisto, a parking-management
backend. The model covers three components:

- **`SalesActivityService`** (module `SalesActivityService`):
  - the activity filter driven by the `sale`, `record` and `inFlight` flags;
  - the in-flight lookup;
  - the construction of new sale activities, including the scan that links
    a plan subscription to one of the customer's latest invoices.
- **`AccountResource`** (module `AccountResource`):
  - the registration decision chain and the plans it returns or
    auto-subscribes;
  - the password-length check of a password change;
  - the window of client events kept in an exception log.
- **`EligiblePlanUserService`** (module `EligiblePlanUserService`):
  - the "already subscribed" check;
  - `subscribePlan`, which marks the user's eligibility row as subscribed
    once the payment provider has created the subscription.

Entities are datatypes (module `Domain`). Java `null` is `Option.None`. An
unchecked `NullPointerException` that escapes a method is the
`NullPointerException` case of `Outcome` (module `Wrappers`). Module `Seqs`
holds the two kinds of list selection used to state the results:
- `Where` keeps the matching elements and skips the others;
- `TakeWhile` takes the longest prefix of matching elements.

Repository lookups, the payment provider's answers, the configuration flag
and the clock are parameters. The list logic follows the source's loops:
- `Filter`, `FindInFlightActivityByUser`, `CreateSaleActivityWithPlan`,
  `RegisterAccount` and `SaveClientExceptionLog` are methods with loops.
  Each is proved equal to a specification function, and lemmas state what
  that function means.
- `SubscribePlan` updates an array of eligibility rows in place. The array
  stands for the rows the repository returns, in the order it returns them.
  The loop skips rows for other e-mail addresses, so it sees the same rows,
  in the same order, as the source's loop over the query result.

One might expect subscribing to be a no-op for a user who already holds the
plan. `userIsEligible` (EligiblePlanUserService.java:37-44) instead compares
the eligibility row's own id with the plan id, and never looks at the row's
plan group or its subscribed flag. The model follows the code. `EligibilityComparesRowId` and
`ResubscribingSubscribesAgain` state the consequence.

## Model

| member | source | states |
|---|---|---|
| `SalesActivityService.FindInFlightActivityByUser` | src/main/java/com/greenowl/callisto/service/SalesActivityService.java:114-123 | returns exactly the activities with an entry time and no exit time, in input order; activities that do not match are skipped |
| `SalesActivityService.ScanFrom` | src/main/java/com/greenowl/callisto/service/SalesActivityService.java:127-166 | the filter loop returns a prefix of its input whose activities were all kept, ending where an activity makes it `break`; otherwise an activity with a null charge makes it throw |
| `SalesActivityService.Filter` | src/main/java/com/greenowl/callisto/service/SalesActivityService.java:124-168 | the loop with its `break`s computes `Filtering` for every flag combination; the input sequence is not modified |
| `SalesActivityService.FilterReturnsPrefix` | src/main/java/com/greenowl/callisto/service/SalesActivityService.java:124-168 | whatever the flags, the returned list is a prefix of the input, in input order |
| `SalesActivityService.InFlightExaminesOnlyFirst` | src/main/java/com/greenowl/callisto/service/SalesActivityService.java:128-133 | with `inFlight` set, `sale` and `record` do not matter and only the first activity is examined; the result is `[first]` if it is in flight, otherwise empty |
| `SalesActivityService.ScanIsTakeWhile` | src/main/java/com/greenowl/callisto/service/SalesActivityService.java:134-161 | when every activity is either kept or ends the loop according to a predicate, the result is the longest prefix satisfying it |
| `SalesActivityService.SaleAndRecordFilter` | src/main/java/com/greenowl/callisto/service/SalesActivityService.java:136-142 | `sale` and `record`: the longest prefix whose activities all have an entry time and a non-null charge; never throws |
| `SalesActivityService.SaleOnlyFilter` | src/main/java/com/greenowl/callisto/service/SalesActivityService.java:145-150 | only `sale`: the longest prefix with charge > 0; throws exactly when the activity that ends that prefix has a null charge |
| `SalesActivityService.RecordOnlyFilter` | src/main/java/com/greenowl/callisto/service/SalesActivityService.java:154-160 | only `record`: the longest prefix whose activities all have an entry time |
| `SalesActivityService.NoFlagFilterIsIdentity` | src/main/java/com/greenowl/callisto/service/SalesActivityService.java:162-164 | no flag set: the result is the whole input |
| `SalesActivityService.FilterStopsAtFirstMismatch` | src/main/java/com/greenowl/callisto/service/SalesActivityService.java:154-160 | an activity without an entry time hides a later one that has one: the filter returns `[]` where the corrected filter returns the later activity |
| `SalesActivityService.FilterCorrected` | src/main/java/com/greenowl/callisto/service/SalesActivityService.java:124-168 | the corrected filter keeps exactly the input's activities that the flags select |
| `SalesActivityService.CorrectedInFlightIsFindInFlight` | src/main/java/com/greenowl/callisto/service/SalesActivityService.java:114-123 | in in-flight mode the corrected filter coincides with the in-flight lookup |
| `SalesActivityService.InFlightFilterIsPrefixOfFindInFlight` | src/main/java/com/greenowl/callisto/service/SalesActivityService.java:128-133 | the in-flight filter returns at most one activity, and it is the head of what the in-flight lookup returns |
| `SalesActivityService.ScanInvoicesFrom` | src/main/java/com/greenowl/callisto/service/SalesActivityService.java:52-57 | the scan finds an invoice billing the plan's subscription with every earlier invoice billing another one; an invoice with no subscription reached first throws; otherwise no invoice matches |
| `SalesActivityService.InvoiceIdIsFirstMatch` | src/main/java/com/greenowl/callisto/service/SalesActivityService.java:47-61 | the invoice id recorded is that of the first fetched invoice whose subscription equals the plan's payment id |
| `SalesActivityService.CreateSaleActivityWithPlan` | src/main/java/com/greenowl/callisto/service/SalesActivityService.java:44-80 | the new activity copies the user's and the plan's fields and takes the first matching invoice's id (unset when none matches or listing the invoices threw); an invoice with no subscription reached before the first match, or a null charge, throws |
| `SalesActivityService.CreateSaleActivityForPlanUser` | src/main/java/com/greenowl/callisto/service/SalesActivityService.java:82-100 | the new activity is in flight from `now`, has status "Parked", charge 0, no invoice, subscription date or payment profile, and copies the user's and the plan's fields |
| `SalesActivityService.FreeSessionAtHead` | src/main/java/com/greenowl/callisto/service/SalesActivityService.java:91-96 | such a free in-flight session at the head of a list is what the in-flight filter returns and is kept by the sale-and-record filter; the sale-only filter returns nothing |
| `AccountResource.RegisterAccount` | src/main/java/com/greenowl/callisto/web/rest/AccountResource.java:97-155 | the checks run in order (login taken, mobile taken, no eligible plan, payment registration without a token), each refused with its own message, and `register` is called iff all pass, with the token only when payment is enabled; one record gives that plan, auto-subscribed iff its charge is 0, and a null plan group throws; several records give the present plans in record order, with the zero-charge ones auto-subscribed |
| `AccountResource.PresentPlansAppend` | src/main/java/com/greenowl/callisto/web/rest/AccountResource.java:144-148 | the plan list is built in record order: the plans for a concatenation of records are the plans for each part, in order |
| `AccountResource.FreePlanIdsAppend` | src/main/java/com/greenowl/callisto/web/rest/AccountResource.java:149-151 | the auto-subscribe calls are made in record order |
| `AccountResource.PresentPlansMembers` | src/main/java/com/greenowl/callisto/web/rest/AccountResource.java:144-154 | a plan is in the list iff it is the plan group of some record |
| `AccountResource.FreePlanIdsMembers` | src/main/java/com/greenowl/callisto/web/rest/AccountResource.java:149-151 | a plan id is auto-subscribed iff it belongs to the zero-charge plan group of some record |
| `AccountResource.AutoSubscribedPlansAreOffered` | src/main/java/com/greenowl/callisto/web/rest/AccountResource.java:144-154 | every auto-subscribed plan is among the plans returned |
| `AccountResource.PlanListHasOnePlanPerRecord` | src/main/java/com/greenowl/callisto/web/rest/AccountResource.java:144-148 | when every record has a plan group, the list has one plan per record, the k-th being the k-th record's |
| `AccountResource.ChangePassword` | src/main/java/com/greenowl/callisto/web/rest/AccountResource.java:200-210 | a password reaches the password change iff it is non-null and 5 to 50 characters long; otherwise the length error is returned |
| `AccountResource.LastEvents` | src/main/java/com/greenowl/callisto/web/rest/AccountResource.java:227 | the window is the last min(40, n) events, in original order |
| `AccountResource.SaveClientExceptionLog` | src/main/java/com/greenowl/callisto/web/rest/AccountResource.java:218-240 | the log belongs to the current user; its message is the window's events, each followed by a line break, and is unset when the event list is null; the response is OK iff saving returns normally |
| `AccountResource.LinesAppend` | src/main/java/com/greenowl/callisto/web/rest/AccountResource.java:226-230 | appending events one by one to the builder gives the message of the whole window |
| `AccountResource.SplitLinesInvertsLines` | src/main/java/com/greenowl/callisto/web/rest/AccountResource.java:226-231 | splitting a message at its line breaks gives back the events, when no event has a line break of its own |
| `AccountResource.LogMessageRoundTrip` | src/main/java/com/greenowl/callisto/web/rest/AccountResource.java:225-231 | when no event contains a line break, the stored message reads back as exactly the last min(40, n) events |
| `EligiblePlanUserService.UserIsEligible` | src/main/java/com/greenowl/callisto/service/EligiblePlanUserService.java:37-44 | a user is eligible iff `findOneByUserEmail` found a row and that row's own id equals the plan id; no row means not eligible |
| `EligiblePlanUserService.EligibilityComparesRowId` | src/main/java/com/greenowl/callisto/service/EligiblePlanUserService.java:37-44 | a user is eligible iff a row was found for the e-mail and that row's own id equals the plan id; its plan group and subscribed flag play no part |
| `EligiblePlanUserService.FindPlanFrom` | src/main/java/com/greenowl/callisto/service/EligiblePlanUserService.java:70-75 | the loop stops at the first row of the user's whose plan group has the plan id, every earlier row being another user's or for another plan group; a row of the user's with no plan group reached first throws |
| `EligiblePlanUserService.SubscribePlan` | src/main/java/com/greenowl/callisto/service/EligiblePlanUserService.java:50-85 | the returned string and the table afterwards are those of `Subscribe` on the table before |
| `EligiblePlanUserService.AlreadyEligibleChangesNothing` | src/main/java/com/greenowl/callisto/service/EligiblePlanUserService.java:53-54 | an eligible user gets "Already Subscribed" and no row changes |
| `EligiblePlanUserService.PaymentFailureChangesNothing` | src/main/java/com/greenowl/callisto/service/EligiblePlanUserService.java:58-82 | a customer-retrieval failure returns "Failed at retrieving customer information", a subscription failure "Subscribe Failed"; no row changes |
| `EligiblePlanUserService.SuccessMarksFirstMatchingRow` | src/main/java/com/greenowl/callisto/service/EligiblePlanUserService.java:69-75 | on success the first of the user's rows for the plan group becomes subscribed, every other row is unchanged, and the subscription id is returned |
| `EligiblePlanUserService.NoMatchingRowFailsUnexpectedly` | src/main/java/com/greenowl/callisto/service/EligiblePlanUserService.java:69-83 | when no row of the user's has the plan group, the result is "Failed unexpected" and no row changes |
| `EligiblePlanUserService.SubscribeChangesAtMostOneRow` | src/main/java/com/greenowl/callisto/service/EligiblePlanUserService.java:50-85 | for every input at most one row changes: it becomes subscribed and is a row of the user's for the plan group |
| `EligiblePlanUserService.ResubscribingSubscribesAgain` | src/main/java/com/greenowl/callisto/service/EligiblePlanUserService.java:53-75 | a user whose row is already subscribed, but whose row id differs from the plan id, is subscribed at the provider again; the table stays the same |

## Findings

| source | as written | input that shows it | evidently intended | confidence | as-written member | corrected member |
|---|---|---|---|---|---|---|
| src/main/java/com/greenowl/callisto/service/SalesActivityService.java:124-168 | the loop `break`s at the first activity the flags reject, so `filter` returns a prefix of its input; with `inFlight` it breaks after the first activity whatever it holds | only `record` set, input [activity with no entry time, activity with an entry time]: the result is `[]` | skip the activities the flags reject and return every activity they select, as `findInFlightActivityByUser` does | medium; not executed | `SalesActivityService.FilterStopsAtFirstMismatch` | `SalesActivityService.FilterCorrected` |

## Left out

- Payment provider (Stripe) calls are not modelled: the API key assignment, `Invoice.all`, `Customer.retrieve` and `createSubscription`. Their results are inputs:
  - the invoice list, `None` when listing threw;
  - whether the customer was retrieved;
  - the created subscription's id, `None` when creation threw.
- The service-fee and net-amount arithmetic is floating point and is not modelled. Only the NullPointerException it raises on a null charge is modelled.
- `getAccount`, `saveAccount` and `findAllActivityBetween` only delegate to other services.
- `contructDTO` and the DTO shaping are not modelled. The operations return the built entity or plan itself.
- Response-entity construction, logging, metrics and transactions are not modelled. In particular, the rollback of a registration whose single record has no plan group is not modelled: `RegisterAccount` reports that `register` was called and that the request threw.
- `ParkingActivityRepository` and every other repository run their queries inside the ORM. Their answers are inputs: whether the login or mobile number is taken, the eligibility rows for an e-mail, the stored plan name, and the user's activities.
- `save` calls are not modelled separately. The only persisted change modelled is the in-place update of the eligibility array.
- Entities are values, so the identity and aliasing of JPA entity objects are not modelled.
- `SalesActivityService.Filter`: the flags are `bool`. Unboxing a null `Boolean` flag, which throws in Java, is not modelled.
- `SalesActivityService.CreateSaleActivityWithPlan`: assumes the subscription's plan group and payment profile are set. Dereferencing a null one throws in the source; that path is not modelled.
- `EligiblePlanUserService.SubscribePlan`: assumes `getUser` and `getOneParkingPlanById` find their rows. The NullPointerException when either is missing is not modelled.
- `EligiblePlanUserService.SubscribePlan`: the row `findOneByUserEmail` returns is an input. The repository's behaviour when several rows share the e-mail is not modelled.
- `EligiblePlanUserService.SubscribePlan`: the provider is asked for the subscription before the table is touched. A failure to save the row after the provider succeeded is not modelled, because saving is not modelled.
- `AccountResource.RegisterAccount`: the auto-subscribe calls are recorded by plan id only. The new user's id comes from `register`, which is not modelled.
- `AccountResource.ChangePassword`: lengths count Unicode scalar values. Java's `String.length` counts UTF-16 code units, so the two differ for characters outside the Basic Multilingual Plane.
- `AccountResource.SaveClientExceptionLog`: events are non-null strings. Java appends the text "null" for a null event, and that case is not modelled. Whether saving threw is an input.
- `SalesActivityService.CreateSaleActivityWithPlan`: the stored plan name is an input. This assumes `getOneParkingPlanById` finds the plan and that its name is not null; the NullPointerException when the plan is missing is not modelled.
- `SalesActivityService.CreateSaleActivityForPlanUser`: the stored plan name is an input. This assumes `getOneParkingPlanById` finds the plan and that its name is not null; the NullPointerException when the plan is missing is not modelled.
- `SalesActivityService.CreateSaleActivityForPlanUser`: the clock (`DateTime.now()`) is the parameter `now`.
