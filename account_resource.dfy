/** The decision logic of the account endpoints of `AccountResource`:
    registration, the password-length check of a password change, and the
    window of client events kept in an exception log. Repository lookups,
    the configuration flag and the payment-provider registration are inputs. */
module AccountResource {
  import opened Wrappers
  import opened Domain

  // ---------------------------------------------------------------------
  // POST /register
  // ---------------------------------------------------------------------

  /** The messages of the refusals (HTTP 400). */
  const UsernameTaken := "username is already in use!"
  const PhoneNumTaken := "mobile phone number is already in use!"
  const StripeFailed := "register with stripe failed!"
  const PlanNotFound := "Unable to find suitable plan."

  /** The body of the response: an error message, the one plan of a user eligible
      for a single plan, or the list of plans. */
  datatype RegisterResponse = BadRequest(message: string) | SinglePlan(plan: ParkingPlan) | PlanList(plans: seq<ParkingPlan>)

  /** Whether `registrationService.register` was called, and with which
      payment-provider token. */
  datatype AccountCreation = NotRegistered | Registered(stripeToken: Option<string>)

  /** Everything the endpoint does that the model observes: the response
      (or an escaping NullPointerException), the account creation, and the
      plan ids passed to `autoSubscribe`, in call order. */
  datatype Registration = Registration(response: Outcome<RegisterResponse>, account: AccountCreation, autoSubscribed: seq<int>)

  /** The request gets past every check that comes before `register`. */
  predicate PassesChecks(loginTaken: bool, mobileTaken: bool, records: seq<EligibleRecord>,
                         stripeEnabled: bool, stripeToken: Option<string>)
  {
    !loginTaken && !mobileTaken && |records| > 0 && (stripeEnabled ==> stripeToken.Some?)
  }

  /** The plans of the eligibility records whose plan group is set, in
      record order. */
  function PresentPlans(records: seq<EligibleRecord>): (plans: seq<ParkingPlan>)
    ensures |plans| <= |records|
  {
    if records == [] then []
    else
      (if records[0].planGroup.Some? then [records[0].planGroup.value] else []) + PresentPlans(records[1..])
  }

  /** A record whose plan group is set and charges nothing. */
  predicate IsFree(r: EligibleRecord)
  {
    r.planGroup.Some? && r.planGroup.value.unitChargeAmount == 0.0
  }

  /** The ids of the free plans among the records, in record order. */
  function FreePlanIds(records: seq<EligibleRecord>): (ids: seq<int>)
    ensures |ids| <= |records|
  {
    if records == [] then []
    else
      (if IsFree(records[0]) then [records[0].planGroup.value.id] else []) + FreePlanIds(records[1..])
  }

  lemma {:induction false} PresentPlansAppend(a: seq<EligibleRecord>, b: seq<EligibleRecord>)
    ensures PresentPlans(a + b) == PresentPlans(a) + PresentPlans(b)
  {
    if a == [] {
      assert a + b == b;
    } else {
      var head := if a[0].planGroup.Some? then [a[0].planGroup.value] else [];
      assert (a + b)[0] == a[0];
      assert (a + b)[1..] == a[1..] + b;
      assert PresentPlans(a + b) == head + PresentPlans(a[1..] + b);
      PresentPlansAppend(a[1..], b);
      assert PresentPlans(a) == head + PresentPlans(a[1..]);
    }
  }

  lemma {:induction false} FreePlanIdsAppend(a: seq<EligibleRecord>, b: seq<EligibleRecord>)
    ensures FreePlanIds(a + b) == FreePlanIds(a) + FreePlanIds(b)
  {
    if a == [] {
      assert a + b == b;
    } else {
      var head := if IsFree(a[0]) then [a[0].planGroup.value.id] else [];
      assert (a + b)[0] == a[0];
      assert (a + b)[1..] == a[1..] + b;
      assert FreePlanIds(a + b) == head + FreePlanIds(a[1..] + b);
      FreePlanIdsAppend(a[1..], b);
      assert FreePlanIds(a) == head + FreePlanIds(a[1..]);
    }
  }

  /** One more record extends both lists by what that record contributes. */
  lemma ExtendPlans(records: seq<EligibleRecord>, i: nat)
    requires i < |records|
    ensures PresentPlans(records[..i + 1]) ==
              PresentPlans(records[..i]) + (if records[i].planGroup.Some? then [records[i].planGroup.value] else [])
    ensures FreePlanIds(records[..i + 1]) ==
              FreePlanIds(records[..i]) + (if IsFree(records[i]) then [records[i].planGroup.value.id] else [])
  {
    assert records[..i + 1] == records[..i] + [records[i]];
    PresentPlansAppend(records[..i], [records[i]]);
    FreePlanIdsAppend(records[..i], [records[i]]);
    assert [records[i]][1..] == [];
  }

  /** The list holds exactly the plan groups that are set on some record. */
  lemma {:induction false} PresentPlansMembers(records: seq<EligibleRecord>, p: ParkingPlan)
    ensures p in PresentPlans(records) <==> exists k :: 0 <= k < |records| && records[k].planGroup == Some(p)
  {
    if records != [] {
      PresentPlansMembers(records[1..], p);
      if exists k :: 0 <= k < |records| && records[k].planGroup == Some(p) {
        var k :| 0 <= k < |records| && records[k].planGroup == Some(p);
        if k > 0 {
          assert records[1..][k - 1] == records[k];
        }
      }
      if exists k :: 0 <= k < |records| - 1 && records[1..][k].planGroup == Some(p) {
        var k :| 0 <= k < |records| - 1 && records[1..][k].planGroup == Some(p);
        assert records[k + 1].planGroup == Some(p);
      }
    }
  }

  /** Exactly the ids of the zero-charge plans are auto-subscribed. */
  lemma {:induction false} FreePlanIdsMembers(records: seq<EligibleRecord>, id: int)
    ensures id in FreePlanIds(records) <==>
              exists k :: 0 <= k < |records| && IsFree(records[k]) && records[k].planGroup.value.id == id
  {
    if records != [] {
      FreePlanIdsMembers(records[1..], id);
      if exists k :: 0 <= k < |records| && IsFree(records[k]) && records[k].planGroup.value.id == id {
        var k :| 0 <= k < |records| && IsFree(records[k]) && records[k].planGroup.value.id == id;
        if k > 0 {
          assert records[1..][k - 1] == records[k];
        }
      }
      if exists k :: 0 <= k < |records| - 1 && IsFree(records[1..][k]) && records[1..][k].planGroup.value.id == id {
        var k :| 0 <= k < |records| - 1 && IsFree(records[1..][k]) && records[1..][k].planGroup.value.id == id;
        assert records[k + 1] == records[1..][k];
      }
    }
  }

  /** `registerAccount`. `loginTaken` and `mobileTaken` are the answers of
      the user lookups by login and by mobile number, `records` the
      eligibility rows for the e-mail, `stripeEnabled` the configuration flag
      and `stripeToken` what the payment-provider registration returns
      (consulted only when the flag is set). */
  method RegisterAccount(loginTaken: bool, mobileTaken: bool, records: seq<EligibleRecord>,
                         stripeEnabled: bool, stripeToken: Option<string>)
    returns (out: Registration)
    ensures out.account.Registered? <==> PassesChecks(loginTaken, mobileTaken, records, stripeEnabled, stripeToken)
    ensures loginTaken ==> out == Registration(Returned(BadRequest(UsernameTaken)), NotRegistered, [])
    ensures !loginTaken && mobileTaken ==> out == Registration(Returned(BadRequest(PhoneNumTaken)), NotRegistered, [])
    ensures !loginTaken && !mobileTaken && |records| == 0 ==>
              out == Registration(Returned(BadRequest(PlanNotFound)), NotRegistered, [])
    ensures !loginTaken && !mobileTaken && |records| > 0 && stripeEnabled && stripeToken.None? ==>
              out == Registration(Returned(BadRequest(StripeFailed)), NotRegistered, [])
    ensures out.account.Registered? ==> out.account.stripeToken == if stripeEnabled then stripeToken else None
    ensures out.account.Registered? && |records| == 1 && records[0].planGroup.None? ==>
              out.response.NullPointerException? && out.autoSubscribed == []
    ensures out.account.Registered? && |records| == 1 && records[0].planGroup.Some? ==>
              var plan := records[0].planGroup.value;
              && out.response == Returned(SinglePlan(plan))
              && out.autoSubscribed == if plan.unitChargeAmount == 0.0 then [plan.id] else []
    ensures out.account.Registered? && |records| > 1 ==>
              out.response == Returned(PlanList(PresentPlans(records))) && out.autoSubscribed == FreePlanIds(records)
  {
    if loginTaken {
      return Registration(Returned(BadRequest(UsernameTaken)), NotRegistered, []);
    }
    if mobileTaken {
      return Registration(Returned(BadRequest(PhoneNumTaken)), NotRegistered, []);
    }
    if |records| == 0 {
      return Registration(Returned(BadRequest(PlanNotFound)), NotRegistered, []);
    }
    var token: Option<string> := None;
    if stripeEnabled {
      token := stripeToken;
      if token.None? {
        return Registration(Returned(BadRequest(StripeFailed)), NotRegistered, []);
      }
    }
    var account := Registered(token);
    var autoSubscribed: seq<int> := [];
    if |records| == 1 {
      var planGroup := records[0].planGroup;
      if planGroup.None? {
        return Registration(NullPointerException, account, autoSubscribed);
      }
      if planGroup.value.unitChargeAmount == 0.0 {
        autoSubscribed := autoSubscribed + [planGroup.value.id];
      }
      return Registration(Returned(SinglePlan(planGroup.value)), account, autoSubscribed);
    }
    var parkingPlans: seq<ParkingPlan> := [];
    for i := 0 to |records|
      invariant parkingPlans == PresentPlans(records[..i])
      invariant autoSubscribed == FreePlanIds(records[..i])
    {
      var plan := records[i].planGroup;
      if plan.Some? {
        parkingPlans := parkingPlans + [plan.value];
        if plan.value.unitChargeAmount == 0.0 {
          autoSubscribed := autoSubscribed + [plan.value.id];
        }
      }
      ExtendPlans(records, i);
    }
    assert records[..|records|] == records;
    out := Registration(Returned(PlanList(parkingPlans)), account, autoSubscribed);
  }

  /** Every plan that registration auto-subscribes is among the plans it
      returns. */
  lemma {:induction false} AutoSubscribedPlansAreOffered(records: seq<EligibleRecord>)
    ensures forall id :: id in FreePlanIds(records) ==> exists p :: p in PresentPlans(records) && p.id == id
  {
    forall id | id in FreePlanIds(records)
      ensures exists p :: p in PresentPlans(records) && p.id == id
    {
      FreePlanIdsMembers(records, id);
      var k :| 0 <= k < |records| && IsFree(records[k]) && records[k].planGroup.value.id == id;
      PresentPlansMembers(records, records[k].planGroup.value);
    }
  }

  /** When every record has its plan group, the list holds one plan per
      record, in record order. */
  lemma {:induction false} PlanListHasOnePlanPerRecord(records: seq<EligibleRecord>)
    requires forall k :: 0 <= k < |records| ==> records[k].planGroup.Some?
    ensures |PresentPlans(records)| == |records|
    ensures forall k :: 0 <= k < |records| ==> PresentPlans(records)[k] == records[k].planGroup.value
  {
    if records != [] {
      PlanListHasOnePlanPerRecord(records[1..]);
    }
  }

  // ---------------------------------------------------------------------
  // POST /account/change_password
  // ---------------------------------------------------------------------

  const PasswordLengthMessage := "Password must be between 5 and 50 characters"

  /** `StringUtils.isEmpty`: null or of length zero. */
  predicate IsEmpty(s: Option<string>)
  {
    s.None? || |s.value| == 0
  }

  datatype PasswordResponse = PasswordRejected(message: string) | PasswordChanged(newPassword: string)

  /** `changePassword`: a password reaches `userService.changePassword`
      only when it passes the length check. */
  function ChangePassword(password: Option<string>): (r: PasswordResponse)
    ensures r.PasswordChanged? <==> password.Some? && 5 <= |password.value| <= 50
    ensures r.PasswordChanged? ==> r.newPassword == password.value
    ensures r.PasswordRejected? ==> r.message == PasswordLengthMessage
  {
    if IsEmpty(password) || |password.value| < 5 || |password.value| > 50 then
      PasswordRejected(PasswordLengthMessage)
    else
      PasswordChanged(password.value)
  }

  // ---------------------------------------------------------------------
  // POST /logMessage
  // ---------------------------------------------------------------------

  /** How many of the most recent client events a log keeps. */
  const MaxLogEvents := 40

  /** The events, each followed by a line break. */
  function Lines(events: seq<string>): string
  {
    if events == [] then "" else events[0] + "\n" + Lines(events[1..])
  }

  lemma {:induction false} LinesAppend(a: seq<string>, b: seq<string>)
    ensures Lines(a + b) == Lines(a) + Lines(b)
  {
    if a == [] {
      assert a + b == b;
    } else {
      assert (a + b)[1..] == a[1..] + b;
      LinesAppend(a[1..], b);
    }
  }

  /** The most recent `MaxLogEvents` events (all of them if there are
      fewer), in their original order. */
  function LastEvents(events: seq<string>): (w: seq<string>)
    ensures |w| == if |events| < MaxLogEvents then |events| else MaxLogEvents
    ensures events == events[..|events| - |w|] + w
  {
    var start := if |events| - MaxLogEvents > 0 then |events| - MaxLogEvents else 0;
    assert events == events[..start] + events[start..];
    events[start..]
  }

  datatype ExceptionLog = ExceptionLog(activityHolder: User, logMessage: Option<string>)

  datatype LogResponse = LogSaved | LogFailed(message: string)

  /** `saveClientExcetionLog`: build the log of the current user from the
      request's events and hand it to the log service. `saveSucceeds` says
      whether saving it returned normally; any exception it throws is
      swallowed and answered with a generic error. */
  method SaveClientExceptionLog(currentUser: User, events: Option<seq<string>>, saveSucceeds: bool)
    returns (log: ExceptionLog, response: LogResponse)
    ensures log.activityHolder == currentUser
    ensures events.None? ==> log.logMessage.None?
    ensures events.Some? ==> log.logMessage == Some(Lines(LastEvents(events.value)))
    ensures response == if saveSucceeds then LogSaved else LogFailed("Failed to save log message")
  {
    log := ExceptionLog(currentUser, None);
    if events.Some? {
      var list := events.value;
      var message := "";
      var i := if 0 > |list| - MaxLogEvents then 0 else |list| - MaxLogEvents;
      ghost var start := i;
      while i < |list|
        invariant start <= i <= |list|
        invariant message == Lines(list[start..i])
      {
        message := message + list[i];
        message := message + "\n";
        assert list[start..i + 1] == list[start..i] + [list[i]];
        LinesAppend(list[start..i], [list[i]]);
        i := i + 1;
      }
      assert list[start..i] == LastEvents(list);
      log := log.(logMessage := Some(message));
    }
    if saveSucceeds {
      response := LogSaved;
    } else {
      response := LogFailed("Failed to save log message");
    }
  }

  /** Index of the first line break in `s`, or `|s|` if there is none. */
  function LineEnd(s: string): (k: nat)
    ensures k <= |s|
    ensures k < |s| ==> s[k] == '\n'
    ensures forall j :: 0 <= j < k ==> s[j] != '\n'
  {
    if s == [] || s[0] == '\n' then 0 else 1 + LineEnd(s[1..])
  }

  /** Split a text at its line breaks; a final line break ends the last line. */
  function SplitLines(s: string): seq<string>
    decreases |s|
  {
    if s == [] then []
    else
      var k := LineEnd(s);
      if k == |s| then [s] else [s[..k]] + SplitLines(s[k + 1..])
  }

  /** The stored message gives back the kept events when none of them
      contains a line break of its own. */
  lemma {:induction false} SplitLinesInvertsLines(events: seq<string>)
    requires forall e :: e in events ==> '\n' !in e
    ensures SplitLines(Lines(events)) == events
  {
    if events != [] {
      var e := events[0];
      var tail := Lines(events[1..]);
      var s := Lines(events);
      assert s == e + "\n" + tail;
      assert s[|e|] == '\n';
      forall j | 0 <= j < |e|
        ensures s[j] != '\n'
      {
        assert s[j] == e[j] && e[j] in e;
      }
      assert LineEnd(s) == |e|;
      assert s[..|e|] == e;
      assert s[|e| + 1..] == tail;
      SplitLinesInvertsLines(events[1..]);
    }
  }

  /** Reading a log back: its lines are exactly the last events sent. */
  lemma LogMessageRoundTrip(events: seq<string>)
    requires forall e :: e in events ==> '\n' !in e
    ensures SplitLines(Lines(LastEvents(events))) == LastEvents(events)
  {
    var w := LastEvents(events);
    assert forall e :: e in w ==> e in events;
    SplitLinesInvertsLines(w);
  }
}
