/** The "Get a FREE Estimate" form on each service detail page: seven
    fields, success on `ok` or status 200, an idle reset 8000 ms after
    success and 5000 ms after failure, and a dismissable result modal. */
module ServiceDetail {

  import opened Wrappers
  import opened LeadForm

  const FirstName := "firstName"
  const LastName := "lastName"
  const Email := "email"
  const Phone := "phone"
  const City := "city"
  const ZipCode := "zipCode"
  const Message := "message"

  const SuccessResetMs: nat := 8000
  const ErrorResetMs: nat := 5000

  /** The detail page's copy of the form. Every input but the message box
      is required. */
  const Form: Config := Config(
    {FirstName, LastName, Email, Phone, City, ZipCode, Message},
    {FirstName, LastName, Email, Phone, City, ZipCode},
    OkOrStatus200,
    Some(SuccessResetMs),
    Some(ErrorResetMs),
    true)

  /** A keystroke in one of the seven inputs changes that field alone. */
  lemma FieldUpdateIsolated(s: State, name: string, value: string)
    requires Inv(Form, s)
    requires name in Form.fieldNames
    ensures var r := Step(Form, s, Change(name, value));
      && r.fields[name] == value
      && (forall k :: k in Form.fieldNames && k != name ==> r.fields[k] == s.fields[k])
      && r.status == s.status && r.pending == s.pending && r.inFlight == s.inFlight
  {
  }

  /** The message box may be left empty, but an empty city or zip code
      blocks the submission. */
  lemma MessageOptionalCityRequired(s: State)
    requires Inv(Form, s) && s.status != Submitting
    requires forall k :: k in Form.fieldNames && k != Message ==> s.fields[k] != ""
    ensures Step(Form, s.(fields := s.fields[Message := ""]), Submit).status == Submitting
    ensures var t := s.(fields := s.fields[City := ""]); Step(Form, t, Submit) == t
    ensures var t := s.(fields := s.fields[ZipCode := ""]); Step(Form, t, Submit) == t
  {
  }

  /** A reply that is `ok` or has status 200 shows success with all seven
      fields empty and an 8000 ms reset pending. */
  lemma SuccessClearsSeven(s: State, status: int)
    requires Inv(Form, s) && s.inFlight > 0
    requires Ok(status) || status == 200
    ensures var r := Step(Form, s, Resolve(Responded(status)));
      && r.status == Success
      && r.fields == map[FirstName := "", LastName := "", Email := "", Phone := "",
                         City := "", ZipCode := "", Message := ""]
      && r.pending == s.pending + multiset{SuccessResetMs}
  {
  }

  /** A reply that is not `ok`, or a thrown `fetch`, shows the failure with
      the fields exactly as they were and a 5000 ms reset pending. */
  lemma FailureKeepsFields(s: State, o: Outcome)
    requires Inv(Form, s) && s.inFlight > 0
    requires o.Thrown? || !Ok(o.status)
    ensures var r := Step(Form, s, Resolve(o));
      && r.status == Error
      && r.fields == s.fields
      && r.pending == s.pending + multiset{ErrorResetMs}
  {
  }

  /** The modal shows exactly in the success and failure states; the overlay
      and the X dismiss it to idle, a click on the card does not. */
  lemma ModalBehaviour(s: State, t: ModalTarget)
    ensures ModalVisible(Form, s) <==> s.status in {Success, Error}
    ensures ModalVisible(Form, s) && t != Card ==> Step(Form, s, ModalClick(t)).status == Idle
    ensures Step(Form, s, ModalClick(t)).fields == s.fields
    ensures Step(Form, s, ModalClick(t)).pending == s.pending
    ensures Step(Form, s, ModalClick(t)).inFlight == s.inFlight
    ensures Step(Form, s, ModalClick(Card)) == s
  {
  }

  /** Every input filled in, for the traces below. */
  const FillIn: seq<Event> := [
    Change(FirstName, "Ada"), Change(LastName, "Lovelace"), Change(Email, "ada@example.com"),
    Change(Phone, "5550100"), Change(City, "Riverside"), Change(ZipCode, "92501")]

  /** Filling in the form makes it submittable from any state. */
  lemma FillInSatisfiesValidation(s: State)
    requires Inv(Form, s)
    ensures RequiredFilled(Form, Run(Form, s, FillIn).fields)
    ensures Run(Form, s, FillIn).status == s.status
    ensures Run(Form, s, FillIn).pending == s.pending
    ensures Run(Form, s, FillIn).inFlight == s.inFlight
  {
    var s1 := Step(Form, s, FillIn[0]);
    var s2 := Step(Form, s1, FillIn[1]);
    var s3 := Step(Form, s2, FillIn[2]);
    var s4 := Step(Form, s3, FillIn[3]);
    var s5 := Step(Form, s4, FillIn[4]);
    var s6 := Step(Form, s5, FillIn[5]);
    RunUnfold6(s, FillIn);
    assert Run(Form, s, FillIn) == s6;
  }

  lemma RunUnfold6(s: State, ev: seq<Event>)
    requires |ev| == 6
    ensures Run(Form, s, ev) ==
      Step(Form, Step(Form, Step(Form, Step(Form, Step(Form, Step(Form, s, ev[0]), ev[1]), ev[2]), ev[3]), ev[4]), ev[5])
  {
    var s1 := Step(Form, s, ev[0]);
    var s2 := Step(Form, s1, ev[1]);
    var s3 := Step(Form, s2, ev[2]);
    var s4 := Step(Form, s3, ev[3]);
    var s5 := Step(Form, s4, ev[4]);
    var s6 := Step(Form, s5, ev[5]);
    assert ev[1..][1..] == ev[2..];
    assert ev[2..][1..] == ev[3..];
    assert ev[3..][1..] == ev[4..];
    assert ev[4..][1..] == ev[5..];
    assert ev[5..][1..] == [];
    calc {
      Run(Form, s, ev);
      Run(Form, s1, ev[1..]);
      Run(Form, s2, ev[2..]);
      Run(Form, s3, ev[3..]);
      Run(Form, s4, ev[4..]);
      Run(Form, s5, ev[5..]);
      Run(Form, s6, []);
    }
  }

  /** First round: a successful post, then a dismissal of its modal. The
      8000 ms reset is still pending afterwards. */
  lemma SucceedThenDismiss()
    ensures var s1 := Run(Form, Init(Form), FillIn);
      var s3 := Step(Form, Step(Form, s1, Submit), Resolve(Responded(200)));
      var s4 := Step(Form, s3, ModalClick(Backdrop));
      && s3.status == Success
      && Inv(Form, s4) && s4.status == Idle && s4.inFlight == 0 && SuccessResetMs in s4.pending
  {
    var s0 := Init(Form);
    FillInSatisfiesValidation(s0);
    var s1 := Run(Form, s0, FillIn);
    RunKeepsInv(Form, s0, FillIn);
    var s2 := Step(Form, s1, Submit);
    var s3 := Step(Form, s2, Resolve(Responded(200)));
    StepKeepsInv(Form, s1, Submit);
    StepKeepsInv(Form, s2, Resolve(Responded(200)));
    StepKeepsInv(Form, s3, ModalClick(Backdrop));
  }

  /** Second round: from an idle form with that reset pending, a new post
      is interrupted by the stale reset, and the button starts another. */
  lemma StaleResetDuringSecondPost(s4: State)
    requires Inv(Form, s4) && s4.status == Idle && s4.inFlight == 0 && SuccessResetMs in s4.pending
    ensures var s5 := Run(Form, s4, FillIn);
      var s6 := Step(Form, s5, Submit);
      var s7 := Step(Form, s6, TimerFires(SuccessResetMs));
      var s8 := Step(Form, s7, Submit);
      && s6.status == Submitting && s6.inFlight == 1
      && s7.status == Idle && s7.inFlight == 1
      && s8.status == Submitting && s8.inFlight == 2
  {
    FillInSatisfiesValidation(s4);
  }

  /** Dismissing does not cancel the success reset: after a success, a
      dismissal and a fresh submission, the stale 8000 ms reset moves the
      in-progress "submitting" state back to idle while its post is still
      outstanding, and the re-enabled button then starts a second
      concurrent post. */
  lemma StaleResetInterruptsSubmission()
    ensures var s1 := Run(Form, Init(Form), FillIn);
      var s2 := Step(Form, s1, Submit);
      var s3 := Step(Form, s2, Resolve(Responded(200)));
      var s4 := Step(Form, s3, ModalClick(Backdrop));
      var s5 := Run(Form, s4, FillIn);
      var s6 := Step(Form, s5, Submit);
      var s7 := Step(Form, s6, TimerFires(SuccessResetMs));
      var s8 := Step(Form, s7, Submit);
      && s3.status == Success && s4.status == Idle && SuccessResetMs in s4.pending
      && s6.status == Submitting && s6.inFlight == 1
      && s7.status == Idle && s7.inFlight == 1
      && s8.status == Submitting && s8.inFlight == 2
  {
    SucceedThenDismiss();
    var s1 := Run(Form, Init(Form), FillIn);
    var s4 := Step(Form, Step(Form, Step(Form, s1, Submit), Resolve(Responded(200))), ModalClick(Backdrop));
    StaleResetDuringSecondPost(s4);
  }
}
