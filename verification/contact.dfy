/** The "Request a Quote" form in the home page's contact section: five
    fields, success on `ok` only, an idle reset 5000 ms after success and
    none after failure, and inline success/failure banners instead of a
    modal. */
module Contact {

  import opened Wrappers
  import opened LeadForm

  const Name := "name"
  const Email := "email"
  const Phone := "phone"
  const Service := "service"
  const Message := "message"

  const SuccessResetMs: nat := 5000

  /** Shown in the success banner when the email field is empty. */
  const EmailFallback := "the email provided"

  /** The contact section's copy of the form; all five inputs are required. */
  const Form: Config := Config(
    {Name, Email, Phone, Service, Message},
    {Name, Email, Phone, Service, Message},
    OkOnly,
    Some(SuccessResetMs),
    None,
    false)

  /** The banner above the form. */
  datatype Banner = NoBanner | SuccessBanner(contactAt: string) | ErrorBanner

  /** The condition guarding the success banner. */
  predicate ShowsSuccessBanner(s: State) {
    s.status == Success
  }

  /** The condition guarding the error banner, evaluated separately from the
      success guard. */
  predicate ShowsErrorBanner(s: State) {
    s.status == Error
  }

  /** The one banner on screen; at most one guard holds, so picking the
      success banner first loses nothing. */
  function BannerFor(s: State): (b: Banner)
    requires Email in s.fields
    ensures b.SuccessBanner? <==> ShowsSuccessBanner(s)
    ensures b.ErrorBanner? <==> ShowsErrorBanner(s)
    ensures b.NoBanner? <==> s.status in {Idle, Submitting}
    ensures b.SuccessBanner? ==> b.contactAt == (if s.fields[Email] != "" then s.fields[Email] else EmailFallback)
  {
    if ShowsSuccessBanner(s) then SuccessBanner(if s.fields[Email] != "" then s.fields[Email] else EmailFallback)
    else if ShowsErrorBanner(s) then ErrorBanner
    else NoBanner
  }

  /** A keystroke in one of the five inputs changes that field alone. */
  lemma FieldUpdateIsolated(s: State, name: string, value: string)
    requires Inv(Form, s)
    requires name in Form.fieldNames
    ensures var r := Step(Form, s, Change(name, value));
      && r.fields[name] == value
      && (forall k :: k in Form.fieldNames && k != name ==> r.fields[k] == s.fields[k])
      && r.status == s.status && r.pending == s.pending && r.inFlight == s.inFlight
  {
  }

  /** Only an `ok` reply is a success; it empties the five fields, shows the
      success banner and schedules the 5000 ms reset. */
  lemma SuccessOnlyOnOk(s: State, o: Outcome)
    requires Inv(Form, s) && s.inFlight > 0
    ensures var r := Step(Form, s, Resolve(o));
      && (r.status == Success <==> o.Responded? && Ok(o.status))
      && (r.status == Success ==>
            r.fields == map[Name := "", Email := "", Phone := "", Service := "", Message := ""]
            && r.pending == s.pending + multiset{SuccessResetMs})
  {
  }

  /** A failed reply or a thrown `fetch` shows the failure banner with the
      fields untouched and no reset scheduled. */
  lemma FailureSchedulesNothing(s: State, o: Outcome)
    requires Inv(Form, s) && s.inFlight > 0
    requires o.Thrown? || !Ok(o.status)
    ensures var r := Step(Form, s, Resolve(o));
      && r.status == Error && r.fields == s.fields && r.pending == s.pending
      && BannerFor(r) == ErrorBanner
  {
  }

  /** Right after a success the banner cannot echo the address: the email
      field was emptied by the same transition. */
  lemma SuccessBannerShowsFallback(s: State, o: Outcome)
    requires Inv(Form, s) && s.inFlight > 0
    requires o.Responded? && Ok(o.status)
    ensures BannerFor(Step(Form, s, Resolve(o))) == SuccessBanner(EmailFallback)
  {
  }

  /** The inputs stay enabled while the success banner shows, so typing an
      address afterwards does change the banner. */
  lemma TypingAfterSuccessChangesBanner(s: State, v: string)
    requires Inv(Form, s) && s.status == Success
    requires v != ""
    ensures BannerFor(Step(Form, s, Change(Email, v))) == SuccessBanner(v)
  {
  }

  /** The two banners never show together, and neither shows while idle or
      submitting. */
  lemma BannersExclusive(s: State)
    ensures !(ShowsSuccessBanner(s) && ShowsErrorBanner(s))
    ensures s.status in {Idle, Submitting} ==> !ShowsSuccessBanner(s) && !ShowsErrorBanner(s)
  {
  }

  /** Every reset the contact form ever schedules is the 5000 ms success
      reset. */
  lemma OnlySuccessResets(events: seq<Event>)
    ensures forall d :: d in Reach(Form, events).pending ==> d == SuccessResetMs
  {
    ReachableInv(Form, events);
  }

  predicate NoSubmit(events: seq<Event>) {
    forall i :: 0 <= i < |events| ==> !events[i].Submit?
  }

  /** With no reply outstanding and no reset pending, the failure state
      lasts until the next submission. */
  lemma {:induction false} ErrorPersistsUntilSubmit(s: State, events: seq<Event>)
    requires s.status == Error && s.inFlight == 0 && s.pending == multiset{}
    requires NoSubmit(events)
    ensures Run(Form, s, events).status == Error
    decreases |events|
  {
    if events != [] {
      var s' := Step(Form, s, events[0]);
      assert s'.status == Error && s'.inFlight == 0 && s'.pending == multiset{};
      assert NoSubmit(events[1..]) by {
        forall i | 0 <= i < |events[1..]| ensures !events[1..][i].Submit? {
          assert events[1..][i] == events[i + 1];
        }
      }
      ErrorPersistsUntilSubmit(s', events[1..]);
    }
  }

  /** The qualification above is needed: a success reset still pending from
      an earlier submission clears a later failure without any new
      submission. */
  lemma StaleResetClearsError(s: State)
    requires s.status == Success && s.inFlight == 0 && SuccessResetMs in s.pending
    requires RequiredFilled(Form, s.fields)
    ensures var s1 := Step(Form, s, Submit);
      var s2 := Step(Form, s1, Resolve(Thrown));
      var s3 := Step(Form, s2, TimerFires(SuccessResetMs));
      && s2.status == Error && s3.status == Idle
  {
  }
}
