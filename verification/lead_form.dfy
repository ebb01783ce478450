/** The lead-capture form shared, in two diverging copies, by the service
    detail page and the home page's contact section: a set of text fields,
    a four-way submission status, the auto-reset timers that the submit
    handler schedules, and the number of form posts still awaiting a reply.
    The two copies differ only in the data held by `Config`. */
module LeadForm {

  import opened Wrappers

  datatype Status = Idle | Submitting | Success | Error

  /** How a finished post is judged: the detail page accepts
      `response.ok || response.status === 200`, the contact section only
      `response.ok`. */
  datatype SuccessRule = OkOnly | OkOrStatus200

  /** What the form's post resolved to: a response with its HTTP status, or
      an exception thrown by `fetch` (network failure and the like). */
  datatype Outcome = Responded(status: int) | Thrown

  /** The `ok` flag of a fetch response: the status is in 200..299. */
  predicate Ok(status: int) {
    200 <= status <= 299
  }

  /** Everything that distinguishes one copy of the form from the other. */
  datatype Config = Config(
    fieldNames: set<string>,     // the `name` of every input in the form
    required: set<string>,       // inputs carrying the `required` attribute
    rule: SuccessRule,
    successReset: Option<nat>,   // delay (ms) of the idle reset after success; None: no reset
    errorReset: Option<nat>,     // delay (ms) of the idle reset after failure; None: no reset
    hasResultModal: bool)        // success/failure shown in a dismissable modal

  /** The component's state. `pending` holds the delays of the scheduled
      `setTimeout` resets that have not fired yet; `inFlight` counts posts
      whose reply has not arrived. */
  datatype State = State(status: Status, fields: map<string, string>, pending: multiset<nat>, inFlight: nat)

  /** What the component receives: a keystroke in a named input, a form
      submission, a post resolving, a scheduled reset firing, or a click on
      the result modal. */
  datatype Event =
    | Change(name: string, value: string)
    | Submit
    | Resolve(outcome: Outcome)
    | TimerFires(delay: nat)
    | ModalClick(target: ModalTarget)

  /** The parts of the result modal: the dark overlay, the X button, and the
      card itself (which stops the click from reaching the overlay). */
  datatype ModalTarget = Backdrop | CloseButton | Card

  /** Every configured field set to the empty string. */
  function EmptyFields(cfg: Config): (f: map<string, string>)
    ensures f.Keys == cfg.fieldNames
    ensures forall k :: k in f ==> f[k] == ""
  {
    map k | k in cfg.fieldNames :: ""
  }

  function Init(cfg: Config): State {
    State(Idle, EmptyFields(cfg), multiset{}, 0)
  }

  /** Whether a post counts as a success under the given rule. */
  predicate Succeeds(rule: SuccessRule, o: Outcome) {
    match o
    case Thrown => false
    case Responded(st) => Ok(st) || (rule == OkOrStatus200 && st == 200)
  }

  /** The two copies' success rules agree on every outcome: status 200 is
      already `ok`, so the extra test on the detail page is redundant. */
  lemma SuccessRulesAgree(o: Outcome)
    ensures Succeeds(OkOrStatus200, o) <==> Succeeds(OkOnly, o)
  {
  }

  /** The submit button is disabled while a post is in progress. */
  predicate SubmitDisabled(s: State) {
    s.status == Submitting
  }

  /** The browser's constraint validation: every required input is
      non-empty. */
  predicate RequiredFilled(cfg: Config, fields: map<string, string>) {
    forall k :: k in cfg.required ==> k in fields && fields[k] != ""
  }

  /** The result modal is on screen only after a post has finished. */
  predicate ModalVisible(cfg: Config, s: State) {
    cfg.hasResultModal && (s.status == Success || s.status == Error)
  }

  /** Adds the reset of the given delay, if any, to the pending timers. */
  function Schedule(pending: multiset<nat>, delay: Option<nat>): multiset<nat> {
    match delay
    case None => pending
    case Some(d) => pending + multiset{d}
  }

  /** A keystroke: the named input takes the new value. */
  function OnChange(cfg: Config, s: State, name: string, value: string): State {
    if name in cfg.fieldNames then s.(fields := s.fields[name := value]) else s
  }

  /** The form's submit handler, reached only when the button is enabled and
      the browser's validation passes; it posts the form. */
  function OnSubmit(cfg: Config, s: State): State {
    if SubmitDisabled(s) || !RequiredFilled(cfg, s.fields) then s
    else s.(status := Submitting, inFlight := s.inFlight + 1)
  }

  /** The rest of the submit handler, run when one post resolves. */
  function OnResolve(cfg: Config, s: State, o: Outcome): State {
    if s.inFlight == 0 then s
    else if Succeeds(cfg.rule, o) then
      State(Success, EmptyFields(cfg), Schedule(s.pending, cfg.successReset), s.inFlight - 1)
    else
      State(Error, s.fields, Schedule(s.pending, cfg.errorReset), s.inFlight - 1)
  }

  /** A scheduled reset firing sets the status to idle, whatever it is by
      then; nothing cancels the timer beforehand. */
  function OnTimer(s: State, delay: nat): State {
    if delay in s.pending then s.(status := Idle, pending := s.pending - multiset{delay}) else s
  }

  /** A click on the result modal: the overlay and the X dismiss it, the
      card does not. Only the status changes; pending resets stay. */
  function OnModalClick(cfg: Config, s: State, t: ModalTarget): State {
    if ModalVisible(cfg, s) && t != Card then s.(status := Idle) else s
  }

  function Step(cfg: Config, s: State, e: Event): State {
    match e
    case Change(n, v) => OnChange(cfg, s, n, v)
    case Submit => OnSubmit(cfg, s)
    case Resolve(o) => OnResolve(cfg, s, o)
    case TimerFires(d) => OnTimer(s, d)
    case ModalClick(t) => OnModalClick(cfg, s, t)
  }

  function Run(cfg: Config, s: State, events: seq<Event>): State
    decreases |events|
  {
    if events == [] then s else Run(cfg, Step(cfg, s, events[0]), events[1..])
  }

  /** The state from mounting the component and receiving the events. */
  function Reach(cfg: Config, events: seq<Event>): State {
    Run(cfg, Init(cfg), events)
  }

  /** Every pending reset carries one of the configured delays. */
  predicate PendingFromConfig(cfg: Config, pending: multiset<nat>) {
    forall d :: d in pending ==> Some(d) == cfg.successReset || Some(d) == cfg.errorReset
  }

  /** The invariant every reachable state keeps: exactly the configured
      fields exist, a shown "submitting" status has a post behind it, and
      the timers are the configured ones. */
  predicate Inv(cfg: Config, s: State) {
    && s.fields.Keys == cfg.fieldNames
    && (s.status == Submitting ==> s.inFlight > 0)
    && PendingFromConfig(cfg, s.pending)
  }

  lemma StepKeepsInv(cfg: Config, s: State, e: Event)
    requires Inv(cfg, s)
    ensures Inv(cfg, Step(cfg, s, e))
  {
  }

  lemma {:induction false} RunKeepsInv(cfg: Config, s: State, events: seq<Event>)
    requires Inv(cfg, s)
    ensures Inv(cfg, Run(cfg, s, events))
    decreases |events|
  {
    if events != [] {
      StepKeepsInv(cfg, s, events[0]);
      RunKeepsInv(cfg, Step(cfg, s, events[0]), events[1..]);
    }
  }

  /** Every state the component can reach satisfies the invariant. */
  lemma ReachableInv(cfg: Config, events: seq<Event>)
    ensures Inv(cfg, Reach(cfg, events))
  {
    RunKeepsInv(cfg, Init(cfg), events);
  }

  /** A keystroke changes exactly the named field. */
  lemma ChangeTouchesOneField(cfg: Config, s: State, name: string, value: string, other: string)
    requires Inv(cfg, s)
    requires name in cfg.fieldNames
    requires other != name && other in cfg.fieldNames
    ensures Step(cfg, s, Change(name, value)).fields[name] == value
    ensures Step(cfg, s, Change(name, value)).fields[other] == s.fields[other]
    ensures Step(cfg, s, Change(name, value)).fields.Keys == cfg.fieldNames
    ensures Step(cfg, s, Change(name, value)).status == s.status
    ensures Step(cfg, s, Change(name, value)).pending == s.pending
    ensures Step(cfg, s, Change(name, value)).inFlight == s.inFlight
  {
  }

  /** The value a field holds after a run of keystrokes: the last value
      typed into it, or what it held before. */
  function LastWritten(events: seq<Event>, name: string, before: string): string
    decreases |events|
  {
    if events == [] then before
    else
      var last := events[|events| - 1];
      if last.Change? && last.name == name then last.value
      else LastWritten(events[..|events| - 1], name, before)
  }

  predicate AllChanges(events: seq<Event>) {
    forall i :: 0 <= i < |events| ==> events[i].Change?
  }

  lemma {:induction false} RunSnoc(cfg: Config, s: State, events: seq<Event>, e: Event)
    ensures Run(cfg, s, events + [e]) == Step(cfg, Run(cfg, s, events), e)
    decreases |events|
  {
    if events == [] {
      assert [e][1..] == [];
    } else {
      assert (events + [e])[1..] == events[1..] + [e];
      RunSnoc(cfg, Step(cfg, s, events[0]), events[1..], e);
    }
  }

  /** Last write wins: after any run of keystrokes, each field holds the
      last value typed into it. */
  lemma {:induction false} LastWriteWins(cfg: Config, s: State, events: seq<Event>, name: string)
    requires Inv(cfg, s)
    requires AllChanges(events)
    requires name in cfg.fieldNames
    ensures Run(cfg, s, events).fields.Keys == cfg.fieldNames
    ensures Run(cfg, s, events).fields[name] == LastWritten(events, name, s.fields[name])
    ensures Run(cfg, s, events).status == s.status
    decreases |events|
  {
    if events != [] {
      var init := events[..|events| - 1];
      var last := events[|events| - 1];
      assert events == init + [last];
      assert AllChanges(init) by {
        forall i | 0 <= i < |init| ensures init[i].Change? {
          assert init[i] == events[i];
        }
      }
      LastWriteWins(cfg, s, init, name);
      RunSnoc(cfg, s, init, last);
    }
  }

  /** Submitting is refused while a post is in progress, so a second click
      posts nothing. */
  lemma SubmitDisabledWhileSubmitting(cfg: Config, s: State)
    requires s.status == Submitting
    ensures Step(cfg, s, Submit) == s
  {
  }

  /** An enabled, valid submission moves to "submitting" and starts one
      post; nothing else changes. */
  lemma SubmitStartsPost(cfg: Config, s: State)
    requires s.status != Submitting && RequiredFilled(cfg, s.fields)
    ensures Step(cfg, s, Submit).status == Submitting
    ensures SubmitDisabled(Step(cfg, s, Submit))
    ensures Step(cfg, s, Submit).inFlight == s.inFlight + 1
    ensures Step(cfg, s, Submit).fields == s.fields
    ensures Step(cfg, s, Submit).pending == s.pending
  {
  }

  /** The browser blocks a submission while a required input is empty: the
      handler does not run, so nothing changes and no post starts. */
  lemma SubmitNeedsRequired(cfg: Config, s: State)
    requires !RequiredFilled(cfg, s.fields)
    ensures Step(cfg, s, Submit) == s
  {
  }

  /** Whenever a post is outstanding, whatever the status shown by then, its
      reply settles it: a successful post empties every field and schedules
      the success reset; a failed or thrown post keeps the fields exactly and
      schedules the failure reset. */
  lemma ResolveOutcome(cfg: Config, s: State, o: Outcome)
    requires Inv(cfg, s) && s.inFlight > 0
    ensures var r := Step(cfg, s, Resolve(o));
      && r.inFlight == s.inFlight - 1
      && (Succeeds(cfg.rule, o) ==>
           r.status == Success && r.fields.Keys == cfg.fieldNames
           && (forall k :: k in r.fields ==> r.fields[k] == "")
           && r.pending == Schedule(s.pending, cfg.successReset))
      && (!Succeeds(cfg.rule, o) ==>
           r.status == Error && r.fields == s.fields
           && r.pending == Schedule(s.pending, cfg.errorReset))
  {
  }

  /** A pending reset always ends in "idle", from any status; it fires once
      and touches nothing else. */
  lemma TimerResetsToIdle(cfg: Config, s: State, d: nat)
    requires d in s.pending
    ensures Step(cfg, s, TimerFires(d)).status == Idle
    ensures Step(cfg, s, TimerFires(d)).fields == s.fields
    ensures Step(cfg, s, TimerFires(d)).pending == s.pending - multiset{d}
    ensures Step(cfg, s, TimerFires(d)).inFlight == s.inFlight
  {
  }

  /** Dismissing the result modal forces "idle" but cancels no pending
      reset; clicking the card changes nothing. */
  lemma DismissKeepsTimers(cfg: Config, s: State, t: ModalTarget)
    requires ModalVisible(cfg, s)
    ensures t != Card ==> Step(cfg, s, ModalClick(t)).status == Idle
    ensures Step(cfg, s, ModalClick(t)).pending == s.pending
    ensures Step(cfg, s, ModalClick(t)).fields == s.fields
    ensures Step(cfg, s, ModalClick(t)).inFlight == s.inFlight
    ensures Step(cfg, s, ModalClick(Card)) == s
  {
  }
}
