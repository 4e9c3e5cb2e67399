/** The submission lifecycle of the contact form: the status, the two steps
    of `submit` (mark as sending, then settle on the network outcome), and
    the parts of the form view that depend on the status
    (src/App.jsx:173, 182-197, 239-249). The request itself is replaced by
    its outcome, which `Settle` takes as a parameter. */
module Submission {
  import opened Wrappers
  import LeadForm
  import ServicePicker

  /** The submission status; `Idle` is the initial `null`. */
  datatype Status = Idle | Sending | Success | Error

  /** How the awaited `fetch` ended: a response with `res.ok` true, a
      response with `res.ok` false, or a rejection. */
  datatype Outcome = Ok | NotOk | Thrown

  /** The contact section's state. */
  datatype Contact = Contact(form: LeadForm.Form, status: Status)

  /** The state the contact section mounts with (src/App.jsx:172-173). */
  const Initial: Contact := Contact(LeadForm.Initial, Idle)

  /** The literal the form is reset to after a successful submission
      (src/App.jsx:193); it is written out separately from the initial one. */
  const ResetForm: LeadForm.Form := LeadForm.Form("", "", "", "", [], "", "", None)

  /** The synchronous first step of `submit`: the status becomes "sending"
      before anything is awaited. */
  function Begin(c: Contact): (r: Contact)
    ensures r.status == Sending
    ensures r.form == c.form
  {
    c.(status := Sending)
  }

  /** The step after the request settles. Only `Ok` reaches the reset; a
      not-ok response throws, and the catch only records the error. */
  function Settle(c: Contact, o: Outcome): (r: Contact)
    ensures o.Ok? ==> r.status == Success && r.form == LeadForm.Initial
    ensures !o.Ok? ==> r.status == Error && r.form == c.form
  {
    match o
    case Ok => Contact(ResetForm, Success)
    case NotOk => c.(status := Error)
    case Thrown => c.(status := Error)
  }

  /** A whole submission whose request settles with `o`. */
  function Submit(c: Contact, o: Outcome): (r: Contact)
    ensures o.Ok? ==> r.status == Success && r.form == LeadForm.Initial
    ensures o.Ok? ==> r.form.services == [] && r.form.phone == None
    ensures !o.Ok? ==> r.status == Error && r.form == c.form
  {
    Settle(Begin(c), o)
  }

  /** The submit button's label. */
  function ButtonLabel(s: Status): (text: string)
    ensures text == "Sending..." <==> s == Sending
    ensures text == "Sending..." || text == "Request proposal"
  {
    if s == Sending then "Sending..." else "Request proposal"
  }

  /** The notice under the button. */
  datatype Notice = NoNotice | Thanks | TryAgain

  function NoticeFor(s: Status): (n: Notice)
    ensures n == Thanks <==> s == Success
    ensures n == TryAgain <==> s == Error
  {
    match s
    case Success => Thanks
    case Error => TryAgain
    case _ => NoNotice
  }

  /** Before any submission the button reads "Request proposal", no notice is
      shown, and every input is blank. */
  lemma InitialShowsNothing()
    ensures ButtonLabel(Initial.status) == "Request proposal"
    ensures NoticeFor(Initial.status) == NoNotice
    ensures forall k :: LeadForm.Shown(Initial.form, k) == ""
    ensures Initial.form.services == []
  {
  }

  /** What can happen in the contact section: the user types into an input,
      clicks one of the service buttons, or presses submit (`Start`), and a
      pending request settles as `o` (`Resolve`). Neither the inputs nor the
      button are disabled while a request is pending, so any of these can
      come between a `Start` and its `Resolve`, including further `Start`s. */
  datatype Event =
    | Type(field: LeadForm.Field, value: string)
    | Click(svc: string)
    | Start
    | Resolve(o: Outcome)

  /** The state after one event. Settling never depends on which request
      settles, so a `Resolve` need not name its request. */
  function Step(c: Contact, e: Event): Contact {
    match e
    case Type(k, v) => c.(form := LeadForm.SetField(c.form, k, v))
    case Click(svc) => c.(form := LeadForm.ToggleService(c.form, svc))
    case Start => Begin(c)
    case Resolve(o) => Settle(c, o)
  }

  /** The state after a run of events, first to last. */
  function Run(c: Contact, es: seq<Event>): Contact
    decreases |es|
  {
    if es == [] then c else Run(Step(c, es[0]), es[1..])
  }

  /** Clicks only ever name offered options: the buttons are rendered from
      `serviceOptions` (src/App.jsx:199, 217-218). */
  predicate ClicksOffered(es: seq<Event>) {
    forall i :: 0 <= i < |es| ==> es[i].Click? ==> es[i].svc in ServicePicker.Options
  }

  /** Every event keeps the form well-formed; a successful settle resets it
      to the empty selection. */
  lemma {:induction false} RunKeepsWellFormed(c: Contact, es: seq<Event>)
    requires LeadForm.WellFormed(c.form)
    requires ClicksOffered(es)
    ensures LeadForm.WellFormed(Run(c, es).form)
    decreases |es|
  {
    if es != [] {
      var e := es[0];
      match e {
        case Type(k, v) => LeadForm.EditsKeepWellFormed(c.form, k, v, ServicePicker.Options[0]);
        case Click(svc) => LeadForm.EditsKeepWellFormed(c.form, LeadForm.Name, "", svc);
        case Start =>
        case Resolve(o) =>
      }
      assert ClicksOffered(es[1..]) by {
        forall i | 0 <= i < |es[1..]| ensures es[1..][i].Click? ==> es[1..][i].svc in ServicePicker.Options {
          assert es[1..][i] == es[i + 1];
        }
      }
      RunKeepsWellFormed(Step(c, e), es[1..]);
    }
  }

  /** Every state reachable from mount has a well-formed form: the selected
      services never hold a duplicate or anything but an offered option, so
      the hypothesis of `ServicePicker.ToggleTwiceRestoresIff` always holds. */
  lemma ReachableWellFormed(es: seq<Event>)
    requires ClicksOffered(es)
    ensures ServicePicker.Distinct(Run(Initial, es).form.services)
    ensures ServicePicker.Elems(Run(Initial, es).form.services) <= ServicePicker.Elems(ServicePicker.Options)
  {
    RunKeepsWellFormed(Initial, es);
  }

  /** Running events one after another is running them in one go. */
  lemma {:induction false} RunAppend(c: Contact, a: seq<Event>, b: seq<Event>)
    ensures Run(c, a + b) == Run(Run(c, a), b)
    decreases |a|
  {
    if a == [] {
      assert a + b == b;
    } else {
      assert (a + b)[0] == a[0] && (a + b)[1..] == a[1..] + b;
      RunAppend(Step(c, a[0]), a[1..], b);
    }
  }

  /** A run of one event is that event's step. */
  lemma RunOne(c: Contact, e: Event)
    ensures Run(c, [e]) == Step(c, e)
  {
  }

  /** Input typed while a request is pending is kept when the request fails
      and discarded when it succeeds: the settle acts on the form as it is
      then, not on the form that was sent. Meanwhile the button reads
      "Sending...". */
  lemma EditWhilePending(c: Contact, k: LeadForm.Field, v: string, o: Outcome)
    ensures Run(c, [Start, Type(k, v)]).status == Sending
    ensures ButtonLabel(Run(c, [Start, Type(k, v)]).status) == "Sending..."
    ensures !o.Ok? ==> Run(c, [Start, Type(k, v), Resolve(o)]) == Contact(LeadForm.SetField(c.form, k, v), Error)
    ensures o.Ok? ==> Run(c, [Start, Type(k, v), Resolve(o)]) == Contact(LeadForm.Initial, Success)
  {
    RunAppend(c, [Start], [Type(k, v)]);
    assert [Start] + [Type(k, v)] == [Start, Type(k, v)];
    RunOne(c, Start);
    RunOne(Begin(c), Type(k, v));
    var pending := Step(Begin(c), Type(k, v));
    RunAppend(c, [Start, Type(k, v)], [Resolve(o)]);
    assert [Start, Type(k, v)] + [Resolve(o)] == [Start, Type(k, v), Resolve(o)];
    RunOne(pending, Resolve(o));
  }

  /** Two overlapping submissions: whichever request settles last decides the
      status, even when it is the older one. */
  lemma LastToSettleWins(c: Contact, first: Outcome, last: Outcome)
    ensures Run(c, [Start, Start, Resolve(first), Resolve(last)]).status ==
      if last.Ok? then Success else Error
  {
    var es := [Start, Start, Resolve(first), Resolve(last)];
    RunAppend(c, es[..3], [Resolve(last)]);
    assert es[..3] + [Resolve(last)] == es;
    RunOne(Run(c, es[..3]), Resolve(last));
  }

  /** As soon as `submit` starts, before its request settles, the button reads
      "Sending..." and no notice is shown, whatever the previous status was. */
  lemma BeginShowsSending(c: Contact)
    ensures ButtonLabel(Begin(c).status) == "Sending..."
    ensures NoticeFor(Begin(c).status) == NoNotice
  {
  }

  /** Once settled, the button never reads "Sending..." and exactly one of the
      two notices is shown, chosen by the outcome. */
  lemma SettledShowsNotice(c: Contact, o: Outcome)
    ensures ButtonLabel(Submit(c, o).status) == "Request proposal"
    ensures NoticeFor(Submit(c, o).status) == if o.Ok? then Thanks else TryAgain
  {
  }

  /** A successful submission clears a phone number that had been entered,
      because the reset literal has no `phone` property. */
  lemma SuccessDropsPhone(c: Contact, p: string)
    requires c.form.phone == Some(p)
    ensures LeadForm.Text(Submit(c, Ok).form, LeadForm.Phone) == None
    ensures LeadForm.Shown(Submit(c, Ok).form, LeadForm.Phone) == ""
  {
  }

  /** A failed submission keeps everything the user typed, so a retry starts
      from the same form and ends exactly as if the failure had not happened. */
  lemma RetryAfterFailure(c: Contact, failed: Outcome, o: Outcome)
    requires !failed.Ok?
    ensures Submit(c, failed).form == c.form
    ensures Submit(Submit(c, failed), o) == Submit(c, o)
  {
  }

  /** The outcome of a submission does not depend on the status it starts
      from: only the form carries over. */
  lemma SubmitIgnoresPriorStatus(f: LeadForm.Form, s1: Status, s2: Status, o: Outcome)
    ensures Submit(Contact(f, s1), o) == Submit(Contact(f, s2), o)
  {
  }

  /** The scenario of a lead "Jo" who picked "Paid Social": accepted, the
      form is cleared; rejected, the form is kept as typed. */
  lemma JoScenario()
    ensures var jo := LeadForm.Form("Jo", "jo@x.com", "", "", ["Paid Social"], "", "", None);
            && Submit(Contact(jo, Idle), Ok) == Contact(LeadForm.Initial, Success)
            && Submit(Contact(jo, Idle), NotOk) == Contact(jo, Error)
            && Submit(Contact(jo, Idle), Thrown) == Contact(jo, Error)
  {
  }
}
