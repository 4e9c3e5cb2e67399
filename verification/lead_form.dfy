/** The lead-capture form of the contact section: an immutable record of the
    field values, the per-field edits the inputs perform, and the service
    toggle lifted to the whole form (src/App.jsx:172-180, 208-237). */
module LeadForm {
  import opened Wrappers
  import ServicePicker

  /** The form state. `phone` is absent until the phone input is first
      edited: the initial object literal has no `phone` property. */
  datatype Form = Form(
    name: string,
    email: string,
    company: string,
    website: string,
    services: seq<string>,
    budget: string,
    message: string,
    phone: Option<string>)

  /** The form the contact section starts with (src/App.jsx:172). */
  const Initial: Form := Form("", "", "", "", [], "", "", None)

  /** The fields written by a text input, the budget select or the textarea. */
  datatype Field = Name | Email | Company | Website | Budget | Phone | Message

  /** The value a field holds; only `phone` can be absent. */
  function Text(f: Form, k: Field): Option<string> {
    match k
    case Name => Some(f.name)
    case Email => Some(f.email)
    case Company => Some(f.company)
    case Website => Some(f.website)
    case Budget => Some(f.budget)
    case Phone => f.phone
    case Message => Some(f.message)
  }

  /** The value an input displays; the phone input shows `form.phone || ''`. */
  function Shown(f: Form, k: Field): string {
    Text(f, k).GetOr("")
  }

  /** `g` agrees with `f` on the services and on every field except `k`. */
  predicate OnlyChanged(f: Form, g: Form, k: Field) {
    && g.services == f.services
    && forall k' :: k' != k ==> Text(g, k') == Text(f, k')
  }

  /** An `onChange` handler: `setForm({ ...form, k: value })`. */
  function SetField(f: Form, k: Field, v: string): (r: Form)
    ensures Text(r, k) == Some(v)
    ensures Shown(r, k) == v
    ensures OnlyChanged(f, r, k)
  {
    match k
    case Name => f.(name := v)
    case Email => f.(email := v)
    case Company => f.(company := v)
    case Website => f.(website := v)
    case Budget => f.(budget := v)
    case Phone => f.(phone := Some(v))
    case Message => f.(message := v)
  }

  /** The contract of `SetField` pins its result down completely: any form
      that holds `v` in `k` and agrees with `f` elsewhere is `SetField(f, k, v)`. */
  lemma SetFieldDetermined(f: Form, g: Form, k: Field, v: string)
    requires Text(g, k) == Some(v) && OnlyChanged(f, g, k)
    ensures g == SetField(f, k, v)
  {
    assert Text(g, Name) == Text(SetField(f, k, v), Name);
    assert Text(g, Email) == Text(SetField(f, k, v), Email);
    assert Text(g, Company) == Text(SetField(f, k, v), Company);
    assert Text(g, Website) == Text(SetField(f, k, v), Website);
    assert Text(g, Budget) == Text(SetField(f, k, v), Budget);
    assert Text(g, Phone) == Text(SetField(f, k, v), Phone);
    assert Text(g, Message) == Text(SetField(f, k, v), Message);
  }

  /** A service button's click: toggles `svc` in the selected services and
      leaves every other field alone. */
  function ToggleService(f: Form, svc: string): (r: Form)
    ensures svc in f.services ==>
      svc !in r.services && multiset(r.services) == multiset(f.services)[svc := 0]
    ensures svc !in f.services ==> r.services == f.services + [svc]
    ensures ServicePicker.Elems(r.services) ==
      if svc in f.services then ServicePicker.Elems(f.services) - {svc}
      else ServicePicker.Elems(f.services) + {svc}
    ensures forall k :: Text(r, k) == Text(f, k)
  {
    f.(services := ServicePicker.Toggle(f.services, svc))
  }

  /** A selection without duplicates stays without duplicates. */
  lemma ToggleServiceKeepsDistinct(f: Form, svc: string)
    requires ServicePicker.Distinct(f.services)
    ensures ServicePicker.Distinct(ToggleService(f, svc).services)
  {
    ServicePicker.ToggleKeepsDistinct(f.services, svc);
  }

  /** The invariant of every reachable form: the selected services have no
      duplicates and are all offered options. */
  predicate WellFormed(f: Form) {
    && ServicePicker.Distinct(f.services)
    && ServicePicker.Elems(f.services) <= ServicePicker.Elems(ServicePicker.Options)
  }

  /** Field edits keep the invariant, and so does clicking one of the option
      buttons, the only way `toggleService` is called (src/App.jsx:217-218). */
  lemma EditsKeepWellFormed(f: Form, k: Field, v: string, svc: string)
    requires WellFormed(f)
    requires svc in ServicePicker.Options
    ensures WellFormed(SetField(f, k, v))
    ensures WellFormed(ToggleService(f, svc))
  {
    ServicePicker.ToggleKeepsDistinct(f.services, svc);
    ServicePicker.ToggleStaysWithinOptions(f.services, svc);
  }

  /** One keystroke or selection: field `field` receives `value`. */
  datatype Edit = Edit(field: Field, value: string)

  /** The form after a run of edits, applied first to last. */
  function ApplyEdits(f: Form, es: seq<Edit>): Form
    decreases |es|
  {
    if es == [] then f
    else ApplyEdits(SetField(f, es[0].field, es[0].value), es[1..])
  }

  /** The value of the latest edit of `k` in `es`, found by scanning from the
      end; `None` when `k` is never edited. */
  function LastSet(es: seq<Edit>, k: Field): Option<string>
    decreases |es|
  {
    if es == [] then None
    else if es[|es| - 1].field == k then Some(es[|es| - 1].value)
    else LastSet(es[..|es| - 1], k)
  }

  /** Prepending an edit only matters when no later edit touches the field. */
  lemma {:induction false} LastSetCons(e: Edit, es: seq<Edit>, k: Field)
    ensures LastSet([e] + es, k) ==
      if LastSet(es, k).Some? then LastSet(es, k)
      else if e.field == k then Some(e.value)
      else None
    decreases |es|
  {
    var s := [e] + es;
    if es == [] {
      assert s[..|s| - 1] == [];
    } else {
      assert s[|s| - 1] == es[|es| - 1];
      assert s[..|s| - 1] == [e] + es[..|es| - 1];
      LastSetCons(e, es[..|es| - 1], k);
    }
  }

  /** After any run of edits every field holds the value of its last edit, a
      field that was never edited keeps its prior value, and the services are
      untouched. */
  lemma {:induction false} ApplyEditsKeepsLastValue(f: Form, es: seq<Edit>, k: Field)
    ensures LastSet(es, k).Some? ==> Text(ApplyEdits(f, es), k) == LastSet(es, k)
    ensures LastSet(es, k).None? ==> Text(ApplyEdits(f, es), k) == Text(f, k)
    ensures ApplyEdits(f, es).services == f.services
    decreases |es|
  {
    if es != [] {
      var g := SetField(f, es[0].field, es[0].value);
      ApplyEditsKeepsLastValue(g, es[1..], k);
      assert es == [es[0]] + es[1..];
      LastSetCons(es[0], es[1..], k);
    }
  }
}
