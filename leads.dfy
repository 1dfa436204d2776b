/**
 * The two enquiry forms of the site and what a submission does.
 *
 * `LeadCapture.submit` moves its status from `idle` (or `error`) to
 * `loading`, builds the payload of the Netlify "contact" form from the
 * controlled form state, awaits the POST, then reads the `noah_leads`
 * array from local storage, pushes the payload with a timestamp, writes it
 * back and ends in `success`; anything that throws on the way ends in
 * `error`. The HTTP status of the response is never looked at: any
 * response that arrives counts as a success.
 *
 * `Contact.handleSubmit` has the same status machine without the log: it
 * reads the form's fields, forces `form-name` to "contact", posts them and
 * resets the form on success.
 *
 * An `async` handler runs in two halves around its `await`; the model
 * splits each handler into a submit step and a settle step, and the
 * network's answer and the timestamp are parameters of the settle step.
 */
module Leads {
  import opened Wrappers

  /** The `status` state of both forms. */
  datatype Status = Idle | Loading | Success | Error

  /** How the awaited `fetch` ends: a response with some HTTP status, or a thrown error. */
  datatype PostOutcome = Resolved(httpStatus: int) | Threw

  /**
   * Where a settled submission ends: `success` exactly when the POST
   * resolved, whatever its HTTP status, and everything after it in the
   * `try` block (for the lead form, the local-storage backup) completed.
   */
  function Settled(outcome: PostOutcome, restCompleted: bool): (s: Status)
    ensures s == Success <==> outcome.Resolved? && restCompleted
    ensures s == Error <==> outcome.Threw? || !restCompleted
  {
    if outcome.Resolved? && restCompleted then Success else Error
  }

  // ---- Form fields as name/value entries -----------------------------------------

  /** One name/value pair of a `FormData` or of a urlencoded body. */
  datatype Entry = Entry(name: string, value: string)

  /** The values of the entries called `name`, in order. */
  function Named(es: seq<Entry>, name: string): seq<string>
  {
    if |es| == 0 then []
    else (if es[0].name == name then [es[0].value] else []) + Named(es[1..], name)
  }

  /** The entries not called `name`, in order. */
  function Without(es: seq<Entry>, name: string): (r: seq<Entry>)
    ensures Named(r, name) == []
  {
    if |es| == 0 then []
    else if es[0].name == name then Without(es[1..], name)
    else [es[0]] + Without(es[1..], name)
  }

  /**
   * The value of the first entry called `name`: how posted fields are read
   * back (`PayloadFromFields`) and how the contact form's required fields
   * are checked (`ContactFilled`).
   */
  function FieldValue(es: seq<Entry>, name: string): (r: Option<string>)
    ensures r.None? <==> Named(es, name) == []
    ensures r.Some? ==> r.value == Named(es, name)[0]
  {
    if |es| == 0 then None
    else if es[0].name == name then Some(es[0].value)
    else FieldValue(es[1..], name)
  }

  /**
   * `formData.set(name, value)`: the first entry called `name` takes the
   * value and keeps its place, the later ones are removed; with no such
   * entry, one is appended. Afterwards there is exactly one entry called
   * `name`, holding `value`, and the other entries are as they were, in
   * the same order.
   */
  function FormDataSet(es: seq<Entry>, name: string, value: string): (r: seq<Entry>)
    ensures Named(r, name) == [value]
    ensures Without(r, name) == Without(es, name)
    ensures Named(es, name) == [] ==> r == es + [Entry(name, value)]
  {
    if |es| == 0 then
      [Entry(name, value)]
    else if es[0].name == name then
      var r := [Entry(name, value)] + Without(es[1..], name);
      assert r[1..] == Without(es[1..], name);
      WithoutUnnamed(Without(es[1..], name), name);
      r
    else
      var r := [es[0]] + FormDataSet(es[1..], name, value);
      assert r[1..] == FormDataSet(es[1..], name, value);
      r
  }

  /** The first entry called `name` keeps its place, and the entries before it are untouched. */
  lemma {:induction false} FormDataSetKeepsPlace(es: seq<Entry>, name: string, value: string, j: nat)
    requires j < |es| && es[j].name == name && Named(es[..j], name) == []
    ensures j < |FormDataSet(es, name, value)|
    ensures FormDataSet(es, name, value)[..j] == es[..j]
    ensures FormDataSet(es, name, value)[j] == Entry(name, value)
  {
    if j > 0 {
      assert es[..j][0] == es[0];
      assert es[0].name != name;
      assert es[1..][..j - 1] == es[..j][1..];
      FormDataSetKeepsPlace(es[1..], name, value, j - 1);
      var r := FormDataSet(es, name, value);
      assert r == [es[0]] + FormDataSet(es[1..], name, value);
      assert r[..j] == [es[0]] + FormDataSet(es[1..], name, value)[..j - 1];
    }
  }

  /** Setting a field that is already set to that value as its only entry changes nothing. */
  lemma {:induction false} FormDataSetIdempotent(es: seq<Entry>, name: string, value: string)
    ensures FormDataSet(FormDataSet(es, name, value), name, value) == FormDataSet(es, name, value)
  {
    if |es| > 0 && es[0].name != name {
      var r := FormDataSet(es, name, value);
      assert r[1..] == FormDataSet(es[1..], name, value);
      FormDataSetIdempotent(es[1..], name, value);
    } else if |es| > 0 {
      var rest := Without(es[1..], name);
      var r := FormDataSet(es, name, value);
      assert r[1..] == rest;
      WithoutUnnamed(rest, name);
    }
  }

  /** Removing a name no entry carries removes nothing. */
  lemma {:induction false} WithoutUnnamed(es: seq<Entry>, name: string)
    requires Named(es, name) == []
    ensures Without(es, name) == es
  {
    if |es| > 0 {
      assert Named(es[1..], name) == [] by {
        assert es[0].name != name;
      }
      WithoutUnnamed(es[1..], name);
      assert es == [es[0]] + es[1..];
    }
  }

  // ---- The lead-capture form -------------------------------------------------------

  /** The controlled state of the lead form. */
  datatype LeadForm = LeadForm(name: string, email: string, phone: string, service: string, message: string)

  const DefaultService: string := "Seller valuation"
  const ContactFormName: string := "contact"
  const LeadSource: string := "LeadCapture modal"

  /** The form as the modal first shows it: all fields empty, the service preselected. */
  const InitialForm: LeadForm := LeadForm("", "", "", DefaultService, "")

  /** The `data` object posted to the Netlify "contact" form. */
  datatype Payload = Payload(
    formName: string, name: string, email: string, phone: string,
    service: string, message: string, source: string)

  /** One element of the `noah_leads` array: the payload plus the ISO timestamp `ts`. */
  datatype LeadRecord = LeadRecord(payload: Payload, ts: string)

  /**
   * The browser submits the form only when its `required` inputs, the
   * name and the email, are not empty. The check that the email has the
   * shape of an address is not modelled.
   */
  predicate LeadFormFilled(f: LeadForm)
  {
    f.name != "" && f.email != ""
  }

  /** The payload built from the form: the form's fields, tagged with the form name and the source. */
  function PayloadOf(f: LeadForm): (p: Payload)
    ensures WellTagged(p)
    ensures p.name == f.name && p.email == f.email && p.phone == f.phone
    ensures p.service == f.service && p.message == f.message
  {
    Payload(ContactFormName, f.name, f.email, f.phone, f.service, f.message, LeadSource)
  }

  /** A lead that came from this modal: addressed to the "contact" form, marked with the modal as its source. */
  predicate WellTagged(p: Payload)
  {
    p.formName == ContactFormName && p.source == LeadSource
  }

  /** The payload as the name/value pairs `URLSearchParams` encodes, in the object's key order. */
  function PayloadFields(p: Payload): (es: seq<Entry>)
    ensures |es| == 7
    ensures forall i, j :: 0 <= i < j < |es| ==> es[i].name != es[j].name
  {
    [ Entry("form-name", p.formName), Entry("name", p.name), Entry("email", p.email),
      Entry("phone", p.phone), Entry("service", p.service), Entry("message", p.message),
      Entry("source", p.source) ]
  }

  /** Reads a payload back from posted fields, as the receiving side would. */
  function PayloadFromFields(es: seq<Entry>): Option<Payload>
  {
    var formName := FieldValue(es, "form-name");
    var name := FieldValue(es, "name");
    var email := FieldValue(es, "email");
    var phone := FieldValue(es, "phone");
    var service := FieldValue(es, "service");
    var message := FieldValue(es, "message");
    var source := FieldValue(es, "source");
    if formName.Some? && name.Some? && email.Some? && phone.Some? && service.Some? && message.Some? && source.Some?
    then Some(Payload(formName.value, name.value, email.value, phone.value, service.value, message.value, source.value))
    else None
  }

  /** Every field of the payload is posted once, under its own name, so the posted body determines it. */
  lemma PayloadFieldsRoundTrip(p: Payload)
    ensures PayloadFromFields(PayloadFields(p)) == Some(p)
    ensures WellTagged(p) ==> Named(PayloadFields(p), "form-name") == [ContactFormName]
  {
    var es := PayloadFields(p);
    var names := ["form-name", "name", "email", "phone", "service", "message", "source"];
    forall i | 0 <= i < 7 ensures es[i].name == names[i] && Named(es, names[i]) == [es[i].value] {
      NamedOnce(es, i);
    }
    assert FieldValue(es, names[0]) == Some(p.formName);
    assert FieldValue(es, names[1]) == Some(p.name);
    assert FieldValue(es, names[2]) == Some(p.email);
    assert FieldValue(es, names[3]) == Some(p.phone);
    assert FieldValue(es, names[4]) == Some(p.service);
    assert FieldValue(es, names[5]) == Some(p.message);
    assert FieldValue(es, names[6]) == Some(p.source);
  }

  /** A name carried by exactly one entry names exactly that entry's value. */
  lemma {:induction false} NamedOnce(es: seq<Entry>, i: int)
    requires 0 <= i < |es|
    requires forall j :: 0 <= j < |es| && j != i ==> es[j].name != es[i].name
    ensures Named(es, es[i].name) == [es[i].value]
  {
    if i == 0 {
      NamedAbsent(es[1..], es[0].name);
    } else {
      NamedOnce(es[1..], i - 1);
    }
  }

  lemma {:induction false} NamedAbsent(es: seq<Entry>, name: string)
    requires forall j :: 0 <= j < |es| ==> es[j].name != name
    ensures Named(es, name) == []
  {
    if |es| > 0 {
      NamedAbsent(es[1..], name);
    }
  }

  /**
   * Everything a lead submission touches: the status, the form, the
   * payload whose POST is awaited (the `data` the suspended handler
   * holds), and the `noah_leads` log.
   */
  datatype LeadState = LeadState(status: Status, form: LeadForm, pending: Option<Payload>, log: seq<LeadRecord>)

  /** A payload is awaited exactly while the status is `loading`, and it is one this modal built. */
  predicate Consistent(m: LeadState)
  {
    (m.status == Loading <==> m.pending.Some?) &&
    (m.pending.Some? ==> WellTagged(m.pending.value))
  }

  /** What can happen to the modal. */
  datatype LeadEvent =
    | Edit(form: LeadForm)                                   // a field's onChange
    | Submit                                                 // the form's onSubmit
    | Settle(outcome: PostOutcome, stored: bool, ts: string) // the awaited POST ends

  /** A submission starts: the form is shown, its button enabled and its required fields filled. */
  predicate CanSubmit(m: LeadState)
  {
    (m.status == Idle || m.status == Error) && LeadFormFilled(m.form)
  }

  /**
   * One event. The form, with its inputs and submit button, is not shown
   * in `success`, so nothing can be edited or submitted there; the submit
   * button is disabled in `loading`; an empty required field blocks the
   * submission. A submission captures the payload
   * before the `await`, so edits made while it is pending do not change
   * what is posted or logged. `stored` says whether reading, parsing and
   * writing back the local-storage array succeeded.
   */
  function Step(m: LeadState, e: LeadEvent): (r: LeadState)
    ensures Consistent(m) ==> Consistent(r)
    ensures e.Submit? && CanSubmit(m) ==>
      r.status == Loading && r.pending == Some(PayloadOf(m.form)) && r.log == m.log && r.form == m.form
    ensures e.Submit? && !CanSubmit(m) ==> r == m
    ensures e.Settle? && m.pending.Some? ==>
      r.status == Settled(e.outcome, e.stored) && r.pending.None? &&
      r.log == (if r.status == Success then m.log + [LeadRecord(m.pending.value, e.ts)] else m.log)
    ensures e.Settle? ==> r.form == m.form
    ensures e.Edit? ==> r.status == m.status && r.pending == m.pending && r.log == m.log
    ensures e.Edit? ==> r.form == if m.status == Success then m.form else e.form
  {
    match e
    case Edit(f) =>
      if m.status == Success then m else m.(form := f)
    case Submit =>
      if CanSubmit(m) then m.(status := Loading, pending := Some(PayloadOf(m.form)))
      else m
    case Settle(outcome, stored, ts) =>
      match m.pending
      case None => m
      case Some(p) =>
        if outcome.Resolved? && stored then
          m.(status := Success, pending := None, log := m.log + [LeadRecord(p, ts)])
        else
          m.(status := Error, pending := None)
  }

  /** A run of events, in order. */
  function Run(m: LeadState, es: seq<LeadEvent>): LeadState
    decreases |es|
  {
    if |es| == 0 then m else Run(Step(m, es[0]), es[1..])
  }

  function Submits(es: seq<LeadEvent>): nat
  {
    if |es| == 0 then 0 else (if es[0].Submit? then 1 else 0) + Submits(es[1..])
  }

  function InitialLead(log: seq<LeadRecord>): LeadState
  {
    LeadState(Idle, InitialForm, None, log)
  }

  /** The HTTP status of the response plays no part: a 500 is logged like a 200. */
  lemma HttpStatusIgnored(m: LeadState, a: int, b: int, stored: bool, ts: string)
    requires m.status == Loading && m.pending.Some?
    ensures Step(m, Settle(Resolved(a), stored, ts)) == Step(m, Settle(Resolved(b), stored, ts))
    ensures stored ==> Step(m, Settle(Resolved(a), stored, ts)).status == Success
  {
  }

  /**
   * Whatever happens, the log only grows at its end: earlier records stay,
   * in order; every record added is a tagged lead from this modal; and no
   * more records are added than submissions were made (plus the one
   * already in flight, if any).
   */
  lemma {:induction false} RunAppendsOnly(m: LeadState, es: seq<LeadEvent>)
    requires Consistent(m)
    ensures Consistent(Run(m, es))
    ensures |Run(m, es).log| >= |m.log| && Run(m, es).log[..|m.log|] == m.log
    ensures forall i :: |m.log| <= i < |Run(m, es).log| ==> WellTagged(Run(m, es).log[i].payload)
    ensures |Run(m, es).log| + (if Run(m, es).pending.Some? then 1 else 0)
      <= |m.log| + Submits(es) + (if m.pending.Some? then 1 else 0)
    decreases |es|
  {
    if |es| > 0 {
      var m1 := Step(m, es[0]);
      RunAppendsOnly(m1, es[1..]);
      var r := Run(m1, es[1..]);
      assert r.log[..|m.log|] == r.log[..|m1.log|][..|m.log|];
      assert Submits(es) == (if es[0].Submit? then 1 else 0) + Submits(es[1..]);
      forall i | |m.log| <= i < |r.log| ensures WellTagged(r.log[i].payload) {
        if i < |m1.log| {
          assert r.log[i] == r.log[..|m1.log|][i] == m1.log[i];
        }
      }
    }
  }

  /**
   * Once a lead has gone through, the modal stays on its confirmation:
   * nothing that can happen afterwards posts or logs anything.
   */
  lemma {:induction false} SuccessIsFinal(m: LeadState, es: seq<LeadEvent>)
    requires Consistent(m) && m.status == Success
    ensures Run(m, es) == m
  {
    if |es| > 0 {
      assert Step(m, es[0]) == m;
      SuccessIsFinal(m, es[1..]);
    }
  }

  /**
   * A fresh modal, filled in and submitted once, ends in `success` and
   * logs exactly that form's payload when the POST resolves and the backup
   * is written, and ends in `error` with the log unchanged otherwise; with
   * a required field left empty nothing is sent and it stays `idle`.
   */
  lemma SubmitOnce(log: seq<LeadRecord>, f: LeadForm, outcome: PostOutcome, stored: bool, ts: string)
    ensures var r := Run(InitialLead(log), [Edit(f), Submit, Settle(outcome, stored, ts)]);
      && r.status == (if LeadFormFilled(f) then Settled(outcome, stored) else Idle)
      && r.log == (if LeadFormFilled(f) && outcome.Resolved? && stored then log + [LeadRecord(PayloadOf(f), ts)] else log)
  {
    var es := [Edit(f), Submit, Settle(outcome, stored, ts)];
    var m1 := Step(InitialLead(log), Edit(f));
    var m2 := Step(m1, Submit);
    var m3 := Step(m2, Settle(outcome, stored, ts));
    assert LeadFormFilled(f) ==> m2.pending == Some(PayloadOf(f));
    assert Run(m3, []) == m3;
    assert es[1..][1..] == [Settle(outcome, stored, ts)];
    assert Run(m2, es[1..][1..]) == m3;
    assert es[1..] == [Submit, Settle(outcome, stored, ts)];
  }

  /** The `noah_leads` array in local storage, shared by every mounted modal. */
  class LeadStore {
    var records: seq<LeadRecord>

    constructor (records: seq<LeadRecord>)
      ensures this.records == records
    {
      this.records := records;
    }
  }

  /** The `LeadCapture` component's state and its event handlers. */
  class LeadCapture {
    var status: Status
    var form: LeadForm
    var pending: Option<Payload>
    const store: LeadStore

    function State(): LeadState
      reads this, store
    {
      LeadState(status, form, pending, store.records)
    }

    constructor (store: LeadStore)
      ensures this.store == store
      ensures State() == InitialLead(store.records)
    {
      status := Idle;
      form := InitialForm;
      pending := None;
      this.store := store;
    }

    /** A field's onChange: `setForm({ ...form, field: value })`. */
    method EditForm(f: LeadForm)
      modifies this
      ensures State() == Step(old(State()), LeadEvent.Edit(f))
    {
      if status != Success {
        form := f;
      }
    }

    /** The first half of `submit`, up to the `await`: returns the fields posted, if a POST starts. */
    method Submit() returns (posted: Option<seq<Entry>>)
      modifies this
      ensures State() == Step(old(State()), LeadEvent.Submit)
      ensures posted.Some? <==> CanSubmit(old(State()))
      ensures posted.Some? ==> posted.value == PayloadFields(PayloadOf(old(form)))
    {
      if status == Loading || status == Success || !LeadFormFilled(form) {
        return None;
      }
      status := Loading;
      var data := PayloadOf(form);
      pending := Some(data);
      posted := Some(PayloadFields(data));
    }

    /**
     * The second half of `submit`, once the POST has ended: on a response,
     * read the stored array, push the record and write it back, then
     * report success; on a throw anywhere, report the error.
     */
    method Settle(outcome: PostOutcome, stored: bool, ts: string)
      modifies this, store
      ensures State() == Step(old(State()), LeadEvent.Settle(outcome, stored, ts))
    {
      if pending.None? {
        return;
      }
      var data := pending.value;
      pending := None;
      if outcome.Threw? {
        status := Error;
        return;
      }
      if !stored {
        status := Error;
        return;
      }
      var leads := store.records;
      leads := leads + [LeadRecord(data, ts)];
      store.records := leads;
      status := Success;
    }
  }

  // ---- The contact section's form ----------------------------------------------------

  /** The contact form's `required` fields (name, email, message) hold something. */
  predicate ContactFilled(es: seq<Entry>)
  {
    Filled(es, "name") && Filled(es, "email") && Filled(es, "message")
  }

  predicate Filled(es: seq<Entry>, name: string)
  {
    var v := FieldValue(es, name);
    v.Some? && v.value != ""
  }

  /** The `Contact` component: an uncontrolled form whose fields are read when it is submitted. */
  class Contact {
    var status: Status
    /** The form element's current name/value pairs, in document order. */
    var entries: seq<Entry>
    /** What `reset()` puts back: the fields as the page first rendered them. */
    const defaults: seq<Entry>

    constructor (defaults: seq<Entry>)
      ensures status == Idle && entries == defaults && this.defaults == defaults
    {
      status := Idle;
      entries := defaults;
      this.defaults := defaults;
    }

    /** The visitor types into the form. */
    method Fill(es: seq<Entry>)
      modifies this
      ensures entries == es && status == old(status)
    {
      entries := es;
    }

    /**
     * The first half of `handleSubmit`: unless the disabled button or an
     * empty required field blocks it, move to `loading` and return the
     * fields posted, which name the "contact" form exactly once.
     */
    method Submit() returns (posted: Option<seq<Entry>>)
      modifies this
      ensures old(status) == Loading || !ContactFilled(old(entries)) ==> posted.None? && status == old(status)
      ensures old(status) != Loading && ContactFilled(old(entries)) ==>
        status == Loading && posted == Some(FormDataSet(old(entries), "form-name", ContactFormName))
      ensures entries == old(entries)
      ensures posted.Some? ==> FieldValue(posted.value, "form-name") == Some(ContactFormName)
      ensures posted.Some? ==> Without(posted.value, "form-name") == Without(old(entries), "form-name")
    {
      if status == Loading || !ContactFilled(entries) {
        return None;
      }
      status := Loading;
      var formData := entries;
      formData := FormDataSet(formData, "form-name", ContactFormName);
      posted := Some(formData);
    }

    /** The second half: success clears the form, a throw keeps what was typed. */
    method Settle(outcome: PostOutcome)
      requires status == Loading
      modifies this
      ensures status == Settled(outcome, true)
      ensures entries == if outcome.Resolved? then defaults else old(entries)
    {
      if outcome.Resolved? {
        status := Success;
        entries := defaults;
      } else {
        status := Error;
      }
    }
  }
}
