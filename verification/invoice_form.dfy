/**
 * The invoice forms: "Create Invoice" and the per-row "Edit" dialog share
 * one schema; they differ in their defaults and in the record they submit.
 */
module InvoiceForm {
  import opened Optional
  import opened Domain
  import opened Sequences
  import Store

  /** The form's values; `status` is the raw value the select holds. */
  datatype Values = Values(projectId: string, amount: real, date: Option<Timestamp>, status: string)

  /** The schema: a chosen project, a positive amount, a date and a known status. */
  predicate Valid(v: Values)
  {
    && v.projectId != ""
    && v.amount > 0.0
    && v.date.Some?
    && ParseStatus(v.status).Some?
  }

  /** The edit dialog first opens on the invoice's own fields (its defaults, read once at mount). */
  function EditDefaults(inv: Invoice): (v: Values)
    ensures v.projectId == inv.projectId && v.amount == inv.amount && v.date == Some(inv.date)
    ensures ParseStatus(v.status) == Some(inv.status)
  {
    StatusValues();
    Values(inv.projectId, inv.amount, Some(inv.date), StatusName(inv.status))
  }

  /**
   * Submitting the edit dialog: the form's four fields laid over the
   * invoice (`{ ...invoice, ...data }`), or nothing when the schema rejects.
   */
  function EditSubmit(inv: Invoice, v: Values): (r: Option<Invoice>)
    ensures r.Some? <==> Valid(v)
    ensures r.Some? ==> r.value.id == inv.id && r.value.scheduledEmail == inv.scheduledEmail
    ensures r.Some? ==> && r.value.projectId == v.projectId
                        && r.value.amount == v.amount
                        && Some(r.value.date) == v.date
                        && StatusName(r.value.status) == v.status
  {
    if !Valid(v) then None
    else Some(inv.(projectId := v.projectId, amount := v.amount, date := v.date.value,
                   status := ParseStatus(v.status).value))
  }

  /** The create form starts with no project, a zero amount, the date at mount and Pending. */
  function CreateDefaults(now: Timestamp): (v: Values)
    ensures v.projectId == "" && v.amount == 0.0 && v.date == Some(now)
    ensures ParseStatus(v.status) == Some(Pending)
  {
    Values("", 0.0, Some(now), StatusName(Pending))
  }

  /** Submitting the create form: an invoice without id, or nothing when the schema rejects. */
  function CreateSubmit(v: Values): (r: Option<NewInvoice>)
    ensures r.Some? <==> Valid(v)
    ensures r.Some? ==> && r.value.projectId == v.projectId
                        && r.value.amount == v.amount
                        && Some(r.value.date) == v.date
                        && StatusName(r.value.status) == v.status
                        && r.value.scheduledEmail.None?
  {
    if !Valid(v) then None
    else Some(NewInvoice(v.projectId, v.date.value, v.amount, ParseStatus(v.status).value, None))
  }

  /**
   * Submitting the edit dialog untouched gives back the invoice itself,
   * provided the invoice passes the schema.
   */
  lemma EditUntouchedRoundTrip(inv: Invoice)
    ensures EditSubmit(inv, EditDefaults(inv)) == (if inv.projectId != "" && inv.amount > 0.0 then Some(inv) else None)
  {
  }

  /** The create form cannot be submitted untouched; a project and a positive amount are what it lacks. */
  lemma CreateDefaultsNeedProjectAndAmount(now: Timestamp, projectId: string, amount: real)
    ensures CreateSubmit(CreateDefaults(now)).None?
    ensures CreateSubmit(CreateDefaults(now).(projectId := projectId, amount := amount)).Some?
        <==> projectId != "" && amount > 0.0
  {
  }

  /**
   * From edit dialog to store: on a store without duplicate invoice ids, a valid
   * edit of a listed invoice and a successful PUT replace that one entry,
   * keeping its id and its email schedule.
   */
  lemma EditReplacesThatInvoice(s: Store.State, i: nat, v: Values)
    requires DistinctKeys(s.invoices, IdOfInvoice)
    requires i < |s.invoices|
    requires Valid(v)
    ensures var u := EditSubmit(s.invoices[i], v).value;
      && u.id == s.invoices[i].id
      && u.scheduledEmail == s.invoices[i].scheduledEmail
      && Store.UpdateInvoice(s, u, Store.Ok(())).invoices == s.invoices[i := u]
  {
    var u := EditSubmit(s.invoices[i], v).value;
    var r := Store.UpdateInvoice(s, u, Store.Ok(()));
    forall j | 0 <= j < |s.invoices| ensures r.invoices[j] == s.invoices[i := u][j] {
      if j != i {
        assert IdOfInvoice(s.invoices[j]) != IdOfInvoice(s.invoices[i]);
      }
    }
  }

  /**
   * From create form to store: when the server stores the submitted invoice
   * under a new id, the store gains exactly that invoice at the end.
   */
  lemma CreateAppendsInvoice(s: Store.State, v: Values, id: string)
    requires Valid(v)
    ensures var created := CreateSubmit(v).value.WithId(id);
      && Store.AddInvoice(s, Store.Ok(created)).invoices == s.invoices + [created]
      && created.id == id && created.projectId == v.projectId && created.amount == v.amount
  {
  }
}
