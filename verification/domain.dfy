/**
 * The records the application manages: projects, invoices and the email
 * schedule embedded in an invoice, with the two closed enumerations whose
 * runtime values are their own names.
 */
module Domain {
  import opened Optional

  /** A point in time, in milliseconds (a JavaScript `Date`). */
  type Timestamp = int

  datatype InvoiceStatus = Pending | Paid | Cancelled

  datatype EmailFrequency = Daily | Weekly | Monthly | Custom

  datatype Project = Project(
    id: string,
    name: string,
    description: Option<string>,
    createdAt: Timestamp)

  datatype ScheduledEmail = ScheduledEmail(
    recipientEmail: string,
    subject: string,
    body: string,
    frequency: EmailFrequency,
    nextSendDate: Option<Timestamp>)

  datatype Invoice = Invoice(
    id: string,
    projectId: string,
    date: Timestamp,
    amount: real,
    status: InvoiceStatus,
    scheduledEmail: Option<ScheduledEmail>)

  /** An invoice before the server has given it an id (`Omit<IInvoice, "id">`). */
  datatype NewInvoice = NewInvoice(
    projectId: string,
    date: Timestamp,
    amount: real,
    status: InvoiceStatus,
    scheduledEmail: Option<ScheduledEmail>)
  {
    /** The record the server creates from this one under the id it chose. */
    function WithId(id: string): (inv: Invoice)
      ensures inv.id == id
      ensures inv.projectId == projectId && inv.date == date && inv.amount == amount
      ensures inv.status == status && inv.scheduledEmail == scheduledEmail
    {
      Invoice(id, projectId, date, amount, status, scheduledEmail)
    }
  }

  function IdOfProject(p: Project): string { p.id }

  function IdOfInvoice(inv: Invoice): string { inv.id }

  /** The string value of a status (`InvoiceStatus.Paid === "Paid"`). */
  function StatusName(s: InvoiceStatus): string
  {
    match s
    case Pending => "Pending"
    case Paid => "Paid"
    case Cancelled => "Cancelled"
  }

  /** `Object.values(InvoiceStatus)`, in declaration order. */
  const AllStatuses: seq<InvoiceStatus> := [Pending, Paid, Cancelled]

  /** The status whose value is `name`, if any: yup's `oneOf(Object.values(InvoiceStatus))`. */
  function ParseStatus(name: string): (r: Option<InvoiceStatus>)
    ensures r.Some? ==> StatusName(r.value) == name
    ensures r.None? ==> forall s :: StatusName(s) != name
  {
    if name == "Pending" then Some(Pending)
    else if name == "Paid" then Some(Paid)
    else if name == "Cancelled" then Some(Cancelled)
    else None
  }

  /** The string value of a frequency (`EmailFrequency.Custom === "Custom"`). */
  function FrequencyName(f: EmailFrequency): string
  {
    match f
    case Daily => "Daily"
    case Weekly => "Weekly"
    case Monthly => "Monthly"
    case Custom => "Custom"
  }

  /** `Object.values(EmailFrequency)`, in declaration order. */
  const AllFrequencies: seq<EmailFrequency> := [Daily, Weekly, Monthly, Custom]

  /** The frequency whose value is `name`, if any: yup's `oneOf(Object.values(EmailFrequency))`. */
  function ParseFrequency(name: string): (r: Option<EmailFrequency>)
    ensures r.Some? ==> FrequencyName(r.value) == name
    ensures r.None? ==> forall f :: FrequencyName(f) != name
  {
    if name == "Daily" then Some(Daily)
    else if name == "Weekly" then Some(Weekly)
    else if name == "Monthly" then Some(Monthly)
    else if name == "Custom" then Some(Custom)
    else None
  }

  /** The status enumeration has exactly three distinct values, and parsing inverts naming. */
  lemma StatusValues()
    ensures |AllStatuses| == 3
    ensures forall s: InvoiceStatus :: s in AllStatuses
    ensures forall i, j :: 0 <= i < j < |AllStatuses| ==> StatusName(AllStatuses[i]) != StatusName(AllStatuses[j])
    ensures forall s :: ParseStatus(StatusName(s)) == Some(s)
  {
    forall s: InvoiceStatus ensures s in AllStatuses {
      match s
      case Pending => assert AllStatuses[0] == s;
      case Paid => assert AllStatuses[1] == s;
      case Cancelled => assert AllStatuses[2] == s;
    }
  }

  /** The frequency enumeration has exactly four distinct values, and parsing inverts naming. */
  lemma FrequencyValues()
    ensures |AllFrequencies| == 4
    ensures forall f: EmailFrequency :: f in AllFrequencies
    ensures forall i, j :: 0 <= i < j < |AllFrequencies| ==> FrequencyName(AllFrequencies[i]) != FrequencyName(AllFrequencies[j])
    ensures forall f :: ParseFrequency(FrequencyName(f)) == Some(f)
  {
    forall f: EmailFrequency ensures f in AllFrequencies {
      match f
      case Daily => assert AllFrequencies[0] == f;
      case Weekly => assert AllFrequencies[1] == f;
      case Monthly => assert AllFrequencies[2] == f;
      case Custom => assert AllFrequencies[3] == f;
    }
  }
}
