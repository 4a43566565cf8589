/**
 * The "Schedule Email" dialog of an invoice row: its validation schema,
 * its default values, and the settings it hands to the store's
 * `scheduleEmail` on submit.
 */
module ScheduleEmailForm {
  import opened Optional
  import opened Domain
  import opened Sequences
  import Store

  /**
   * The form's values. A blank or untouched text field is `""`;
   * `frequency` is the raw value the select holds.
   */
  datatype Values = Values(
    recipientEmail: string,
    subject: string,
    body: string,
    frequency: string,
    nextSendDate: Option<Timestamp>)

  /** The call `onSubmit` makes: `scheduleEmail(invoiceId, emailSettings)`. */
  datatype ScheduleCall = ScheduleCall(invoiceId: string, settings: ScheduledEmail)

  /** The dialog first opens with only the frequency preset, to Monthly. */
  const Defaults: Values := Values("", "", "", FrequencyName(Monthly), None)

  /**
   * The schema. `isEmail` stands for the email pattern of the validation
   * library. A send date is required for the Custom frequency only.
   */
  predicate Valid(v: Values, isEmail: string -> bool)
  {
    && v.recipientEmail != "" && isEmail(v.recipientEmail)
    && v.subject != ""
    && v.body != ""
    && ParseFrequency(v.frequency).Some?
    && (v.frequency == FrequencyName(Custom) ==> v.nextSendDate.Some?)
  }

  /**
   * Submitting the dialog of invoice `invoiceId`: nothing when the schema
   * rejects the values, otherwise the settings copied field by field.
   */
  function Submit(invoiceId: string, v: Values, isEmail: string -> bool): (call: Option<ScheduleCall>)
    ensures call.Some? <==> Valid(v, isEmail)
    ensures call.Some? ==> call.value.invoiceId == invoiceId
    ensures call.Some? ==> && call.value.settings.recipientEmail == v.recipientEmail
                           && call.value.settings.subject == v.subject
                           && call.value.settings.body == v.body
                           && FrequencyName(call.value.settings.frequency) == v.frequency
                           && call.value.settings.nextSendDate == v.nextSendDate
  {
    if !Valid(v, isEmail) then None
    else
      var frequency := ParseFrequency(v.frequency).value;
      Some(ScheduleCall(invoiceId, ScheduledEmail(v.recipientEmail, v.subject, v.body, frequency, v.nextSendDate)))
  }

  /** At its first opening the dialog is on Monthly and cannot be submitted untouched. */
  lemma DefaultsAreMonthlyAndIncomplete(invoiceId: string, isEmail: string -> bool)
    ensures ParseFrequency(Defaults.frequency) == Some(Monthly)
    ensures Submit(invoiceId, Defaults, isEmail).None?
  {
  }

  /** Submitted settings satisfy the record's rules: non-empty texts, a date whenever the frequency is Custom. */
  lemma SubmittedSettingsAreWellFormed(invoiceId: string, v: Values, isEmail: string -> bool)
    requires Submit(invoiceId, v, isEmail).Some?
    ensures var e := Submit(invoiceId, v, isEmail).value.settings;
      && isEmail(e.recipientEmail)
      && e.subject != "" && e.body != ""
      && (e.frequency == Custom ==> e.nextSendDate.Some?)
  {
  }

  /**
   * Outside Custom the send date is neither required nor forbidden: the
   * schema's verdict does not depend on it.
   */
  lemma SendDateOptionalUnlessCustom(v: Values, date: Option<Timestamp>, isEmail: string -> bool)
    requires ParseFrequency(v.frequency).Some? && ParseFrequency(v.frequency) != Some(Custom)
    ensures Valid(v.(nextSendDate := date), isEmail) <==> Valid(v, isEmail)
  {
  }

  /** With Custom chosen, a form without a send date is rejected. */
  lemma CustomRequiresSendDate(invoiceId: string, v: Values, isEmail: string -> bool)
    requires v.frequency == FrequencyName(Custom) && v.nextSendDate.None?
    ensures Submit(invoiceId, v, isEmail).None?
  {
  }

  /**
   * From dialog to store: on a store without duplicate invoice ids, submitting valid
   * values for a listed invoice and a successful PUT give that invoice, and
   * only it, the submitted schedule.
   */
  lemma SubmitSchedulesThatInvoice(s: Store.State, i: nat, v: Values, isEmail: string -> bool)
    requires DistinctKeys(s.invoices, IdOfInvoice)
    requires i < |s.invoices|
    requires Valid(v, isEmail)
    ensures var call := Submit(s.invoices[i].id, v, isEmail).value;
      Store.ScheduleEmail(s, call.invoiceId, call.settings, Store.Ok(())).invoices
        == s.invoices[i := s.invoices[i].(scheduledEmail := Some(call.settings))]
  {
    var call := Submit(s.invoices[i].id, v, isEmail).value;
    Store.ScheduleEmailOnValidStore(s, i, call.settings);
  }
}
