/**
 * The client-side application store: two in-memory collections and the
 * operations that reconcile them with the REST backend. Each operation is a
 * state transition that takes the settled network call as a parameter:
 * `Ok(body)` for a 2xx response, `Err` for a transport failure or a non-2xx
 * status, which the store only logs.
 */
module Store {
  import opened Optional
  import opened Sequences
  import opened Domain

  datatype Outcome<+T> = Ok(value: T) | Err

  datatype State = State(projects: seq<Project>, invoices: seq<Invoice>)

  /** The store as the application starts: nothing fetched yet. */
  const Initial: State := State([], [])

  /** Both collections are free of duplicate ids (the backend assigns unique ids). */
  ghost predicate Valid(s: State)
  {
    DistinctKeys(s.projects, IdOfProject) && DistinctKeys(s.invoices, IdOfInvoice)
  }

  /** The test `inv.id === id` as a callback. */
  function InvoiceHasId(id: string): Invoice -> bool
  {
    (inv: Invoice) => inv.id == id
  }

  /** The test `inv.id !== id` as a callback. */
  function InvoiceLacksId(id: string): Invoice -> bool
  {
    (inv: Invoice) => inv.id != id
  }

  /** GET /projects: the response replaces the collection wholesale. */
  function FetchProjects(s: State, response: Outcome<seq<Project>>): (r: State)
    ensures r.invoices == s.invoices
    ensures response.Ok? ==> r.projects == response.value
    ensures response.Err? ==> r == s
  {
    match response
    case Err => s
    case Ok(data) => s.(projects := data)
  }

  /** GET /invoices: the response replaces the collection wholesale. */
  function FetchInvoices(s: State, response: Outcome<seq<Invoice>>): (r: State)
    ensures r.projects == s.projects
    ensures response.Ok? ==> r.invoices == response.value
    ensures response.Err? ==> r == s
  {
    match response
    case Err => s
    case Ok(data) => s.(invoices := data)
  }

  /** POST /projects: the record the server returns is appended. */
  function AddProject(s: State, response: Outcome<Project>): (r: State)
    ensures r.invoices == s.invoices
    ensures response.Ok? ==> |r.projects| == |s.projects| + 1
    ensures response.Ok? ==> r.projects[..|s.projects|] == s.projects
    ensures response.Ok? ==> r.projects[|s.projects|] == response.value
    ensures response.Err? ==> r == s
  {
    match response
    case Err => s
    case Ok(created) => s.(projects := s.projects + [created])
  }

  /** POST /invoices: the record the server returns, carrying its new id, is appended. */
  function AddInvoice(s: State, response: Outcome<Invoice>): (r: State)
    ensures r.projects == s.projects
    ensures response.Ok? ==> |r.invoices| == |s.invoices| + 1
    ensures response.Ok? ==> r.invoices[..|s.invoices|] == s.invoices
    ensures response.Ok? ==> r.invoices[|s.invoices|] == response.value
    ensures response.Err? ==> r == s
  {
    match response
    case Err => s
    case Ok(created) => s.(invoices := s.invoices + [created])
  }

  /**
   * PUT /invoices/{id}: on success every entry with the submitted id becomes
   * the submitted record; the response body is never read.
   */
  function UpdateInvoice(s: State, submitted: Invoice, response: Outcome<()>): (r: State)
    ensures r.projects == s.projects
    ensures |r.invoices| == |s.invoices|
    ensures response.Ok? ==> forall i :: 0 <= i < |s.invoices| && s.invoices[i].id == submitted.id ==> r.invoices[i] == submitted
    ensures forall i :: 0 <= i < |s.invoices| && s.invoices[i].id != submitted.id ==> r.invoices[i] == s.invoices[i]
    ensures response.Err? ==> r == s
  {
    match response
    case Err => s
    case Ok(_) => s.(invoices := ReplaceByKey(s.invoices, IdOfInvoice, submitted))
  }

  /**
   * PUT /projects/{id}: on success every entry with the submitted id becomes
   * the submitted record; the response body is never read.
   */
  function UpdateProject(s: State, submitted: Project, response: Outcome<()>): (r: State)
    ensures r.invoices == s.invoices
    ensures |r.projects| == |s.projects|
    ensures response.Ok? ==> forall i :: 0 <= i < |s.projects| && s.projects[i].id == submitted.id ==> r.projects[i] == submitted
    ensures forall i :: 0 <= i < |s.projects| && s.projects[i].id != submitted.id ==> r.projects[i] == s.projects[i]
    ensures response.Err? ==> r == s
  {
    match response
    case Err => s
    case Ok(_) => s.(projects := ReplaceByKey(s.projects, IdOfProject, submitted))
  }

  /** DELETE /invoices/{id}: on success every entry with that id is dropped, the rest kept in order. */
  function DeleteInvoice(s: State, id: string, response: Outcome<()>): (r: State)
    ensures r.projects == s.projects
    ensures response.Ok? ==> forall inv :: inv in r.invoices ==> inv.id != id
    ensures IsSubsequence(r.invoices, s.invoices)
    ensures forall inv :: inv in s.invoices && inv.id != id ==> multiset(r.invoices)[inv] == multiset(s.invoices)[inv]
    ensures response.Err? ==> r == s
  {
    match response
    case Err =>
      SubsequenceOfItself(s.invoices);
      s
    case Ok(_) => s.(invoices := Filter(s.invoices, InvoiceLacksId(id)))
  }

  /**
   * The PUT request `scheduleEmail` issues, if any: the first invoice with
   * the id, with only its `scheduledEmail` replaced. `None` means the id is
   * not in the store, and no request is made.
   */
  function ScheduleEmailRequest(s: State, invoiceId: string, settings: ScheduledEmail): (req: Option<Invoice>)
    ensures req.None? <==> forall i :: 0 <= i < |s.invoices| ==> s.invoices[i].id != invoiceId
    ensures req.Some? ==>
      exists i :: && 0 <= i < |s.invoices|
                  && s.invoices[i].id == invoiceId
                  && (forall j :: 0 <= j < i ==> s.invoices[j].id != invoiceId)
                  && req.value == s.invoices[i].(scheduledEmail := Some(settings))
  {
    match FirstIndex(s.invoices, InvoiceHasId(invoiceId))
    case None => None
    case Some(i) =>
      assert s.invoices[i].id == invoiceId;
      Some(s.invoices[i].(scheduledEmail := Some(settings)))
  }

  /** `scheduleEmail`: a local lookup, then `updateInvoice` with the merged record. */
  function ScheduleEmail(s: State, invoiceId: string, settings: ScheduledEmail, response: Outcome<()>): (r: State)
    ensures r.projects == s.projects
    ensures (forall i :: 0 <= i < |s.invoices| ==> s.invoices[i].id != invoiceId) ==> r == s
    ensures ScheduleEmailRequest(s, invoiceId, settings).Some? ==>
              r == UpdateInvoice(s, ScheduleEmailRequest(s, invoiceId, settings).value, response)
    ensures response.Err? ==> r == s
  {
    match ScheduleEmailRequest(s, invoiceId, settings)
    case None => s
    case Some(updated) => UpdateInvoice(s, updated, response)
  }

  /** Submitting the same invoice update twice leaves the invoices as one submission does. */
  lemma UpdateInvoiceIdempotent(s: State, submitted: Invoice)
    ensures UpdateInvoice(UpdateInvoice(s, submitted, Ok(())), submitted, Ok(())) == UpdateInvoice(s, submitted, Ok(()))
  {
    ReplaceByKeyIdempotent(s.invoices, IdOfInvoice, submitted);
  }

  /** Submitting the same project update twice leaves the projects as one submission does. */
  lemma UpdateProjectIdempotent(s: State, submitted: Project)
    ensures UpdateProject(UpdateProject(s, submitted, Ok(())), submitted, Ok(())) == UpdateProject(s, submitted, Ok(()))
  {
    ReplaceByKeyIdempotent(s.projects, IdOfProject, submitted);
  }

  /** Two successful updates of the same invoice, resolved in order: the second one is what remains. */
  lemma UpdateInvoiceLastWins(s: State, first: Invoice, second: Invoice)
    requires first.id == second.id
    ensures UpdateInvoice(UpdateInvoice(s, first, Ok(())), second, Ok(())) == UpdateInvoice(s, second, Ok(()))
  {
    ReplaceByKeyLastWins(s.invoices, IdOfInvoice, first, second);
  }

  /** Deleting the same id twice leaves the invoices as one deletion does. */
  lemma DeleteInvoiceIdempotent(s: State, id: string)
    ensures DeleteInvoice(DeleteInvoice(s, id, Ok(())), id, Ok(())) == DeleteInvoice(s, id, Ok(()))
  {
    FilterIdempotent(s.invoices, InvoiceLacksId(id));
  }

  /** Deleting an id the store does not hold changes nothing. */
  lemma DeleteAbsentInvoice(s: State, id: string)
    requires forall i :: 0 <= i < |s.invoices| ==> s.invoices[i].id != id
    ensures DeleteInvoice(s, id, Ok(())) == s
  {
    FilterKeepsAll(s.invoices, InvoiceLacksId(id));
  }

  /**
   * On a store without duplicate invoice ids, a successful `scheduleEmail` for a
   * present invoice changes that one entry, and in it only the schedule.
   */
  lemma ScheduleEmailOnValidStore(s: State, i: nat, settings: ScheduledEmail)
    requires DistinctKeys(s.invoices, IdOfInvoice)
    requires i < |s.invoices|
    ensures ScheduleEmail(s, s.invoices[i].id, settings, Ok(())).invoices
      == s.invoices[i := s.invoices[i].(scheduledEmail := Some(settings))]
  {
    var id := s.invoices[i].id;
    var req := ScheduleEmailRequest(s, id, settings);
    assert req.Some?;
    var k :| && 0 <= k < |s.invoices|
             && s.invoices[k].id == id
             && (forall j :: 0 <= j < k ==> s.invoices[j].id != id)
             && req.value == s.invoices[k].(scheduledEmail := Some(settings));
    assert k == i;
    var r := ScheduleEmail(s, id, settings, Ok(()));
    var expected := s.invoices[i := s.invoices[i].(scheduledEmail := Some(settings))];
    forall j | 0 <= j < |s.invoices| ensures r.invoices[j] == expected[j] {
      if j != i {
        assert IdOfInvoice(s.invoices[j]) != IdOfInvoice(s.invoices[i]);
      }
    }
  }

  /** Updates, deletions and email scheduling never introduce a duplicate id. */
  lemma EditsPreserveValid(s: State, inv: Invoice, p: Project, id: string, settings: ScheduledEmail, response: Outcome<()>)
    requires Valid(s)
    ensures Valid(UpdateInvoice(s, inv, response))
    ensures Valid(UpdateProject(s, p, response))
    ensures Valid(DeleteInvoice(s, id, response))
    ensures Valid(ScheduleEmail(s, id, settings, response))
  {
    ReplaceByKeyKeepsDistinctKeys(s.invoices, IdOfInvoice, inv);
    ReplaceByKeyKeepsDistinctKeys(s.projects, IdOfProject, p);
    SubsequenceKeepsDistinctKeys(DeleteInvoice(s, id, response).invoices, s.invoices, IdOfInvoice);
    var req := ScheduleEmailRequest(s, id, settings);
    if req.Some? {
      ReplaceByKeyKeepsDistinctKeys(s.invoices, IdOfInvoice, req.value);
    }
  }

  /** A fetch keeps the store free of duplicates if the response is. */
  lemma FetchPreservesValid(s: State, projects: Outcome<seq<Project>>, invoices: Outcome<seq<Invoice>>)
    requires Valid(s)
    requires projects.Ok? ==> DistinctKeys(projects.value, IdOfProject)
    requires invoices.Ok? ==> DistinctKeys(invoices.value, IdOfInvoice)
    ensures Valid(FetchProjects(s, projects))
    ensures Valid(FetchInvoices(s, invoices))
  {
  }

  /** Conversely, a store left free of duplicates by a successful fetch was sent a duplicate-free response. */
  lemma FetchValidOnlyIfResponseDistinct(s: State, projects: seq<Project>, invoices: seq<Invoice>)
    ensures Valid(FetchProjects(s, Ok(projects))) ==> DistinctKeys(projects, IdOfProject)
    ensures Valid(FetchInvoices(s, Ok(invoices))) ==> DistinctKeys(invoices, IdOfInvoice)
  {
  }

  /** The store starts free of duplicates. */
  lemma InitialValid()
    ensures Valid(Initial)
  {
  }

  /** Appending a created invoice keeps ids distinct if and only if the server's id is new. */
  lemma AddInvoiceValidIff(s: State, created: Invoice)
    requires Valid(s)
    ensures Valid(AddInvoice(s, Ok(created))) <==> forall i :: 0 <= i < |s.invoices| ==> s.invoices[i].id != created.id
  {
    var r := AddInvoice(s, Ok(created));
    var n := |s.invoices|;
    if forall i :: 0 <= i < n ==> s.invoices[i].id != created.id {
      forall i, j | 0 <= i < j < |r.invoices| ensures IdOfInvoice(r.invoices[i]) != IdOfInvoice(r.invoices[j]) {
        if j < n {
          assert r.invoices[i] == s.invoices[i] && r.invoices[j] == s.invoices[j];
        } else {
          assert r.invoices[i] == s.invoices[i];
        }
      }
    } else {
      var i :| 0 <= i < n && s.invoices[i].id == created.id;
      assert r.invoices[i] == s.invoices[i];
      assert IdOfInvoice(r.invoices[i]) == IdOfInvoice(r.invoices[n]);
    }
  }

  /** Appending a created project keeps ids distinct if and only if its id is new. */
  lemma AddProjectValidIff(s: State, created: Project)
    requires Valid(s)
    ensures Valid(AddProject(s, Ok(created))) <==> forall i :: 0 <= i < |s.projects| ==> s.projects[i].id != created.id
  {
    var r := AddProject(s, Ok(created));
    var n := |s.projects|;
    if forall i :: 0 <= i < n ==> s.projects[i].id != created.id {
      forall i, j | 0 <= i < j < |r.projects| ensures IdOfProject(r.projects[i]) != IdOfProject(r.projects[j]) {
        if j < n {
          assert r.projects[i] == s.projects[i] && r.projects[j] == s.projects[j];
        } else {
          assert r.projects[i] == s.projects[i];
        }
      }
    } else {
      var i :| 0 <= i < n && s.projects[i].id == created.id;
      assert r.projects[i] == s.projects[i];
      assert IdOfProject(r.projects[i]) == IdOfProject(r.projects[n]);
    }
  }
}
