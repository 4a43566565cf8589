/**
 * The invoice table's local filter: a day, a project (with the `"all"`
 * sentinel) and a case-insensitive search over the project name and the
 * invoice id, plus the condition for the "No data found" caption.
 */
module InvoiceList {
  import opened Optional
  import opened Sequences
  import opened Text
  import opened Domain

  /** The filter state; `project` is `""` until a project is chosen, `search` is `""` when blank. */
  datatype ListFilter = ListFilter(date: Option<Timestamp>, project: string, search: string)

  /** The filter the list starts with. */
  const NoFilter: ListFilter := ListFilter(None, "", "")

  function ProjectHasId(id: string): Project -> bool
  {
    (p: Project) => p.id == id
  }

  /** The name of the first project with the given id, or `""` when there is none. */
  function ProjectName(projects: seq<Project>, projectId: string): (name: string)
    ensures (forall i :: 0 <= i < |projects| ==> projects[i].id != projectId) ==> name == ""
    ensures forall i ::
              (&& 0 <= i < |projects|
               && projects[i].id == projectId
               && (forall j :: 0 <= j < i ==> projects[j].id != projectId))
              ==> name == projects[i].name
  {
    match FirstIndex(projects, ProjectHasId(projectId))
    case None => ""
    case Some(i) => projects[i].name
  }

  /** The day test: with a day chosen, both dates must have the same day key. */
  predicate MatchesDate(f: ListFilter, dayKey: Timestamp -> string, inv: Invoice)
  {
    f.date.None? || dayKey(inv.date) == dayKey(f.date.value)
  }

  /** The project test: `"all"` and `""` accept every invoice. */
  predicate MatchesProject(f: ListFilter, inv: Invoice)
  {
    f.project == "all" || f.project == "" || inv.projectId == f.project
  }

  /** The search test over the invoice's project name and its own id. */
  predicate MatchesSearch(f: ListFilter, projectName: string, inv: Invoice)
  {
    || f.search == ""
    || Includes(Lower(projectName), Lower(f.search))
    || Includes(Lower(inv.id), Lower(f.search))
  }

  /** An invoice stays in the table when it passes all three tests. */
  predicate Shown(projects: seq<Project>, f: ListFilter, dayKey: Timestamp -> string, inv: Invoice)
  {
    && MatchesDate(f, dayKey, inv)
    && MatchesProject(f, inv)
    && MatchesSearch(f, ProjectName(projects, inv.projectId), inv)
  }

  function ShownTest(projects: seq<Project>, f: ListFilter, dayKey: Timestamp -> string): Invoice -> bool
  {
    (inv: Invoice) => Shown(projects, f, dayKey, inv)
  }

  /** The invoices the table renders, in store order. */
  function Filtered(invoices: seq<Invoice>, projects: seq<Project>, f: ListFilter, dayKey: Timestamp -> string): (r: seq<Invoice>)
    ensures IsSubsequence(r, invoices)
    ensures forall inv :: inv in r ==> Shown(projects, f, dayKey, inv)
    ensures forall inv :: inv in invoices && Shown(projects, f, dayKey, inv) ==> multiset(r)[inv] == multiset(invoices)[inv]
  {
    Filter(invoices, ShownTest(projects, f, dayKey))
  }

  /** The caption is shown when the store holds no invoice or none passes the filter. */
  predicate NoDataCaption(invoices: seq<Invoice>, filtered: seq<Invoice>)
  {
    |invoices| == 0 || |filtered| == 0
  }

  /** With no day, no project and no search, the table shows every invoice, in order. */
  lemma NoFilterShowsAll(invoices: seq<Invoice>, projects: seq<Project>, dayKey: Timestamp -> string)
    ensures Filtered(invoices, projects, NoFilter, dayKey) == invoices
  {
    FilterKeepsAll(invoices, ShownTest(projects, NoFilter, dayKey));
  }

  /** Choosing "All Projects" filters exactly as choosing no project. */
  lemma AllProjectsIsNoProjectFilter(invoices: seq<Invoice>, projects: seq<Project>, f: ListFilter, dayKey: Timestamp -> string)
    ensures Filtered(invoices, projects, f.(project := "all"), dayKey) == Filtered(invoices, projects, f.(project := ""), dayKey)
  {
    FilterCongruent(invoices, ShownTest(projects, f.(project := "all"), dayKey), ShownTest(projects, f.(project := ""), dayKey));
  }

  /** Any other chosen project keeps exactly the invoices of that project. */
  lemma ProjectFilterKeepsThatProject(invoices: seq<Invoice>, projects: seq<Project>, project: string, dayKey: Timestamp -> string, inv: Invoice)
    requires project != "" && project != "all"
    ensures inv in Filtered(invoices, projects, ListFilter(None, project, ""), dayKey)
        <==> inv in invoices && inv.projectId == project
  {
    FilterMembers(invoices, ShownTest(projects, ListFilter(None, project, ""), dayKey), inv);
  }

  /** A chosen day keeps exactly the invoices whose day key is that day's. */
  lemma DateFilterKeepsThatDay(invoices: seq<Invoice>, projects: seq<Project>, day: Timestamp, dayKey: Timestamp -> string, inv: Invoice)
    ensures inv in Filtered(invoices, projects, ListFilter(Some(day), "", ""), dayKey)
        <==> inv in invoices && dayKey(inv.date) == dayKey(day)
  {
    FilterMembers(invoices, ShownTest(projects, ListFilter(Some(day), "", ""), dayKey), inv);
  }

  /**
   * A non-blank search keeps an invoice exactly when the lower-cased search
   * occurs in the lower-cased project name or the lower-cased invoice id.
   */
  lemma SearchKeepsMatches(invoices: seq<Invoice>, projects: seq<Project>, search: string, dayKey: Timestamp -> string, inv: Invoice)
    requires search != ""
    ensures inv in Filtered(invoices, projects, ListFilter(None, "", search), dayKey)
        <==> && inv in invoices
             && (|| IsSubstring(Lower(search), Lower(ProjectName(projects, inv.projectId)))
                 || IsSubstring(Lower(search), Lower(inv.id)))
  {
    FilterMembers(invoices, ShownTest(projects, ListFilter(None, "", search), dayKey), inv);
  }

  /** An invoice of an unknown project is searched with an empty name: only its id can match. */
  lemma UnknownProjectMatchesOnlyById(projects: seq<Project>, f: ListFilter, inv: Invoice)
    requires forall i :: 0 <= i < |projects| ==> projects[i].id != inv.projectId
    requires f.search != ""
    ensures MatchesSearch(f, ProjectName(projects, inv.projectId), inv) <==> IsSubstring(Lower(f.search), Lower(inv.id))
  {
    EmptyIncludes(Lower(f.search));
  }

  /** Searches that differ only in the case of ASCII letters give the same table. */
  lemma SearchIgnoresCase(invoices: seq<Invoice>, projects: seq<Project>, f: ListFilter, other: string, dayKey: Timestamp -> string)
    requires Lower(other) == Lower(f.search)
    ensures Filtered(invoices, projects, f.(search := other), dayKey) == Filtered(invoices, projects, f, dayKey)
  {
    assert other == "" <==> f.search == "" by {
      assert |other| == |Lower(other)| && |f.search| == |Lower(f.search)|;
    }
    FilterCongruent(invoices, ShownTest(projects, f.(search := other), dayKey), ShownTest(projects, f, dayKey));
  }

  /** The caption shows exactly when no invoice of the store passes the filter. */
  lemma NoDataCaptionIff(invoices: seq<Invoice>, projects: seq<Project>, f: ListFilter, dayKey: Timestamp -> string)
    ensures NoDataCaption(invoices, Filtered(invoices, projects, f, dayKey))
        <==> forall i :: 0 <= i < |invoices| ==> !Shown(projects, f, dayKey, invoices[i])
  {
    FilterEmptyIff(invoices, ShownTest(projects, f, dayKey));
  }
}
