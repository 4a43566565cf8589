/**
 * The project forms: "Create Project" and the per-row "Edit" dialog. Both
 * require a name and a description; creation assigns the id and the
 * creation time on the client.
 */
module ProjectForm {
  import opened Optional
  import opened Domain
  import opened Sequences
  import Store

  /** The edit form's values (`""` for a blank or undefined field). */
  datatype Values = Values(name: string, description: string)

  /** The create form's values; its schema also admits an optional `id`. */
  datatype CreateValues = CreateValues(id: Option<string>, name: string, description: string)

  /** The schema both forms share on name and description. */
  predicate Valid(name: string, description: string)
  {
    name != "" && description != ""
  }

  /** The edit dialog first opens on the project's name and description (blank when it has none). */
  function EditDefaults(p: Project): (v: Values)
    ensures v.name == p.name
    ensures p.description.Some? ==> v.description == p.description.value
    ensures p.description.None? ==> v.description == ""
  {
    Values(p.name, p.description.GetOr(""))
  }

  /**
   * Submitting the edit dialog: name and description laid over the project
   * (`{ ...project, ...data }`), or nothing when the schema rejects.
   */
  function EditSubmit(p: Project, v: Values): (r: Option<Project>)
    ensures r.Some? <==> Valid(v.name, v.description)
    ensures r.Some? ==> r.value.id == p.id && r.value.createdAt == p.createdAt
    ensures r.Some? ==> r.value.name == v.name && r.value.description == Some(v.description)
  {
    if !Valid(v.name, v.description) then None
    else Some(p.(name := v.name, description := Some(v.description)))
  }

  /**
   * Submitting the create form: a project under the freshly generated id,
   * created at `now`; any id in the form data is overridden.
   */
  function CreateSubmit(v: CreateValues, freshId: string, now: Timestamp): (r: Option<Project>)
    ensures r.Some? <==> Valid(v.name, v.description)
    ensures r.Some? ==> r.value.id == freshId && r.value.createdAt == now
    ensures r.Some? ==> r.value.name == v.name && r.value.description == Some(v.description)
  {
    if !Valid(v.name, v.description) then None
    else Some(Project(freshId, v.name, Some(v.description), now))
  }

  /**
   * Submitting the edit dialog untouched gives back the project itself,
   * provided it has a name and a non-empty description.
   */
  lemma EditUntouchedRoundTrip(p: Project)
    ensures EditSubmit(p, EditDefaults(p))
        == (if p.name != "" && p.description.Some? && p.description.value != "" then Some(p) else None)
  {
  }

  /** The id field of the create form has no effect on what is submitted. */
  lemma CreateIgnoresFormId(v: CreateValues, formId: Option<string>, freshId: string, now: Timestamp)
    ensures CreateSubmit(v.(id := formId), freshId, now) == CreateSubmit(v, freshId, now)
  {
  }

  /**
   * From edit dialog to store: on a store without duplicate project ids, a valid
   * edit of a listed project and a successful PUT replace that one entry,
   * keeping its id and creation time.
   */
  lemma EditReplacesThatProject(s: Store.State, i: nat, v: Values)
    requires DistinctKeys(s.projects, IdOfProject)
    requires i < |s.projects|
    requires Valid(v.name, v.description)
    ensures var u := EditSubmit(s.projects[i], v).value;
      && u.id == s.projects[i].id
      && u.createdAt == s.projects[i].createdAt
      && Store.UpdateProject(s, u, Store.Ok(())).projects == s.projects[i := u]
  {
    var u := EditSubmit(s.projects[i], v).value;
    var r := Store.UpdateProject(s, u, Store.Ok(()));
    forall j | 0 <= j < |s.projects| ensures r.projects[j] == s.projects[i := u][j] {
      if j != i {
        assert IdOfProject(s.projects[j]) != IdOfProject(s.projects[i]);
      }
    }
  }

  /**
   * From create form to store: when the server echoes the submitted project
   * and the generated id is new, the store gains it at the end and keeps its
   * ids distinct.
   */
  lemma CreateAppendsProject(s: Store.State, v: CreateValues, freshId: string, now: Timestamp)
    requires Store.Valid(s)
    requires Valid(v.name, v.description)
    requires forall i :: 0 <= i < |s.projects| ==> s.projects[i].id != freshId
    ensures var created := CreateSubmit(v, freshId, now).value;
      && Store.AddProject(s, Store.Ok(created)).projects == s.projects + [created]
      && Store.Valid(Store.AddProject(s, Store.Ok(created)))
  {
    Store.AddProjectValidIff(s, CreateSubmit(v, freshId, now).value);
  }
}
