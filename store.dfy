/**
 * The mutating handlers over the in-memory store: createProject, updateProject,
 * createSkill, submitContactForm, updateProfessionalInfo and seedData
 * (server/src/handlers/<name>.ts).
 *
 * `Store` holds the five tables and the five serial sequences. Each method
 * changes only the fields its `modifies` clause names, keeps `Valid()` and ties
 * the new state to the old one through the `Db` functions of module Tables, the
 * merges of module Merge and the seed of module Seed. Calls are sequential: the
 * read-then-write of createSkill is not interleaved with anything.
 */
module Store {
  import opened Common
  import opened Validation
  import opened Tables
  import opened Merge
  import opened Seed

  /** The errors the handlers throw. */
  datatype Error =
    | ProjectNotFound(id: int)          // "Project with ID <id> not found"
    | CategoryNotFound(categoryId: int) // "Skill category with id <n> does not exist"
    | NoProfessionalInfoToUpdate        // "No professional info record found to update"

  /** updateProject's `.set(updateData)`: each field the input carries (`!== undefined`)
      is written onto the row, one conditional assignment per field. */
  method SetSuppliedFields(p: Project, input: UpdateProjectInput) returns (row: Project)
    ensures row == MergeProject(p, input)
  {
    row := p;
    if input.title.Some? {
      row := row.(title := input.title.value);
    }
    if input.description.Some? {
      row := row.(description := input.description.value);
    }
    if input.technologies.Some? {
      row := row.(technologies := input.technologies.value);
    }
    assert row == p.(title := input.title.GetOr(p.title), description := input.description.GetOr(p.description),
      technologies := input.technologies.GetOr(p.technologies));
    if input.demoUrl.Some? {
      row := row.(demoUrl := input.demoUrl.value);
    }
    if input.githubUrl.Some? {
      row := row.(githubUrl := input.githubUrl.value);
    }
    if input.npmUrl.Some? {
      row := row.(npmUrl := input.npmUrl.value);
    }
    assert row == MergeProject(p, input.(slidesUrl := None, imageUrl := None, displayOrder := None));
    if input.slidesUrl.Some? {
      row := row.(slidesUrl := input.slidesUrl.value);
    }
    if input.imageUrl.Some? {
      row := row.(imageUrl := input.imageUrl.value);
    }
    if input.displayOrder.Some? {
      row := row.(displayOrder := input.displayOrder.value);
    }
  }

  /** updateProfessionalInfo's `.set(updateData)`: `updated_at` is always now, and each
      field the input carries is written, one conditional assignment per field. */
  method SetSuppliedInfoFields(p: ProfessionalInfo, input: UpdateProfessionalInfoInput, now: int)
    returns (row: ProfessionalInfo)
    ensures row == MergeInfo(p, input, now)
  {
    row := p.(updatedAt := now);
    if input.fullName.Some? {
      row := row.(fullName := input.fullName.value);
    }
    if input.title.Some? {
      row := row.(title := input.title.value);
    }
    if input.bio.Some? {
      row := row.(bio := input.bio.value);
    }
    if input.location.Some? {
      row := row.(location := input.location.value);
    }
    assert row == MergeInfo(p, input.(yearsExperience := None, currentPosition := None, currentCompany := None,
      teamSize := None, cvUrl := None), now);
    if input.yearsExperience.Some? {
      row := row.(yearsExperience := input.yearsExperience.value);
    }
    if input.currentPosition.Some? {
      row := row.(currentPosition := input.currentPosition.value);
    }
    if input.currentCompany.Some? {
      row := row.(currentCompany := input.currentCompany.value);
    }
    if input.teamSize.Some? {
      row := row.(teamSize := input.teamSize.value);
    }
    if input.cvUrl.Some? {
      row := row.(cvUrl := input.cvUrl.value);
    }
  }

  class Store {
    var projects: seq<Project>
    var contactForms: seq<ContactForm>
    var categories: seq<SkillCategory>
    var skills: seq<Skill>
    var professionalInfo: seq<ProfessionalInfo>
    var nextProjectId: int
    var nextContactFormId: int
    var nextCategoryId: int
    var nextSkillId: int
    var nextProfessionalInfoId: int

    /** The whole store as a value. */
    function Snapshot(): Db
      reads this
    {
      Db(projects, contactForms, categories, skills, professionalInfo,
        nextProjectId, nextContactFormId, nextCategoryId, nextSkillId, nextProfessionalInfoId)
    }

    /** Serial primary keys in every table. */
    ghost predicate Valid()
      reads this
    {
      Snapshot().Valid()
    }

    /** A new, empty database. */
    constructor ()
      ensures Valid() && Snapshot() == EmptyDb
    {
      projects, contactForms, categories, skills, professionalInfo := [], [], [], [], [];
      nextProjectId, nextContactFormId, nextCategoryId, nextSkillId, nextProfessionalInfoId := 1, 1, 1, 1, 1;
    }

    // ---------------------------------------------------------- projects

    /** createProject: insert the input's nine fields and return the stored row. */
    method CreateProject(input: CreateProjectInput, now: int) returns (p: Project)
      requires Valid()
      modifies this`projects, this`nextProjectId
      ensures Valid()
      ensures Snapshot() == old(Snapshot()).InsertProject(input, now)
      ensures projects == old(projects) + [p]
      ensures p == ProjectRow(old(nextProjectId), now, input)
      ensures forall q :: q in old(projects) ==> q.id != p.id
    {
      InsertProjectSpec(Snapshot(), input, now);
      p := ProjectRow(nextProjectId, now, input);
      projects := projects + [p];
      nextProjectId := nextProjectId + 1;
    }

    /** updateProject: write the supplied fields onto the row whose id matches and return
        it, or fail when no row matches. An update that supplies no field besides `id`
        changes nothing; what it returns is left open. */
    method UpdateProject(input: UpdateProjectInput) returns (r: Result<Project, Error>)
      requires Valid()
      modifies this`projects
      ensures Valid()
      ensures match IndexOfId(old(projects), ProjectId, input.id)
        case None => projects == old(projects)
        case Some(k) => projects == old(projects)[k := MergeProject(old(projects)[k], input)]
      ensures HasProjectChanges(input) ==> match IndexOfId(old(projects), ProjectId, input.id)
        case None => r == Failure(ProjectNotFound(input.id))
        case Some(k) => r == Success(projects[k])
    {
      // `where id = input.id`: ids are unique, so at most one row matches
      var found := IndexOfId(projects, ProjectId, input.id);
      if found.None? {
        return Failure(ProjectNotFound(input.id));
      }
      var k := found.value;
      var row := SetSuppliedFields(projects[k], input);
      SerialReplace(projects, ProjectId, nextProjectId, k, row);
      projects := projects[k := row];
      r := Success(row);
    }

    // ------------------------------------------------------------ skills

    /** Insert a skill row as given, with no check on its category (the seed does this). */
    method InsertSkill(v: CreateSkillInput, now: int) returns (s: Skill)
      requires Valid()
      modifies this`skills, this`nextSkillId
      ensures Valid()
      ensures Snapshot() == old(Snapshot()).InsertSkill(v, now)
      ensures skills == old(skills) + [s] && s == SkillRow(old(nextSkillId), now, v)
    {
      InsertSkillSpec(Snapshot(), v, now);
      s := SkillRow(nextSkillId, now, v);
      skills := skills + [s];
      nextSkillId := nextSkillId + 1;
    }

    /** createSkill: refuse a category id no category has, otherwise insert. Categories
        are only read. */
    method CreateSkill(input: CreateSkillInput, now: int) returns (r: Result<Skill, Error>)
      requires Valid()
      modifies this`skills, this`nextSkillId
      ensures Valid()
      ensures r.Success? <==> old(Snapshot()).CategoryExists(input.categoryId)
      ensures r.Failure? ==> r.error == CategoryNotFound(input.categoryId) && Snapshot() == old(Snapshot())
      ensures r.Success? ==> Snapshot() == old(Snapshot()).InsertSkill(input, now)
      ensures r.Success? ==> skills == old(skills) + [r.value] && r.value.proficiencyLevel == input.proficiencyLevel
      ensures old(Snapshot()).ReferencesIntact() ==> Snapshot().ReferencesIntact()
    {
      var existing := SelectById(categories, CategoryId, input.categoryId);
      if |existing| == 0 {
        return Failure(CategoryNotFound(input.categoryId));
      }
      assert existing[0] in categories;
      ghost var before := Snapshot();
      var s := InsertSkill(input, now);
      assert forall t :: t in skills ==> t in before.skills || t == s;
      r := Success(s);
    }

    // ----------------------------------------------------- contact forms

    /** submitContactForm: append the form with `replied = false`; every call adds a row. */
    method SubmitContactForm(input: CreateContactFormInput, now: int) returns (f: ContactForm)
      requires Valid()
      modifies this`contactForms, this`nextContactFormId
      ensures Valid()
      ensures Snapshot() == old(Snapshot()).InsertContactForm(input, now)
      ensures contactForms == old(contactForms) + [f]
      ensures !f.replied && f == ContactFormRow(old(nextContactFormId), now, input)
    {
      InsertContactFormSpec(Snapshot(), input, now);
      f := ContactFormRow(nextContactFormId, now, input);
      contactForms := contactForms + [f];
      nextContactFormId := nextContactFormId + 1;
    }

    // -------------------------------------------------- professional info

    /** Insert a professional-info row (the seed does this; no handler does). */
    method InsertProfessionalInfo(v: NewProfessionalInfo, now: int) returns (i: ProfessionalInfo)
      requires Valid()
      modifies this`professionalInfo, this`nextProfessionalInfoId
      ensures Valid()
      ensures Snapshot() == old(Snapshot()).InsertProfessionalInfo(v, now)
      ensures professionalInfo == old(professionalInfo) + [i]
      ensures i == ProfessionalInfoRow(old(nextProfessionalInfoId), now, v)
    {
      i := ProfessionalInfoRow(nextProfessionalInfoId, now, v);
      SerialAppend(professionalInfo, ProfessionalInfoId, nextProfessionalInfoId, i);
      professionalInfo := professionalInfo + [i];
      nextProfessionalInfoId := nextProfessionalInfoId + 1;
    }

    /** updateProfessionalInfo: fail on an empty table; otherwise write `updated_at` and
        the supplied fields onto the first stored row and return it. */
    method UpdateProfessionalInfo(input: UpdateProfessionalInfoInput, now: int)
      returns (r: Result<ProfessionalInfo, Error>)
      requires Valid()
      modifies this`professionalInfo
      ensures Valid()
      ensures old(professionalInfo) == [] ==>
        r == Failure(NoProfessionalInfoToUpdate) && professionalInfo == []
      ensures old(professionalInfo) != [] ==>
        && professionalInfo == old(professionalInfo)[0 := MergeInfo(old(professionalInfo)[0], input, now)]
        && r == Success(professionalInfo[0])
    {
      if |professionalInfo| == 0 {
        return Failure(NoProfessionalInfoToUpdate);
      }
      // the first row of an unordered select, then `where id = recordId`
      var recordId := professionalInfo[0].id;
      IndexOfIdIsTheMatch(professionalInfo, ProfessionalInfoId, nextProfessionalInfoId, recordId, 0);
      var k := IndexOfId(professionalInfo, ProfessionalInfoId, recordId).value;
      var row := SetSuppliedInfoFields(professionalInfo[k], input, now);
      SerialReplace(professionalInfo, ProfessionalInfoId, nextProfessionalInfoId, k, row);
      professionalInfo := professionalInfo[k := row];
      r := Success(row);
    }

    // --------------------------------------------------------- categories

    /** Insert a skill category (the seed does this; no handler does). */
    method InsertCategory(v: NewSkillCategory, now: int) returns (c: SkillCategory)
      requires Valid()
      modifies this`categories, this`nextCategoryId
      ensures Valid()
      ensures Snapshot() == old(Snapshot()).InsertCategory(v, now)
      ensures categories == old(categories) + [c]
      ensures c == CategoryRow(old(nextCategoryId), now, v)
    {
      c := CategoryRow(nextCategoryId, now, v);
      SerialAppend(categories, CategoryId, nextCategoryId, c);
      categories := categories + [c];
      nextCategoryId := nextCategoryId + 1;
    }

    // -------------------------------------------------------------- seed

    /** Insert the projects `vs` one at a time, in order, returning nothing. */
    method InsertProjectRows(vs: seq<CreateProjectInput>, now: int)
      requires Valid()
      modifies this`projects, this`nextProjectId
      ensures Valid()
      ensures Snapshot() == old(Snapshot()).InsertProjects(vs, now)
    {
      ghost var before := Snapshot();
      for k := 0 to |vs|
        invariant Valid()
        invariant Snapshot() == before.InsertProjects(vs[..k], now)
      {
        // createProject is exactly the insert the seed makes
        var p := CreateProject(vs[k], now);
        assert vs[..k + 1][..k] == vs[..k];
      }
      assert vs[..|vs|] == vs;
    }

    /** Insert the categories `vs` one at a time, in order. */
    method InsertCategoryRows(vs: seq<NewSkillCategory>, now: int)
      requires Valid()
      modifies this`categories, this`nextCategoryId
      ensures Valid()
      ensures Snapshot() == old(Snapshot()).InsertCategories(vs, now)
    {
      ghost var before := Snapshot();
      for k := 0 to |vs|
        invariant Valid()
        invariant Snapshot() == before.InsertCategories(vs[..k], now)
      {
        var c := InsertCategory(vs[k], now);
        assert vs[..k + 1][..k] == vs[..k];
      }
      assert vs[..|vs|] == vs;
    }

    /** Insert the skills `vs` one at a time, in order, with no category check. */
    method InsertSkillRows(vs: seq<CreateSkillInput>, now: int)
      requires Valid()
      modifies this`skills, this`nextSkillId
      ensures Valid()
      ensures Snapshot() == old(Snapshot()).InsertSkills(vs, now)
    {
      ghost var before := Snapshot();
      for k := 0 to |vs|
        invariant Valid()
        invariant Snapshot() == before.InsertSkills(vs[..k], now)
      {
        var s := InsertSkill(vs[k], now);
        assert vs[..k + 1][..k] == vs[..k];
      }
      assert vs[..|vs|] == vs;
    }

    /** seedData: each guarded table is filled one insert at a time. */
    method SeedData(now: int)
      requires Valid()
      modifies this
      ensures Valid()
      ensures Snapshot() == Seeded(old(Snapshot()), now)
    {
      if |professionalInfo| == 0 {
        var info := InsertProfessionalInfo(SeedProfessionalInfo, now);
      }
      if |projects| == 0 {
        InsertProjectRows(SeedProjects, now);
      }
      if |categories| == 0 {
        InsertCategoryRows(SeedCategories, now);
        InsertSkillRows(SeedSkills, now);
      }
    }
  }

  /** A caller that seeds twice ends with the store seeding once leaves. */
  method SeedTwice(s: Store, now: int, later: int)
    requires s.Valid()
    modifies s
    ensures s.Valid() && s.Snapshot() == Seeded(old(s.Snapshot()), now)
  {
    s.SeedData(now);
    s.SeedData(later);
    SeedIsIdempotent(old(s.Snapshot()), now, later);
  }

  /** A caller that submits the same form twice gets two rows with the same content and
      different ids, both stored. */
  method SubmitTwice(s: Store, input: CreateContactFormInput, now: int)
    returns (first: ContactForm, second: ContactForm)
    requires s.Valid()
    modifies s
    ensures s.Valid()
    ensures first == ContactFormRow(old(s.nextContactFormId), now, input)
    ensures second == ContactFormRow(old(s.nextContactFormId) + 1, now, input)
    ensures first.id != second.id && s.contactForms == old(s.contactForms) + [first, second]
  {
    first := s.SubmitContactForm(input, now);
    second := s.SubmitContactForm(input, now);
  }
}
