/**
 * The five tables of the store (server/src/db/schema.ts).
 *
 * Each table is a sequence of rows in storage order. A nullable column is an
 * `Option`; every other column is not-null. Timestamps are integers supplied by
 * the caller. Every table has its own `serial` primary key: the next value its
 * sequence hands out is kept beside the table, starts at 1 and only grows.
 * Nothing but `id` is unique, and `skills.category_id` is a plain integer:
 * there is no foreign key.
 */
module Tables {
  import opened Common
  import opened Validation

  // ------------------------------------------------------------------- rows

  datatype Project = Project(
    id: int,
    title: string,
    description: string,
    technologies: seq<string>,
    demoUrl: Option<string>,
    githubUrl: Option<string>,
    npmUrl: Option<string>,
    slidesUrl: Option<string>,
    imageUrl: Option<string>,
    displayOrder: int,
    createdAt: int)

  datatype ContactForm = ContactForm(
    id: int,
    name: string,
    email: string,
    subject: string,
    message: string,
    createdAt: int,
    replied: bool)

  datatype SkillCategory = SkillCategory(
    id: int,
    name: string,
    displayOrder: int,
    createdAt: int)

  datatype Skill = Skill(
    id: int,
    name: string,
    categoryId: int,
    proficiencyLevel: int,
    displayOrder: int,
    createdAt: int)

  datatype ProfessionalInfo = ProfessionalInfo(
    id: int,
    fullName: string,
    title: string,
    bio: string,
    location: string,
    yearsExperience: int,
    currentPosition: string,
    currentCompany: string,
    teamSize: Option<int>,
    cvUrl: Option<string>,
    updatedAt: int)

  /** The values of a skill_categories insert (no handler creates categories; the seed does). */
  datatype NewSkillCategory = NewSkillCategory(name: string, displayOrder: int)

  /** The values of a professional_info insert (only the seed inserts one). */
  datatype NewProfessionalInfo = NewProfessionalInfo(
    fullName: string,
    title: string,
    bio: string,
    location: string,
    yearsExperience: int,
    currentPosition: string,
    currentCompany: string,
    teamSize: Option<int>,
    cvUrl: Option<string>)

  // ----------------------------------------------------- column accessors

  function ProjectId(p: Project): int { p.id }
  function ContactFormId(f: ContactForm): int { f.id }
  function CategoryId(c: SkillCategory): int { c.id }
  function SkillId(s: Skill): int { s.id }
  function ProfessionalInfoId(i: ProfessionalInfo): int { i.id }

  // ---------------------------------------------- inserted rows (defaults)

  /** The row an insert of `v` stores: the serial `id`, `created_at` defaulting to now. */
  function ProjectRow(id: int, now: int, v: CreateProjectInput): Project {
    Project(id, v.title, v.description, v.technologies, v.demoUrl, v.githubUrl, v.npmUrl,
      v.slidesUrl, v.imageUrl, v.displayOrder, now)
  }

  /** The nine content columns of a project row, as a create input. */
  function ProjectContent(p: Project): CreateProjectInput {
    CreateProjectInput(p.title, p.description, p.technologies, p.demoUrl, p.githubUrl, p.npmUrl,
      p.slidesUrl, p.imageUrl, p.displayOrder)
  }

  /** `replied` is written as false, `created_at` defaults to now. */
  function ContactFormRow(id: int, now: int, v: CreateContactFormInput): ContactForm {
    ContactForm(id, v.name, v.email, v.subject, v.message, now, false)
  }

  function CategoryRow(id: int, now: int, v: NewSkillCategory): SkillCategory {
    SkillCategory(id, v.name, v.displayOrder, now)
  }

  function SkillRow(id: int, now: int, v: CreateSkillInput): Skill {
    Skill(id, v.name, v.categoryId, v.proficiencyLevel, v.displayOrder, now)
  }

  /** `updated_at` defaults to now. */
  function ProfessionalInfoRow(id: int, now: int, v: NewProfessionalInfo): ProfessionalInfo {
    ProfessionalInfo(id, v.fullName, v.title, v.bio, v.location, v.yearsExperience,
      v.currentPosition, v.currentCompany, v.teamSize, v.cvUrl, now)
  }

  // ------------------------------------------------------------ serial ids

  /** The ids of `rows` are values the table's sequence has already handed out
      (1 up to `next` exclusive), and no two rows share one. */
  predicate SerialIds<T>(rows: seq<T>, id: T -> int, next: int) {
    && next >= 1
    && (forall i :: 0 <= i < |rows| ==> 1 <= id(rows[i]) < next)
    && (forall i, j :: 0 <= i < j < |rows| ==> id(rows[i]) != id(rows[j]))
  }

  /** Appending a row that takes the sequence's next value keeps the ids serial. */
  lemma SerialAppend<T>(rows: seq<T>, id: T -> int, next: int, x: T)
    requires SerialIds(rows, id, next) && id(x) == next
    ensures SerialIds(rows + [x], id, next + 1)
    ensures forall i :: 0 <= i < |rows| ==> id(rows[i]) != id(x)
  {
    var rows' := rows + [x];
    assert forall i :: 0 <= i < |rows| ==> rows'[i] == rows[i];
  }

  /** Rewriting a row without touching its id keeps the ids serial. */
  lemma SerialReplace<T>(rows: seq<T>, id: T -> int, next: int, k: nat, x: T)
    requires SerialIds(rows, id, next) && k < |rows| && id(x) == id(rows[k])
    ensures SerialIds(rows[k := x], id, next)
  {
  }

  // ---------------------------------------------------- where id = key

  /** `select ... where id = key`: the rows whose id is `key`, in storage order. */
  function SelectById<T(!new)>(rows: seq<T>, id: T -> int, key: int): (r: seq<T>)
    ensures forall x :: x in r <==> x in rows && id(x) == key
    ensures |r| == 0 <==> forall i :: 0 <= i < |rows| ==> id(rows[i]) != key
  {
    if rows == [] then []
    else if id(rows[0]) == key then [rows[0]] + SelectById(rows[1..], id, key)
    else SelectById(rows[1..], id, key)
  }

  /** The position of the row whose id is `key`, if there is one. */
  function IndexOfId<T>(rows: seq<T>, id: T -> int, key: int): (r: Option<nat>)
    ensures r.Some? ==> r.value < |rows| && id(rows[r.value]) == key
    ensures r.None? <==> forall i :: 0 <= i < |rows| ==> id(rows[i]) != key
  {
    if rows == [] then None
    else if id(rows[0]) == key then Some(0)
    else match IndexOfId(rows[1..], id, key)
      case None => None
      case Some(k) => Some(k + 1)
  }

  /** With unique ids the row found is the only one with that id. */
  lemma IndexOfIdIsTheMatch<T>(rows: seq<T>, id: T -> int, next: int, key: int, j: nat)
    requires SerialIds(rows, id, next) && j < |rows| && id(rows[j]) == key
    ensures IndexOfId(rows, id, key) == Some(j)
  {
  }

  // ---------------------------------------------------------------- the store

  /** The whole store as a value: the five tables and their five sequences. */
  datatype Db = Db(
    projects: seq<Project>,
    contactForms: seq<ContactForm>,
    categories: seq<SkillCategory>,
    skills: seq<Skill>,
    professionalInfo: seq<ProfessionalInfo>,
    nextProjectId: int,
    nextContactFormId: int,
    nextCategoryId: int,
    nextSkillId: int,
    nextProfessionalInfoId: int)
  {
    /** What the database itself enforces: serial primary keys, nothing more. */
    predicate Valid() {
      && SerialIds(projects, ProjectId, nextProjectId)
      && SerialIds(contactForms, ContactFormId, nextContactFormId)
      && SerialIds(categories, CategoryId, nextCategoryId)
      && SerialIds(skills, SkillId, nextSkillId)
      && SerialIds(professionalInfo, ProfessionalInfoId, nextProfessionalInfoId)
    }

    /** Some category has id `key` (the check createSkill makes). */
    predicate CategoryExists(key: int) {
      exists c :: c in categories && c.id == key
    }

    /** Every skill names an existing category. The schema does not enforce this. */
    predicate ReferencesIntact() {
      forall s :: s in skills ==> CategoryExists(s.categoryId)
    }

    function InsertProject(v: CreateProjectInput, now: int): Db {
      this.(projects := projects + [ProjectRow(nextProjectId, now, v)],
            nextProjectId := nextProjectId + 1)
    }

    function InsertContactForm(v: CreateContactFormInput, now: int): Db {
      this.(contactForms := contactForms + [ContactFormRow(nextContactFormId, now, v)],
            nextContactFormId := nextContactFormId + 1)
    }

    function InsertCategory(v: NewSkillCategory, now: int): Db {
      this.(categories := categories + [CategoryRow(nextCategoryId, now, v)],
            nextCategoryId := nextCategoryId + 1)
    }

    function InsertSkill(v: CreateSkillInput, now: int): Db {
      this.(skills := skills + [SkillRow(nextSkillId, now, v)],
            nextSkillId := nextSkillId + 1)
    }

    function InsertProfessionalInfo(v: NewProfessionalInfo, now: int): Db {
      this.(professionalInfo := professionalInfo + [ProfessionalInfoRow(nextProfessionalInfoId, now, v)],
            nextProfessionalInfoId := nextProfessionalInfoId + 1)
    }

    /** One insert per element of `vs`, in order. */
    function InsertProjects(vs: seq<CreateProjectInput>, now: int): Db
      decreases |vs|
    {
      if vs == [] then this else InsertProjects(vs[..|vs| - 1], now).InsertProject(vs[|vs| - 1], now)
    }

    function InsertCategories(vs: seq<NewSkillCategory>, now: int): Db
      decreases |vs|
    {
      if vs == [] then this else InsertCategories(vs[..|vs| - 1], now).InsertCategory(vs[|vs| - 1], now)
    }

    function InsertSkills(vs: seq<CreateSkillInput>, now: int): Db
      decreases |vs|
    {
      if vs == [] then this else InsertSkills(vs[..|vs| - 1], now).InsertSkill(vs[|vs| - 1], now)
    }
  }

  /** A freshly created database: empty tables, every sequence at 1. */
  const EmptyDb := Db([], [], [], [], [], 1, 1, 1, 1, 1)

  // ------------------------------------------------------------------ lemmas

  /** A fresh database is valid. */
  lemma EmptyDbIsValid()
    ensures EmptyDb.Valid() && EmptyDb.ReferencesIntact()
  {
  }

  /** Inserting a project gives it the next serial id, not used by any row, stores the
      nine content fields unchanged, grows the table by one and leaves every earlier row
      and every other table alone. */
  lemma InsertProjectSpec(db: Db, v: CreateProjectInput, now: int)
    requires db.Valid()
    ensures var db' := db.InsertProject(v, now);
      && db'.Valid()
      && |db'.projects| == |db.projects| + 1
      && db'.projects[..|db.projects|] == db.projects
      && var p := db'.projects[|db.projects|];
      && (forall q :: q in db.projects ==> q.id != p.id)
      && p.createdAt == now
      && p.title == v.title && p.description == v.description && p.technologies == v.technologies
      && p.demoUrl == v.demoUrl && p.githubUrl == v.githubUrl && p.npmUrl == v.npmUrl
      && p.slidesUrl == v.slidesUrl && p.imageUrl == v.imageUrl && p.displayOrder == v.displayOrder
      && db'.(projects := db.projects, nextProjectId := db.nextProjectId) == db
  {
    SerialAppend(db.projects, ProjectId, db.nextProjectId, ProjectRow(db.nextProjectId, now, v));
    assert (db.projects + [ProjectRow(db.nextProjectId, now, v)])[..|db.projects|] == db.projects;
  }

  /** A submitted form is stored with `replied = false` and the given content under a
      fresh id; earlier rows are unchanged. */
  lemma InsertContactFormSpec(db: Db, v: CreateContactFormInput, now: int)
    requires db.Valid()
    ensures var db' := db.InsertContactForm(v, now);
      && db'.Valid()
      && |db'.contactForms| == |db.contactForms| + 1
      && db'.contactForms[..|db.contactForms|] == db.contactForms
      && var f := db'.contactForms[|db.contactForms|];
      && (forall g :: g in db.contactForms ==> g.id != f.id)
      && !f.replied && f.createdAt == now
      && f.name == v.name && f.email == v.email && f.subject == v.subject && f.message == v.message
  {
    SerialAppend(db.contactForms, ContactFormId, db.nextContactFormId,
      ContactFormRow(db.nextContactFormId, now, v));
    assert (db.contactForms + [ContactFormRow(db.nextContactFormId, now, v)])[..|db.contactForms|]
      == db.contactForms;
  }

  /** The same content submitted twice is stored twice, under two different ids. */
  lemma ResubmissionAddsSecondRow(db: Db, v: CreateContactFormInput, t1: int, t2: int)
    requires db.Valid()
    ensures var db' := db.InsertContactForm(v, t1).InsertContactForm(v, t2);
      && db'.Valid()
      && |db'.contactForms| == |db.contactForms| + 2
      && db'.contactForms[|db.contactForms|].id != db'.contactForms[|db.contactForms| + 1].id
  {
    InsertContactFormSpec(db, v, t1);
    InsertContactFormSpec(db.InsertContactForm(v, t1), v, t2);
  }

  /** A skill is stored with name, category, proficiency and display order exactly as
      given under a fresh id; in particular the proficiency is not clamped. */
  lemma InsertSkillSpec(db: Db, v: CreateSkillInput, now: int)
    requires db.Valid()
    ensures var db' := db.InsertSkill(v, now);
      && db'.Valid()
      && db'.skills == db.skills + [db'.skills[|db.skills|]]
      && var s := db'.skills[|db.skills|];
      && (forall t :: t in db.skills ==> t.id != s.id)
      && s.name == v.name && s.categoryId == v.categoryId
      && s.proficiencyLevel == v.proficiencyLevel && s.displayOrder == v.displayOrder
      && db'.categories == db.categories
  {
    SerialAppend(db.skills, SkillId, db.nextSkillId, SkillRow(db.nextSkillId, now, v));
  }

  /** A category id the sequence has not handed out yet names no category, so a skill
      that refers to it is refused (the only integrity the store has). */
  lemma UnissuedCategoryIdDoesNotExist(db: Db, key: int)
    requires db.Valid() && (key < 1 || key >= db.nextCategoryId)
    ensures !db.CategoryExists(key)
  {
  }

  /** The skill table may hold skills whose category does not exist: nothing in the
      schema stops it. */
  lemma DanglingSkillIsRepresentable()
    ensures var db := EmptyDb.InsertSkill(CreateSkillInput("SQL", 7, 4, 1), 0);
      db.Valid() && !db.ReferencesIntact()
  {
    var db := EmptyDb.InsertSkill(CreateSkillInput("SQL", 7, 4, 1), 0);
    assert db.skills[0] in db.skills;
  }
}
