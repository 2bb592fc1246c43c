/**
 * The read handlers: getProjects, getSkills, getContactForms and
 * getProfessionalInfo (server/src/handlers/get_*.ts).
 *
 * Each is a function of the tables it selects from, so none of them can change
 * the store. Each orders by one column and nothing else; where rows tie on that
 * column the contracts leave their order open.
 */
module Reads {
  import opened Common
  import opened Validation
  import opened Tables
  import opened Listing

  // ------------------------------------------------------------ sort keys

  function ProjectOrder(p: Project): int { p.displayOrder }
  function CategoryOrder(c: SkillCategory): int { c.displayOrder }
  function SkillOrder(s: Skill): int { s.displayOrder }
  /** `desc(created_at)` as an ascending key. */
  function NewestFirst(f: ContactForm): int { -f.createdAt }
  function UpdatedAt(i: ProfessionalInfo): int { i.updatedAt }

  // ------------------------------------------------------------- handlers

  /** getProjects: every stored project, unchanged, ascending by display order. */
  function GetProjects(projects: seq<Project>): (r: seq<Project>)
    ensures multiset(r) == multiset(projects)
    ensures forall i, j :: 0 <= i < j < |r| ==> r[i].displayOrder <= r[j].displayOrder
  {
    SortBy(projects, ProjectOrder)
  }

  /** The pair getSkills returns. */
  datatype SkillsListing = SkillsListing(categories: seq<SkillCategory>, skills: seq<Skill>)

  /** getSkills: two independent listings, each ascending by its own display order;
      no grouping and no filtering, so categories without skills are returned too. */
  function GetSkills(categories: seq<SkillCategory>, skills: seq<Skill>): (r: SkillsListing)
    ensures multiset(r.categories) == multiset(categories)
    ensures forall i, j :: 0 <= i < j < |r.categories| ==>
      r.categories[i].displayOrder <= r.categories[j].displayOrder
    ensures multiset(r.skills) == multiset(skills)
    ensures forall i, j :: 0 <= i < j < |r.skills| ==> r.skills[i].displayOrder <= r.skills[j].displayOrder
  {
    SkillsListing(SortBy(categories, CategoryOrder), SortBy(skills, SkillOrder))
  }

  /** getContactForms: every stored form, unchanged (`replied` included), newest first. */
  function GetContactForms(contactForms: seq<ContactForm>): (r: seq<ContactForm>)
    ensures multiset(r) == multiset(contactForms)
    ensures forall i, j :: 0 <= i < j < |r| ==> r[i].createdAt >= r[j].createdAt
  {
    var r := SortBy(contactForms, NewestFirst);
    assert forall i, j :: 0 <= i < j < |r| ==> NewestFirst(r[i]) <= NewestFirst(r[j]);
    r
  }

  /** getProfessionalInfo: null exactly when the table is empty, otherwise one stored row
      whose `updated_at` is at least every other row's. */
  function GetProfessionalInfo(professionalInfo: seq<ProfessionalInfo>): (r: Option<ProfessionalInfo>)
    ensures r.None? <==> professionalInfo == []
    ensures r.Some? ==> r.value in professionalInfo
    ensures r.Some? ==> forall i :: 0 <= i < |professionalInfo| ==> professionalInfo[i].updatedAt <= r.value.updatedAt
  {
    Latest(professionalInfo, UpdatedAt)
  }

  // --------------------------------------------------------------- lemmas

  /** A permutation leaves an empty table empty and adds no row. */
  lemma ListingsOfEmptyTablesAreEmpty()
    ensures GetProjects([]) == [] && GetContactForms([]) == []
    ensures GetSkills([], []) == SkillsListing([], [])
    ensures GetProfessionalInfo([]) == None
  {
    var p := GetProjects([]);
    assert |p| == |multiset(p)| == 0;
    var f := GetContactForms([]);
    assert |f| == |multiset(f)| == 0;
    var s := GetSkills([], []);
    assert |s.categories| == |multiset(s.categories)| == 0;
    assert |s.skills| == |multiset(s.skills)| == 0;
  }

  /** Any other correct answer to getProjects differs from this one only among projects
      with equal display order: the display orders come out in the same sequence. */
  lemma ProjectOrderIsDetermined(projects: seq<Project>, other: seq<Project>)
    requires multiset(other) == multiset(projects)
    requires forall i, j :: 0 <= i < j < |other| ==> other[i].displayOrder <= other[j].displayOrder
    ensures Keys(other, ProjectOrder) == Keys(GetProjects(projects), ProjectOrder)
  {
    KeysDetermined(other, GetProjects(projects), ProjectOrder);
  }

  /** A created project is listed by getProjects with the nine fields it was created
      with, `technologies` in the same order, its timestamp and an id no earlier project has. */
  lemma CreatedProjectIsListed(db: Db, v: CreateProjectInput, now: int)
    requires db.Valid()
    ensures var listed := GetProjects(db.InsertProject(v, now).projects);
      exists p :: p in listed
        && p.title == v.title && p.description == v.description && p.technologies == v.technologies
        && p.demoUrl == v.demoUrl && p.githubUrl == v.githubUrl && p.npmUrl == v.npmUrl
        && p.slidesUrl == v.slidesUrl && p.imageUrl == v.imageUrl && p.displayOrder == v.displayOrder
        && p.createdAt == now && forall q :: q in db.projects ==> q.id != p.id
  {
    InsertProjectSpec(db, v, now);
    var table := db.InsertProject(v, now).projects;
    var p := table[|db.projects|];
    assert p in multiset(table);
    assert p in GetProjects(table);
  }

  /** Forms stored with strictly increasing timestamps come back in exactly the reverse
      of insertion order. */
  lemma NewestFirstIsReverseInsertion(contactForms: seq<ContactForm>)
    requires forall i, j :: 0 <= i < j < |contactForms| ==> contactForms[i].createdAt < contactForms[j].createdAt
    ensures GetContactForms(contactForms) == Reversed(contactForms)
  {
    var rev := Reversed(contactForms);
    ReversedIsPermutation(contactForms);
    assert SortedBy(rev, NewestFirst);
    var r := GetContactForms(contactForms);
    assert SortedBy(r, NewestFirst);
    ListingUniqueWithoutTies(contactForms, r, rev, NewestFirst);
  }
}
