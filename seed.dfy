/**
 * The seeding routine (server/src/handlers/seed_data.ts).
 *
 * Three independent guards, each "insert only if the table is empty":
 * professional_info, projects, and skill_categories. The skills are inserted
 * under the categories' guard, not under a guard of their own. All inserts
 * take the same timestamp `now`.
 */
module Seed {
  import opened Common
  import opened Validation
  import opened Tables
  import opened Reads
  import Listing

  /** The professional profile inserted when professional_info is empty. */
  const SeedProfessionalInfo := NewProfessionalInfo(
    "Salvatore",
    "Senior Full Stack Developer",
    "Sono uno sviluppatore Full Stack proveniente dalla Sicilia ma ormai trasferito a Roma da circa 9 anni. Ho iniziato la mia carriera come sviluppatore Java, ma negli ultimi anni mi sono focalizzato su tecnologie SAP per lavoro mentre mi diletto in progetti personali con tecnologie come React, NodeJS e TypeScript. Ad oggi ricopro il ruolo di SAP BTP Practice Leader (SME) in GotoNext SRL. Sono Team leader di un team di circa 16 persone e mi occupo di progettazione e sviluppo di architetture SAP BTP e infrastrutture on premise.",
    "Roma, Italia",
    9,
    "SAP BTP Practice Leader (SME)",
    "GotoNext SRL",
    Some(16),
    None)

  /** The five projects inserted, in this order, when projects is empty. */
  const SeedProjects: seq<CreateProjectInput> := [
    CreateProjectInput(
      "Telegram Bot Config Reality",
      "Un bot per la configurazione di oggetti 3D",
      ["Node.js", "Telegram API"],
      Some("https://example.com/demo"), Some("https://github.com/example/telegram-bot"), None, None, None,
      1),
    CreateProjectInput(
      "Cubo Pazzesco",
      "Un cubo pazzesco in 3D",
      ["JavaScript", "ThreeJS"],
      Some("https://example.com/cubo-demo"), Some("https://github.com/example/cubo-pazzesco"), None, None, None,
      2),
    CreateProjectInput(
      "viewer-3d-lit-loader",
      "Un loader per il viewer 3d",
      ["Lit Element", "TypeScript", "Three.js"],
      None, Some("https://github.com/example/viewer-3d-lit-loader"), Some("https://npmjs.com/package/viewer-3d-lit-loader"), None, None,
      3),
    CreateProjectInput(
      "Config Reality",
      "L'idea iniziale era di creare un configuratore di teste di moro (essendo di Caltagirone, città della ceramica) in 2D sovrapponendo le foto con i vari componenti.. poi ho conosciuto il magico mondo di Three js…",
      ["React.js", "Three.js"],
      Some("https://example.com/config-reality"), Some("https://github.com/example/config-reality"), None, None, None,
      4),
    CreateProjectInput(
      "Minesweeper",
      "Non sopportavo le pubblicità del mio giochino preferito..",
      ["Vite", "React"],
      Some("https://example.com/minesweeper"), Some("https://github.com/example/minesweeper"), None, None, None,
      5)
  ]

  /** The six categories inserted, in this order, when skill_categories is empty. */
  const SeedCategories: seq<NewSkillCategory> := [
    NewSkillCategory("Linguaggi di Programmazione", 1),
    NewSkillCategory("Frameworks", 2),
    NewSkillCategory("Tecnologie SAP", 3),
    NewSkillCategory("Tecnologie non SAP", 4),
    NewSkillCategory("Infrastructures", 5),
    NewSkillCategory("Other", 6)
  ]

  /** The eleven skills inserted after the categories. They name categories 1 and 2
      literally, not by the ids the category inserts received. */
  const SeedSkills: seq<CreateSkillInput> := [
    CreateSkillInput("HTML5", 1, 5, 1),
    CreateSkillInput("CSS 3", 1, 5, 2),
    CreateSkillInput("JavaScript", 1, 5, 3),
    CreateSkillInput("TypeScript", 1, 5, 4),
    CreateSkillInput("SQL", 1, 4, 5),
    CreateSkillInput("ABAP", 1, 4, 6),
    CreateSkillInput("Python", 1, 3, 7),
    CreateSkillInput("Node.js", 2, 5, 1),
    CreateSkillInput("React", 2, 5, 2),
    CreateSkillInput("Next.js", 2, 4, 3),
    CreateSkillInput("Three.js", 2, 4, 4)
  ]

  // ------------------------------------------------------------- the spec

  /** The store after one run of the seed. */
  function Seeded(db: Db, now: int): Db {
    var db1 := if |db.professionalInfo| == 0 then db.InsertProfessionalInfo(SeedProfessionalInfo, now) else db;
    var db2 := if |db1.projects| == 0 then db1.InsertProjects(SeedProjects, now) else db1;
    if |db2.categories| == 0 then db2.InsertCategories(SeedCategories, now).InsertSkills(SeedSkills, now)
    else db2
  }

  /** The rows a batch of inserts appends, the first taking sequence value `start`. */
  function ProjectRows(start: int, now: int, vs: seq<CreateProjectInput>): seq<Project> {
    seq(|vs|, i requires 0 <= i < |vs| => ProjectRow(start + i, now, vs[i]))
  }

  function CategoryRows(start: int, now: int, vs: seq<NewSkillCategory>): seq<SkillCategory> {
    seq(|vs|, i requires 0 <= i < |vs| => CategoryRow(start + i, now, vs[i]))
  }

  function SkillRows(start: int, now: int, vs: seq<CreateSkillInput>): seq<Skill> {
    seq(|vs|, i requires 0 <= i < |vs| => SkillRow(start + i, now, vs[i]))
  }

  // ------------------------------------------------------- batch inserts

  /** Inserting a list of projects one at a time appends one row per element, in list
      order, under consecutive fresh ids, and touches no other table. */
  lemma {:induction false} InsertProjectsSpec(db: Db, vs: seq<CreateProjectInput>, now: int)
    requires db.Valid()
    ensures var r := db.InsertProjects(vs, now);
      && r.Valid()
      && r.projects == db.projects + ProjectRows(db.nextProjectId, now, vs)
      && r.nextProjectId == db.nextProjectId + |vs|
      && r.(projects := db.projects, nextProjectId := db.nextProjectId) == db
    decreases |vs|
  {
    if vs != [] {
      var n := |vs| - 1;
      InsertProjectsSpec(db, vs[..n], now);
      var mid := db.InsertProjects(vs[..n], now);
      SerialAppend(mid.projects, ProjectId, mid.nextProjectId, ProjectRow(mid.nextProjectId, now, vs[n]));
      assert ProjectRows(db.nextProjectId, now, vs)
        == ProjectRows(db.nextProjectId, now, vs[..n]) + [ProjectRow(db.nextProjectId + n, now, vs[n])];
    }
  }

  lemma {:induction false} InsertCategoriesSpec(db: Db, vs: seq<NewSkillCategory>, now: int)
    requires db.Valid()
    ensures var r := db.InsertCategories(vs, now);
      && r.Valid()
      && r.categories == db.categories + CategoryRows(db.nextCategoryId, now, vs)
      && r.nextCategoryId == db.nextCategoryId + |vs|
      && r.(categories := db.categories, nextCategoryId := db.nextCategoryId) == db
    decreases |vs|
  {
    if vs != [] {
      var n := |vs| - 1;
      InsertCategoriesSpec(db, vs[..n], now);
      var mid := db.InsertCategories(vs[..n], now);
      SerialAppend(mid.categories, CategoryId, mid.nextCategoryId, CategoryRow(mid.nextCategoryId, now, vs[n]));
      assert CategoryRows(db.nextCategoryId, now, vs)
        == CategoryRows(db.nextCategoryId, now, vs[..n]) + [CategoryRow(db.nextCategoryId + n, now, vs[n])];
    }
  }

  lemma {:induction false} InsertSkillsSpec(db: Db, vs: seq<CreateSkillInput>, now: int)
    requires db.Valid()
    ensures var r := db.InsertSkills(vs, now);
      && r.Valid()
      && r.skills == db.skills + SkillRows(db.nextSkillId, now, vs)
      && r.nextSkillId == db.nextSkillId + |vs|
      && r.(skills := db.skills, nextSkillId := db.nextSkillId) == db
    decreases |vs|
  {
    if vs != [] {
      var n := |vs| - 1;
      InsertSkillsSpec(db, vs[..n], now);
      var mid := db.InsertSkills(vs[..n], now);
      SerialAppend(mid.skills, SkillId, mid.nextSkillId, SkillRow(mid.nextSkillId, now, vs[n]));
      assert SkillRows(db.nextSkillId, now, vs)
        == SkillRows(db.nextSkillId, now, vs[..n]) + [SkillRow(db.nextSkillId + n, now, vs[n])];
    }
  }

  // --------------------------------------------------------------- lemmas

  /** Each table is written only under its guard: professional info and projects only
      when empty, categories and skills only when there are no categories (whatever the
      skills table holds). Contact forms are never touched. The store stays valid. */
  lemma SeedGuards(db: Db, now: int)
    requires db.Valid()
    ensures var r := Seeded(db, now);
      && r.Valid()
      && r.contactForms == db.contactForms
      && (if db.professionalInfo == [] then
            r.professionalInfo == [ProfessionalInfoRow(db.nextProfessionalInfoId, now, SeedProfessionalInfo)]
          else r.professionalInfo == db.professionalInfo)
      && (if db.projects == [] then r.projects == ProjectRows(db.nextProjectId, now, SeedProjects)
          else r.projects == db.projects)
      && (if db.categories == [] then
            r.categories == CategoryRows(db.nextCategoryId, now, SeedCategories)
            && r.skills == db.skills + SkillRows(db.nextSkillId, now, SeedSkills)
          else r.categories == db.categories && r.skills == db.skills)
  {
    var db1 := if |db.professionalInfo| == 0 then db.InsertProfessionalInfo(SeedProfessionalInfo, now) else db;
    if |db.professionalInfo| == 0 {
      SerialAppend(db.professionalInfo, ProfessionalInfoId, db.nextProfessionalInfoId,
        ProfessionalInfoRow(db.nextProfessionalInfoId, now, SeedProfessionalInfo));
    }
    var db2 := if |db1.projects| == 0 then db1.InsertProjects(SeedProjects, now) else db1;
    InsertProjectsSpec(db1, SeedProjects, now);
    if |db2.categories| == 0 {
      InsertCategoriesSpec(db2, SeedCategories, now);
      InsertSkillsSpec(db2.InsertCategories(SeedCategories, now), SeedSkills, now);
    }
  }

  /** Running the seed a second time, at any time, changes nothing. */
  lemma SeedIsIdempotent(db: Db, now: int, later: int)
    requires db.Valid()
    ensures Seeded(Seeded(db, now), later) == Seeded(db, now)
  {
    SeedGuards(db, now);
  }

  /** The seeded project rows carry display orders 1 to 5 and consecutive ids, in list order. */
  lemma SeedProjectRows(start: int, now: int)
    ensures var rows := ProjectRows(start, now, SeedProjects);
      && Listing.Keys(rows, ProjectOrder) == [1, 2, 3, 4, 5]
      && Listing.SortedBy(rows, ProjectOrder)
      && forall i :: 0 <= i < |rows| ==> rows[i].id == start + i
  {
    var rows := ProjectRows(start, now, SeedProjects);
    assert |rows| == 5;
    assert forall i :: 0 <= i < 5 ==> rows[i].displayOrder == i + 1;
    var keys := Listing.Keys(rows, ProjectOrder);
    assert |keys| == 5 && forall i :: 0 <= i < 5 ==> keys[i] == i + 1;
  }

  /** On an empty projects table the seeded projects are stored under consecutive ids
      in list order and come out of getProjects with display orders 1 to 5. */
  lemma SeededProjectsInListOrder(db: Db, now: int)
    requires db.Valid() && db.projects == []
    ensures var r := Seeded(db, now).projects;
      && Listing.Keys(GetProjects(r), ProjectOrder) == [1, 2, 3, 4, 5]
      && forall i :: 0 <= i < |r| ==> r[i].id == db.nextProjectId + i
  {
    var rows := ProjectRows(db.nextProjectId, now, SeedProjects);
    assert Seeded(db, now).projects == rows by {
      SeedGuards(db, now);
    }
    SeedProjectRows(db.nextProjectId, now);
    Listing.KeysDetermined(rows, GetProjects(rows), ProjectOrder);
  }

  /** The seeded skills refer to existing categories when the category sequence is still
      at 1 and no skills are stored, as in a fresh database: the categories then receive
      ids 1 to 6. */
  lemma SeedOnFreshSequenceKeepsReferences(db: Db, now: int)
    requires db.Valid() && db.categories == [] && db.skills == [] && db.nextCategoryId == 1
    ensures Seeded(db, now).ReferencesIntact()
  {
    SeedGuards(db, now);
    var r := Seeded(db, now);
    assert r.categories[0].id == 1 && r.categories[0] in r.categories;
    assert r.categories[1].id == 2 && r.categories[1] in r.categories;
    forall s | s in r.skills ensures r.CategoryExists(s.categoryId) {
      var k :| 0 <= k < |r.skills| && r.skills[k] == s;
      assert s.categoryId == SeedSkills[k].categoryId;
    }
  }

  /** On a fresh database the seed leaves every skill pointing at a category. */
  lemma SeedFreshDatabase(now: int)
    ensures Seeded(EmptyDb, now).Valid() && Seeded(EmptyDb, now).ReferencesIntact()
  {
    EmptyDbIsValid();
    SeedOnFreshSequenceKeepsReferences(EmptyDb, now);
    SeedGuards(EmptyDb, now);
  }

  /** Once the category sequence has moved past 1 (categories inserted and deleted
      earlier), the categories receive ids from 2 on while the first skills still name 1:
      the seed then stores skills whose category does not exist. */
  lemma SeedAfterWipeLeavesDanglingSkills(db: Db, now: int)
    requires db.Valid() && db.categories == [] && db.nextCategoryId > 1
    ensures !Seeded(db, now).ReferencesIntact()
  {
    SeedGuards(db, now);
    var r := Seeded(db, now);
    var s := r.skills[|db.skills|];
    assert s.categoryId == 1 && s in r.skills;
    forall c | c in r.categories ensures c.id != 1 {
      var k :| 0 <= k < |r.categories| && r.categories[k] == c;
      assert c.id == db.nextCategoryId + k;
    }
  }

  /** The seeded rows satisfy the input schemas: every skill's proficiency is in 1..5,
      every project has a non-empty title and technologies and a non-negative order. */
  lemma SeedDataIsWithinSchema()
    ensures forall i :: 0 <= i < |SeedSkills| ==> ValidCreateSkill(SeedSkills[i])
    ensures forall i :: 0 <= i < |SeedProjects| ==>
      |SeedProjects[i].title| >= 1 && |SeedProjects[i].technologies| >= 1 && SeedProjects[i].displayOrder >= 0
  {
  }

  /** With the categories table empty and no skills stored, the seeded skills refer to
      existing categories exactly when the category sequence is still at 1. */
  lemma SeededReferencesIntactIff(db: Db, now: int)
    requires db.Valid() && db.categories == [] && db.skills == []
    ensures Seeded(db, now).ReferencesIntact() <==> db.nextCategoryId == 1
  {
    if db.nextCategoryId == 1 {
      SeedOnFreshSequenceKeepsReferences(db, now);
    } else {
      SeedAfterWipeLeavesDanglingSkills(db, now);
    }
  }
}
