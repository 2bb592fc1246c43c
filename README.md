# Portfolio server: data access and validation, in Dafny

This project models the server side of a personal portfolio site. It covers the
input schemas, the five database tables and the handlers that read and write them.

- Projects can be created, updated and listed.
- Skills and categories are listed, each in display order; skills can be created under an existing category.
- Visitors submit contact forms, which are stored as not yet replied to.
- One "professional info" record holds the about-section data; it is read and updated.
- A seeding routine fills empty tables with the owner's data.

The modules follow the program's structure:

- `Common` (`common.dfy`): `Option` and `Result`.
- `Validation` (`validation.dfy`): the input schemas of `server/src/schema.ts` as predicates over input datatypes. An optional field is an `Option`. An optional field that may also be null is an `Option<Option<_>>`: absent, explicit null, or a value.
- `Tables` (`tables.dfy`): the tables of `server/src/db/schema.ts` as row datatypes.
  - Each table has its own serial id sequence, starting at 1.
  - `Db` is the whole store as a value. Its `Valid()` holds exactly what the database enforces: serial primary keys, nothing more.
  - `SelectById` and `IndexOfId` model `where id = key`.
- `Listing` (`listing.dfy`): `order by <column>` and `order by <column> desc limit 1`.
  - A correct listing is any sorted permutation of the table.
  - Since the column is the only sort key, ties may come back in any order.
- `Reads` (`reads.dfy`): `getProjects`, `getSkills`, `getContactForms` and `getProfessionalInfo`, as functions of the tables. They cannot change the store.
- `Merge` (`merge.dfy`): the row that `updateProject` and `updateProfessionalInfo` leave behind.
- `Seed` (`seed.dfy`): the seed constants and the store after one run of `seedData`.
- `Store` (`store.dfy`): `class Store` with the five tables and five sequences as fields.
  - It has one method per mutating handler.
  - Each method changes only the fields it names. It keeps the serial-id invariant and ties its new state to the `Db` functions, merges and seed above.
  - `UpdateProject` and `UpdateProfessionalInfo` build the new row with the handler's conditional field assignments (`SetSuppliedFields`, `SetSuppliedInfoFields`). `SeedData` fills each empty table row by row, in the `for` loops of `InsertProjectRows`, `InsertCategoryRows` and `InsertSkillRows`.

The handlers depend on three things the program does not define. The model takes each as a parameter:

- URL and e-mail syntax: the `isUrl` and `isEmail` predicates.
- The clock: an integer `now`.
- Numbers: JavaScript numbers that the schemas require to be integers are unbounded Dafny `int`; the 32-bit width of the database columns is not modelled (see "## Left out").

Where the written description of the system and the code disagree, the model follows the code:

- **Ties are not broken by insertion order.** No query has a second sort key, so equal `display_order` or `created_at` values come back in an unspecified order. The listing contracts leave that order open. `KeysDetermined` shows that only the order within a tie is open.
- **Proficiency is not clamped.** The create-skill schema rejects levels outside 1..5 (`ProficiencyOutOfRangeIsRejected`). The handler stores the level it is given (`InsertSkillSpec`).

## Model

| member | source | states |
|---|---|---|
| Validation.UpdateRulesMatchCreate | server/src/schema.ts:21-47 | a create-project input is valid exactly when the update carrying all its fields is valid: each present update field follows the create rule |
| Validation.UpdateAcceptsNullUrlsAndAbsence | server/src/schema.ts:36-47 | an update with only `id` is valid, and so is explicit null on all five URL fields |
| Validation.EmptyInfoUpdateIsValid | server/src/schema.ts:124-134 | `{}` is a valid professional-info update; so are zero years and explicit null (or zero) team size and CV link |
| Validation.ProficiencyOutOfRangeIsRejected | server/src/schema.ts:97-102 | an accepted skill input has proficiency in 1..5; any level outside 1..5 is rejected |
| Validation.ContactBoundsAreInclusive | server/src/schema.ts:65-70 | the contact bounds are inclusive: names of 100, subjects of 200, messages of 10 or 2000 and e-mails of 255 characters are accepted; a 9-character message and an empty name are not |
| Tables.SerialAppend | server/src/db/schema.ts:6-6 | a row appended under the sequence's next value keeps ids unique and in range, and its id differs from every earlier row's |
| Tables.SerialReplace | server/src/db/schema.ts:6-6 | rewriting a row without changing its id keeps the ids serial |
| Tables.SelectById | server/src/handlers/create_skill.ts:13-18 | the rows selected are exactly the stored rows with that id; the result is empty iff no row has it |
| Tables.IndexOfId | server/src/handlers/update_project.ts:52-60 | a found position holds a row with the key; nothing is found iff no row has the key |
| Tables.IndexOfIdIsTheMatch | server/src/handlers/update_professional_info.ts:21-22 | with serial ids, the row at any position carrying the key is the one found |
| Tables.EmptyDbIsValid | server/src/db/schema.ts:5-61 | a fresh database satisfies the serial-id invariant and has no dangling skill |
| Tables.InsertProjectSpec | server/src/handlers/create_project.ts:12-29 | the new row has a fresh id, `created_at = now` and the nine input fields unchanged (nulls and technology order included); the table grows by one; earlier rows and other tables are unchanged |
| Tables.InsertContactFormSpec | server/src/handlers/submit_contact_form.ts:12-24 | the stored form has `replied = false`, `created_at = now`, the four input fields and a fresh id; earlier rows are unchanged |
| Tables.ResubmissionAddsSecondRow | server/src/handlers/submit_contact_form.ts:12-21 | identical content submitted twice is stored as two rows with different ids |
| Tables.InsertSkillSpec | server/src/handlers/create_skill.ts:23-33 | the stored skill has a fresh id and name, category, proficiency and order exactly as given; categories are unchanged |
| Tables.UnissuedCategoryIdDoesNotExist | server/src/db/schema.ts:30-36 | a category id the sequence has not handed out names no category |
| Tables.DanglingSkillIsRepresentable | server/src/db/schema.ts:42-42 | a valid store can hold a skill whose category does not exist: the schema has no foreign key |
| Listing.SortBy | server/src/handlers/get_projects.ts:13-16 | `order by key asc`: the result is a permutation of the table, sorted by the key |
| Listing.KeysDetermined | server/src/handlers/get_projects.ts:15-15 | any two sorted permutations of a table have the same key sequence, so only the order within ties is open |
| Listing.ListingUniqueWithoutTies | server/src/handlers/get_contact_forms.ts:14-14 | when no two rows share a key, there is only one correct listing |
| Listing.Latest | server/src/handlers/get_professional_info.ts:13-21 | `order by key desc limit 1`: none iff the table is empty; otherwise a stored row whose key is at least every row's |
| Listing.LatestIsStrictMaximum | server/src/handlers/get_professional_info.ts:15-16 | a row whose key is strictly greater than all others is the one returned |
| Reads.GetProjects | server/src/handlers/get_projects.ts:10-28 | every stored project, unchanged, non-decreasing in display order |
| Reads.GetSkills | server/src/handlers/get_skills.ts:10-29 | all categories and all skills, each a permutation of its table and non-decreasing in its own display order; no grouping or filtering |
| Reads.GetContactForms | server/src/handlers/get_contact_forms.ts:10-22 | every stored form, `replied` included, unchanged, non-increasing in `created_at` |
| Reads.GetProfessionalInfo | server/src/handlers/get_professional_info.ts:10-41 | null exactly when the table is empty; otherwise one stored row with the greatest `updated_at` |
| Reads.ListingsOfEmptyTablesAreEmpty | server/src/handlers/get_skills.ts:10-24 | empty tables give empty lists, two empty skill lists and null professional info |
| Reads.ProjectOrderIsDetermined | server/src/handlers/get_projects.ts:13-16 | any correct project listing has the same display-order sequence as the model's |
| Reads.CreatedProjectIsListed | server/src/handlers/create_project.ts:12-29 | after createProject, getProjects lists a row with the input's nine fields, the creation time and an id no earlier project has |
| Reads.NewestFirstIsReverseInsertion | server/src/handlers/get_contact_forms.ts:12-15 | forms stored with strictly increasing timestamps come back in exactly the reverse of insertion order |
| Merge.MergeProject | server/src/handlers/update_project.ts:13-56 | the updated row keeps its id and `created_at` |
| Merge.MergeWritesExactlySuppliedFields | server/src/handlers/update_project.ts:13-49 | each field is overwritten iff it is supplied; a supplied technology list replaces the old one as given |
| Merge.NullClearsUrls | server/src/handlers/update_project.ts:27-45 | explicit nulls clear the URL fields and leave every other column alone |
| Merge.TitleOnlyUpdate | server/src/handlers/update_project.ts:15-17 | a title-only update changes the title and nothing else |
| Merge.MergeOfNothingIsIdentity | server/src/handlers/update_project.ts:13-49 | an update with no field besides `id` leaves the row as it was |
| Merge.FullUpdateReachesAnyContent | server/src/handlers/update_project.ts:13-56 | supplying every field yields the row a create with those fields would store, under the old id and timestamp |
| Merge.MergeProjectIdempotent | server/src/handlers/update_project.ts:13-56 | applying the same update twice equals applying it once |
| Merge.MergeKeepsProjectRules | server/src/schema.ts:21-47 | a valid update keeps a row whose content passes the create schema inside it: non-empty title and technologies, every non-null URL a URL, non-negative display order |
| Merge.MergeInfo | server/src/handlers/update_professional_info.ts:25-45 | the updated row keeps its id and always carries `updated_at = now` |
| Merge.MergeInfoWritesExactlySuppliedFields | server/src/handlers/update_professional_info.ts:30-38 | each of the nine fields is overwritten iff it is supplied |
| Merge.EmptyInfoUpdateOnlyTouches | server/src/handlers/update_professional_info.ts:25-27 | `{}` changes only `updated_at`, which moves forward when the clock has |
| Merge.ZeroAndNullAreWritten | server/src/handlers/update_professional_info.ts:34-38 | zero is written as a value; explicit null clears team size and CV link |
| Merge.MergeInfoKeepsCountsNonNegative | server/src/schema.ts:129-132 | a valid update keeps years of experience and team size non-negative |
| Merge.UpdatedRowIsReadWhenClockIsAhead | server/src/handlers/update_professional_info.ts:21-45 | when the clock is ahead of every other row, getProfessionalInfo returns the row just updated |
| Merge.UpdatedRowNeedNotBeRead | server/src/handlers/get_professional_info.ts:13-17 | with two rows, getProfessionalInfo can return a row the update did not touch |
| Seed.InsertProjectsSpec | server/src/handlers/seed_data.ts:90-92 | inserting a list one at a time appends one row per element, in order, under consecutive ids, and changes nothing else |
| Seed.InsertCategoriesSpec | server/src/handlers/seed_data.ts:109-111 | the same for categories |
| Seed.InsertSkillsSpec | server/src/handlers/seed_data.ts:131-133 | the same for skills |
| Seed.SeedGuards | server/src/handlers/seed_data.ts:9-134 | each table is written only when its guard holds, with exactly the seed's rows; skills are guarded by the categories check, whatever the skills table holds; contact forms are never touched; the store stays valid |
| Seed.SeedIsIdempotent | server/src/handlers/seed_data.ts:12-98 | seeding twice, at any times, leaves the same store as seeding once |
| Seed.SeedProjectRows | server/src/handlers/seed_data.ts:32-88 | the seeded projects carry display orders 1 to 5 in list order, under consecutive ids |
| Seed.SeededProjectsInListOrder | server/src/handlers/seed_data.ts:30-93 | on an empty projects table, getProjects lists the seeded projects with display orders 1 to 5 |
| Seed.SeedOnFreshSequenceKeepsReferences | server/src/handlers/seed_data.ts:109-133 | when the category sequence is at 1, the seeded skills refer to existing categories |
| Seed.SeedFreshDatabase | server/src/handlers/seed_data.ts:7-141 | seeding a fresh database leaves a valid store with no dangling skill |
| Seed.SeedAfterWipeLeavesDanglingSkills | server/src/handlers/seed_data.ts:109-128 | once the category sequence is past 1, the seed stores skills whose category does not exist |
| Seed.SeededReferencesIntactIff | server/src/handlers/seed_data.ts:98-133 | with no categories and no skills stored, the seeded skills all refer to existing categories exactly when the category sequence is at 1 |
| Seed.SeedDataIsWithinSchema | server/src/handlers/seed_data.ts:32-129 | every seeded skill passes the create-skill schema; every seeded project has a non-empty title and technologies and a non-negative order |
| Store.Store.constructor | server/src/db/schema.ts:5-61 | a new store satisfies the serial-id invariant and its snapshot is `EmptyDb`: five empty tables, every sequence at 1 |
| Store.Store.CreateProject | server/src/handlers/create_project.ts:9-34 | keeps the serial-id invariant; the new store is `InsertProject` of the old one: the returned row `ProjectRow(old next id, now, input)` is appended, its id differs from every earlier row's, and no other table or sequence changes |
| Store.Store.UpdateProject | server/src/handlers/update_project.ts:10-67 | an unknown id fails with ProjectNotFound and leaves the table alone; otherwise only the matching row becomes its merge, and that row is returned |
| Store.SetSuppliedFields | server/src/handlers/update_project.ts:12-50 | the row built by the nine conditional assignments is `MergeProject(row, input)`: each supplied field written, each absent one kept |
| Store.Store.InsertSkill | server/src/handlers/seed_data.ts:132-132 | keeps the serial-id invariant; appends exactly `SkillRow(old next id, now, input)` with no category check; only the skills table and its sequence change |
| Store.Store.CreateSkill | server/src/handlers/create_skill.ts:10-39 | succeeds iff a category with the id exists; on failure returns CategoryNotFound and changes nothing; on success appends the row; categories are only read; referential integrity is preserved |
| Store.Store.SubmitContactForm | server/src/handlers/submit_contact_form.ts:9-29 | keeps the serial-id invariant; appends exactly the returned `ContactFormRow(old next id, now, input)`, with `replied = false`; only the contact-form table and its sequence change |
| Store.Store.InsertProfessionalInfo | server/src/handlers/seed_data.ts:14-24 | keeps the serial-id invariant; appends exactly the returned `ProfessionalInfoRow(old next id, now, input)`, so `updated_at = now`; only that table and its sequence change |
| Store.Store.UpdateProfessionalInfo | server/src/handlers/update_professional_info.ts:10-52 | an empty table fails with NoProfessionalInfoToUpdate and stays empty; otherwise only the first stored row becomes its merge and is returned |
| Store.SetSuppliedInfoFields | server/src/handlers/update_professional_info.ts:24-38 | the row built from `updated_at = now` and the nine conditional assignments is `MergeInfo(row, input, now)` |
| Store.Store.InsertCategory | server/src/handlers/seed_data.ts:110-110 | keeps the serial-id invariant; appends exactly the returned `CategoryRow(old next id, now, input)`, so `created_at = now`; only that table and its sequence change |
| Store.Store.SeedData | server/src/handlers/seed_data.ts:7-141 | the store after the run equals the seed specification `Seeded` applied to the store before |
| Store.Store.InsertProjectRows | server/src/handlers/seed_data.ts:90-92 | keeps the serial-id invariant; inserting a list of projects one at a time leaves the store at `InsertProjects` of the old one: the rows appended in list order under consecutive ids; only the projects table and its sequence change |
| Store.Store.InsertCategoryRows | server/src/handlers/seed_data.ts:109-111 | the same for a list of categories (`InsertCategories`) |
| Store.Store.InsertSkillRows | server/src/handlers/seed_data.ts:131-133 | the same for a list of skills (`InsertSkills`), with no category check |
| Store.SeedTwice | server/src/handlers/seed_data.ts:7-141 | running seedData twice, at any two clock values, leaves the store exactly where the first run left it, and the store stays valid |
| Store.SubmitTwice | server/src/handlers/submit_contact_form.ts:12-21 | two submissions of the same form append `ContactFormRow(n, now, input)` and `ContactFormRow(n + 1, now, input)`, where n is the old next id: same content, `replied = false`, different ids; the store stays valid |

## Left out

- The client (`client/src/**`) is not part of this model: it is React UI with hard-coded fallback data.
- `server/src/index.ts` is not part of this model: it is the tRPC router, HTTP server, CORS and environment setup. The model assumes what the router does: each mutation's input passes its schema before the handler runs.
- URL and e-mail syntax are zod's own grammars and are not visible here, so they are the parameters `isUrl` and `isEmail`.
- String length is the number of elements of the sequence. The model does not follow zod's UTF-16 code-unit counting.
- The clock is an integer `now` passed by the caller. `seedData` uses one `now` for every insert of a run; the database gives each insert its own `defaultNow()`.
- JavaScript numbers are Dafny integers. Non-integer numbers (for the ids and `category_id`, which the schemas do not require to be integers) are not modelled.
- Column width: the `integer` and `serial` columns are 32-bit in Postgres, but the schemas' `z.number().int()` accepts any integer, and the model stores unbounded integers. A display order, years of experience or team size above 2^31-1 passes validation and then makes the insert or update fail with a database error; the model stores it.
- Store.Store.CreateProject, Store.Store.CreateSkill, Store.Store.UpdateProject and Store.Store.UpdateProfessionalInfo: do not model that database range error. In the source, an `id` or `category_id` outside the 32-bit range also makes the query fail; the model answers `ProjectNotFound` or `CategoryNotFound` instead.
- Error texts are reduced to the `Error` constructors and their ids.
- `Store.Store.UpdateProject`: when the update carries only `id`, the set-object is empty. Drizzle decides what such an update does, so the contract states only that the table is unchanged and leaves the result open.
- Postgres's physical order: the tie order of reads is left open. "The first row" of the unordered select in `updateProfessionalInfo` is taken to be the first row in storage order. The model updates that row in place, so repeated `updateProfessionalInfo` calls always hit the same row. In Postgres an UPDATE writes a new row version, so the next unordered select (server/src/handlers/update_professional_info.ts:13-15, 22) can return a different row first; the model does not capture that.
- Concurrency is not modelled: calls are sequential, so the race between the category check and the skill insert in `createSkill` is not represented.
- `console.error` / `console.log` and the catch-and-rethrow blocks are not modelled: they only log and propagate errors.
- Database failures (connection loss, constraint errors other than the ones the handlers check) are not modelled.
- The `projectSchema`, `contactFormSchema` and other output schemas are represented only by the row datatypes; their bounds are not re-checked on output.
