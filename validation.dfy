/**
 * The input schemas of the API (server/src/schema.ts).
 *
 * Each schema becomes an input datatype and a validity predicate. A field the
 * schema marks `.optional()` is an `Option`: `None` is "absent". A field marked
 * `.nullable().optional()` is an `Option<Option<_>>`: `None` is absent,
 * `Some(None)` is an explicit null and `Some(Some(v))` a value. String length is
 * `|s|`. The URL and e-mail grammars are not modelled: they are the parameters
 * `isUrl` and `isEmail`.
 */
module Validation {
  import opened Common

  // ---------------------------------------------------------------- inputs

  /** createProjectInputSchema: every field required, the five URLs nullable. */
  datatype CreateProjectInput = CreateProjectInput(
    title: string,
    description: string,
    technologies: seq<string>,
    demoUrl: Option<string>,
    githubUrl: Option<string>,
    npmUrl: Option<string>,
    slidesUrl: Option<string>,
    imageUrl: Option<string>,
    displayOrder: int)

  /** updateProjectInputSchema: `id` required, everything else optional. */
  datatype UpdateProjectInput = UpdateProjectInput(
    id: int,
    title: Option<string>,
    description: Option<string>,
    technologies: Option<seq<string>>,
    demoUrl: Option<Option<string>>,
    githubUrl: Option<Option<string>>,
    npmUrl: Option<Option<string>>,
    slidesUrl: Option<Option<string>>,
    imageUrl: Option<Option<string>>,
    displayOrder: Option<int>)

  /** createContactFormInputSchema. */
  datatype CreateContactFormInput = CreateContactFormInput(
    name: string,
    email: string,
    subject: string,
    message: string)

  /** createSkillInputSchema. */
  datatype CreateSkillInput = CreateSkillInput(
    name: string,
    categoryId: int,
    proficiencyLevel: int,
    displayOrder: int)

  /** updateProfessionalInfoInputSchema: every field optional. */
  datatype UpdateProfessionalInfoInput = UpdateProfessionalInfoInput(
    fullName: Option<string>,
    title: Option<string>,
    bio: Option<string>,
    location: Option<string>,
    yearsExperience: Option<int>,
    currentPosition: Option<string>,
    currentCompany: Option<string>,
    teamSize: Option<Option<int>>,
    cvUrl: Option<Option<string>>)

  // ------------------------------------------------------------ field rules

  /** `z.string().min(lo).max(hi)`: both bounds inclusive. */
  predicate LengthWithin(s: string, lo: nat, hi: nat) {
    lo <= |s| <= hi
  }

  /** `z.string().url().nullable()`. */
  predicate NullableUrl(isUrl: string -> bool, u: Option<string>) {
    u.None? || isUrl(u.value)
  }

  /** `z.string().url().nullable().optional()`. */
  predicate OptionalNullableUrl(isUrl: string -> bool, u: Option<Option<string>>) {
    u.None? || NullableUrl(isUrl, u.value)
  }

  /** `z.string().max(hi).optional()`, with an optional lower bound as well. */
  predicate OptionalLengthWithin(s: Option<string>, lo: nat, hi: nat) {
    s.None? || LengthWithin(s.value, lo, hi)
  }

  /** `z.number().int().nonnegative().optional()`. */
  predicate OptionalNonNegative(n: Option<int>) {
    n.None? || n.value >= 0
  }

  // ---------------------------------------------------------------- schemas

  predicate ValidCreateProject(isUrl: string -> bool, i: CreateProjectInput) {
    && |i.title| >= 1
    && |i.technologies| >= 1
    && NullableUrl(isUrl, i.demoUrl)
    && NullableUrl(isUrl, i.githubUrl)
    && NullableUrl(isUrl, i.npmUrl)
    && NullableUrl(isUrl, i.slidesUrl)
    && NullableUrl(isUrl, i.imageUrl)
    && i.displayOrder >= 0
  }

  predicate ValidUpdateProject(isUrl: string -> bool, u: UpdateProjectInput) {
    && (u.title.Some? ==> |u.title.value| >= 1)
    && (u.technologies.Some? ==> |u.technologies.value| >= 1)
    && OptionalNullableUrl(isUrl, u.demoUrl)
    && OptionalNullableUrl(isUrl, u.githubUrl)
    && OptionalNullableUrl(isUrl, u.npmUrl)
    && OptionalNullableUrl(isUrl, u.slidesUrl)
    && OptionalNullableUrl(isUrl, u.imageUrl)
    && OptionalNonNegative(u.displayOrder)
  }

  predicate ValidCreateContactForm(isEmail: string -> bool, i: CreateContactFormInput) {
    && LengthWithin(i.name, 1, 100)
    && isEmail(i.email) && |i.email| <= 255
    && LengthWithin(i.subject, 1, 200)
    && LengthWithin(i.message, 10, 2000)
  }

  predicate ValidCreateSkill(i: CreateSkillInput) {
    && LengthWithin(i.name, 1, 100)
    && 1 <= i.proficiencyLevel <= 5
    && i.displayOrder >= 0
  }

  predicate ValidUpdateProfessionalInfo(isUrl: string -> bool, u: UpdateProfessionalInfoInput) {
    && OptionalLengthWithin(u.fullName, 1, 100)
    && OptionalLengthWithin(u.title, 1, 100)
    && OptionalLengthWithin(u.bio, 0, 2000)
    && OptionalLengthWithin(u.location, 0, 100)
    && OptionalNonNegative(u.yearsExperience)
    && OptionalLengthWithin(u.currentPosition, 0, 100)
    && OptionalLengthWithin(u.currentCompany, 0, 100)
    && (u.teamSize.None? || OptionalNonNegative(u.teamSize.value))
    && OptionalNullableUrl(isUrl, u.cvUrl)
  }

  // ------------------------------------------------- inputs built from others

  /** The update that supplies every field of `c` for project `id`. */
  function FullUpdate(id: int, c: CreateProjectInput): UpdateProjectInput {
    UpdateProjectInput(id, Some(c.title), Some(c.description), Some(c.technologies),
      Some(c.demoUrl), Some(c.githubUrl), Some(c.npmUrl), Some(c.slidesUrl), Some(c.imageUrl),
      Some(c.displayOrder))
  }

  /** The update that names project `id` and supplies nothing else. */
  function IdOnlyUpdate(id: int): UpdateProjectInput {
    UpdateProjectInput(id, None, None, None, None, None, None, None, None, None)
  }

  /** `{}` as a professional-info update. */
  const EmptyInfoUpdate := UpdateProfessionalInfoInput(None, None, None, None, None, None, None, None, None)

  // ----------------------------------------------------------------- lemmas

  /** The update schema applies the create schema's rule to every field it is given:
      a create input is valid exactly when the update supplying all its fields is. */
  lemma UpdateRulesMatchCreate(isUrl: string -> bool, id: int, c: CreateProjectInput)
    ensures ValidCreateProject(isUrl, c) <==> ValidUpdateProject(isUrl, FullUpdate(id, c))
  {
  }

  /** Explicit null is accepted for every project URL, and absence for every field. */
  lemma UpdateAcceptsNullUrlsAndAbsence(isUrl: string -> bool, id: int)
    ensures ValidUpdateProject(isUrl, IdOnlyUpdate(id))
    ensures ValidUpdateProject(isUrl, IdOnlyUpdate(id).(demoUrl := Some(None), githubUrl := Some(None),
      npmUrl := Some(None), slidesUrl := Some(None), imageUrl := Some(None)))
  {
  }

  /** The empty professional-info update is valid, and so are zero and explicit null. */
  lemma EmptyInfoUpdateIsValid(isUrl: string -> bool)
    ensures ValidUpdateProfessionalInfo(isUrl, EmptyInfoUpdate)
    ensures ValidUpdateProfessionalInfo(isUrl,
      EmptyInfoUpdate.(yearsExperience := Some(0), teamSize := Some(None), cvUrl := Some(None)))
    ensures ValidUpdateProfessionalInfo(isUrl,
      EmptyInfoUpdate.(yearsExperience := Some(0), teamSize := Some(Some(0))))
  {
  }

  /** Proficiency outside 1..5 is rejected; nothing clamps it into range. */
  lemma ProficiencyOutOfRangeIsRejected(i: CreateSkillInput)
    ensures ValidCreateSkill(i) ==> 1 <= i.proficiencyLevel <= 5
    ensures i.proficiencyLevel < 1 || i.proficiencyLevel > 5 ==> !ValidCreateSkill(i)
  {
  }

  /** Every bound of the contact schema is inclusive at both ends. */
  lemma ContactBoundsAreInclusive(isEmail: string -> bool, i: CreateContactFormInput)
    requires isEmail(i.email) && |i.email| == 255
    requires |i.name| == 100 && |i.subject| == 200 && (|i.message| == 10 || |i.message| == 2000)
    ensures ValidCreateContactForm(isEmail, i)
    ensures !ValidCreateContactForm(isEmail, i.(message := i.message[..9]))
    ensures !ValidCreateContactForm(isEmail, i.(name := []))
  {
  }
}
