/**
 * Partial updates (server/src/handlers/update_project.ts,
 * server/src/handlers/update_professional_info.ts).
 *
 * A field is written only when the input carries it (`!== undefined`). For a
 * nullable column the input field is an `Option<Option<_>>`: `None` leaves the
 * column alone, `Some(None)` clears it, `Some(Some(v))` writes `v`. The functions
 * below are the row each update leaves behind; the handlers in module Store build
 * it field by field and are proved to produce exactly this row.
 */
module Merge {
  import opened Common
  import opened Validation
  import opened Tables
  import opened Reads

  // ------------------------------------------------------------- projects

  /** The project row after `update projects set <supplied fields> where id = u.id`. */
  function MergeProject(p: Project, u: UpdateProjectInput): (r: Project)
    ensures r.id == p.id && r.createdAt == p.createdAt
  {
    p.(title := u.title.GetOr(p.title),
       description := u.description.GetOr(p.description),
       technologies := u.technologies.GetOr(p.technologies),
       demoUrl := u.demoUrl.GetOr(p.demoUrl),
       githubUrl := u.githubUrl.GetOr(p.githubUrl),
       npmUrl := u.npmUrl.GetOr(p.npmUrl),
       slidesUrl := u.slidesUrl.GetOr(p.slidesUrl),
       imageUrl := u.imageUrl.GetOr(p.imageUrl),
       displayOrder := u.displayOrder.GetOr(p.displayOrder))
  }

  /** The update carries at least one field besides `id`. */
  predicate HasProjectChanges(u: UpdateProjectInput) {
    || u.title.Some? || u.description.Some? || u.technologies.Some?
    || u.demoUrl.Some? || u.githubUrl.Some? || u.npmUrl.Some? || u.slidesUrl.Some? || u.imageUrl.Some?
    || u.displayOrder.Some?
  }

  /** Absent fields keep their value, supplied ones take the supplied value; a supplied
      `technologies` list replaces the old one as given. */
  lemma MergeWritesExactlySuppliedFields(p: Project, u: UpdateProjectInput)
    ensures var r := MergeProject(p, u);
      && (if u.title.Some? then r.title == u.title.value else r.title == p.title)
      && (if u.description.Some? then r.description == u.description.value else r.description == p.description)
      && (if u.technologies.Some? then r.technologies == u.technologies.value else r.technologies == p.technologies)
      && (if u.demoUrl.Some? then r.demoUrl == u.demoUrl.value else r.demoUrl == p.demoUrl)
      && (if u.githubUrl.Some? then r.githubUrl == u.githubUrl.value else r.githubUrl == p.githubUrl)
      && (if u.npmUrl.Some? then r.npmUrl == u.npmUrl.value else r.npmUrl == p.npmUrl)
      && (if u.slidesUrl.Some? then r.slidesUrl == u.slidesUrl.value else r.slidesUrl == p.slidesUrl)
      && (if u.imageUrl.Some? then r.imageUrl == u.imageUrl.value else r.imageUrl == p.imageUrl)
      && (if u.displayOrder.Some? then r.displayOrder == u.displayOrder.value else r.displayOrder == p.displayOrder)
  {
  }

  /** Explicit nulls on the URL fields clear them and leave every other column alone. */
  lemma NullClearsUrls(p: Project, id: int)
    ensures var r := MergeProject(p, IdOnlyUpdate(id).(demoUrl := Some(None), githubUrl := Some(None),
      npmUrl := Some(None), slidesUrl := Some(None), imageUrl := Some(None)));
      r == p.(demoUrl := None, githubUrl := None, npmUrl := None, slidesUrl := None, imageUrl := None)
  {
  }

  /** Only the title given: everything else, `created_at` included, is untouched. */
  lemma TitleOnlyUpdate(p: Project, title: string)
    ensures MergeProject(p, IdOnlyUpdate(p.id).(title := Some(title))) == p.(title := title)
  {
  }

  /** An update carrying no field changes nothing. */
  lemma MergeOfNothingIsIdentity(p: Project, u: UpdateProjectInput)
    requires !HasProjectChanges(u)
    ensures MergeProject(p, u) == p
  {
  }

  /** Supplying every field reaches any row with the same id and timestamp: the update
      built from a create input is the inverse of reading the row's content. */
  lemma FullUpdateReachesAnyContent(p: Project, c: CreateProjectInput)
    ensures MergeProject(p, FullUpdate(p.id, c)) == ProjectRow(p.id, p.createdAt, c)
  {
  }

  /** Applying the same update twice is the same as applying it once. */
  lemma MergeProjectIdempotent(p: Project, u: UpdateProjectInput)
    ensures MergeProject(MergeProject(p, u), u) == MergeProject(p, u)
  {
  }

  /** A valid update keeps a row whose content passes the create schema inside that
      schema: title, technologies, the five URLs and display order. */
  lemma MergeKeepsProjectRules(isUrl: string -> bool, p: Project, u: UpdateProjectInput)
    requires ValidCreateProject(isUrl, ProjectContent(p))
    requires ValidUpdateProject(isUrl, u)
    ensures ValidCreateProject(isUrl, ProjectContent(MergeProject(p, u)))
  {
  }

  // ---------------------------------------------------- professional info

  /** The professional-info row after the update: `updated_at` is always now, the
      supplied fields are written, the rest kept. */
  function MergeInfo(p: ProfessionalInfo, u: UpdateProfessionalInfoInput, now: int): (r: ProfessionalInfo)
    ensures r.id == p.id && r.updatedAt == now
  {
    p.(fullName := u.fullName.GetOr(p.fullName),
       title := u.title.GetOr(p.title),
       bio := u.bio.GetOr(p.bio),
       location := u.location.GetOr(p.location),
       yearsExperience := u.yearsExperience.GetOr(p.yearsExperience),
       currentPosition := u.currentPosition.GetOr(p.currentPosition),
       currentCompany := u.currentCompany.GetOr(p.currentCompany),
       teamSize := u.teamSize.GetOr(p.teamSize),
       cvUrl := u.cvUrl.GetOr(p.cvUrl),
       updatedAt := now)
  }

  /** Absent fields keep their value; supplied ones, zero and explicit null included,
      are written. */
  lemma MergeInfoWritesExactlySuppliedFields(p: ProfessionalInfo, u: UpdateProfessionalInfoInput, now: int)
    ensures var r := MergeInfo(p, u, now);
      && (if u.fullName.Some? then r.fullName == u.fullName.value else r.fullName == p.fullName)
      && (if u.title.Some? then r.title == u.title.value else r.title == p.title)
      && (if u.bio.Some? then r.bio == u.bio.value else r.bio == p.bio)
      && (if u.location.Some? then r.location == u.location.value else r.location == p.location)
      && (if u.yearsExperience.Some? then r.yearsExperience == u.yearsExperience.value
          else r.yearsExperience == p.yearsExperience)
      && (if u.currentPosition.Some? then r.currentPosition == u.currentPosition.value
          else r.currentPosition == p.currentPosition)
      && (if u.currentCompany.Some? then r.currentCompany == u.currentCompany.value
          else r.currentCompany == p.currentCompany)
      && (if u.teamSize.Some? then r.teamSize == u.teamSize.value else r.teamSize == p.teamSize)
      && (if u.cvUrl.Some? then r.cvUrl == u.cvUrl.value else r.cvUrl == p.cvUrl)
  {
  }

  /** `{}` only touches the timestamp, which moves forward when the clock has. */
  lemma EmptyInfoUpdateOnlyTouches(p: ProfessionalInfo, now: int)
    ensures MergeInfo(p, EmptyInfoUpdate, now) == p.(updatedAt := now)
    ensures now > p.updatedAt ==> MergeInfo(p, EmptyInfoUpdate, now).updatedAt > p.updatedAt
  {
  }

  /** Zero is a value, not an absence; explicit null clears team size and CV link. */
  lemma ZeroAndNullAreWritten(p: ProfessionalInfo, now: int)
    ensures var r := MergeInfo(p, EmptyInfoUpdate.(yearsExperience := Some(0), teamSize := Some(Some(0))), now);
      r.yearsExperience == 0 && r.teamSize == Some(0)
    ensures var r := MergeInfo(p, EmptyInfoUpdate.(teamSize := Some(None), cvUrl := Some(None)), now);
      r == p.(teamSize := None, cvUrl := None, updatedAt := now)
  {
  }

  /** A valid update keeps years of experience and team size non-negative. */
  lemma MergeInfoKeepsCountsNonNegative(isUrl: string -> bool, p: ProfessionalInfo,
                                        u: UpdateProfessionalInfoInput, now: int)
    requires p.yearsExperience >= 0 && (p.teamSize.Some? ==> p.teamSize.value >= 0)
    requires ValidUpdateProfessionalInfo(isUrl, u)
    ensures var r := MergeInfo(p, u, now);
      r.yearsExperience >= 0 && (r.teamSize.Some? ==> r.teamSize.value >= 0)
  {
  }

  // ------------------------------------- the updated row versus the row read

  /** The update writes the first stored row; the read returns the latest. When the
      clock is ahead of every other row, the row just updated is the one read back. */
  lemma UpdatedRowIsReadWhenClockIsAhead(rows: seq<ProfessionalInfo>, u: UpdateProfessionalInfoInput, now: int)
    requires rows != []
    requires forall i :: 1 <= i < |rows| ==> rows[i].updatedAt < now
    ensures GetProfessionalInfo(rows[0 := MergeInfo(rows[0], u, now)]) == Some(MergeInfo(rows[0], u, now))
  {
    var after := rows[0 := MergeInfo(rows[0], u, now)];
    Listing.LatestIsStrictMaximum(after, UpdatedAt, 0);
  }

  /** With two rows, the read can return a row the update did not touch: here the
      second row carries a later timestamp than the update's clock. */
  lemma UpdatedRowNeedNotBeRead()
    ensures var a := ProfessionalInfo(1, "A", "T", "", "", 1, "", "", None, None, 0);
      var b := ProfessionalInfo(2, "B", "T", "", "", 2, "", "", None, None, 10);
      var after := [a, b][0 := MergeInfo(a, EmptyInfoUpdate, 5)];
      GetProfessionalInfo(after) == Some(b)
  {
    var a := ProfessionalInfo(1, "A", "T", "", "", 1, "", "", None, None, 0);
    var b := ProfessionalInfo(2, "B", "T", "", "", 2, "", "", None, None, 10);
    var after := [a, b][0 := MergeInfo(a, EmptyInfoUpdate, 5)];
    Listing.LatestIsStrictMaximum(after, UpdatedAt, 1);
  }
}
