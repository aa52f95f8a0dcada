/** The server's `JobApplication` entity and the constraints its data annotations declare. */
module JobApplicationModel {
  import opened Common

  const CompanyNameMaxLength: nat := 100
  const JobTitleMaxLength: nat := 100
  const StatusMaxLength: nat := 50
  const NotesMaxLength: nat := 500

  /** One row of the JobApplications table. `id` is the key; `status` is free text;
      `notes` is the only nullable column. */
  datatype JobApplication = JobApplication(
    id: int,
    companyName: string,
    jobTitle: string,
    status: string,
    appliedDate: DateTime,
    notes: Option<string>)

  /** `[MaxLength(n)]` on a nullable string: null passes, otherwise at most `n` characters. */
  predicate WithinMaxLength(s: Option<string>, n: nat) {
    s.None? || |s.value| <= n
  }

  /** The model is valid when every annotated property meets its attributes.
      `Id` and `AppliedDate` carry no validation attribute. */
  predicate IsValid(job: JobApplication) {
    && Required(job.companyName) && WithinMaxLength(Some(job.companyName), CompanyNameMaxLength)
    && Required(job.jobTitle) && WithinMaxLength(Some(job.jobTitle), JobTitleMaxLength)
    && Required(job.status) && WithinMaxLength(Some(job.status), StatusMaxLength)
    && WithinMaxLength(job.notes, NotesMaxLength)
  }

  /** What validity means field by field: the three required texts are non-empty, hold a
      character other than white space and respect their bounds; notes may be absent. */
  lemma ValidBounds(job: JobApplication)
    ensures IsValid(job) <==>
      && 1 <= |job.companyName| <= 100 && !Blank(job.companyName)
      && 1 <= |job.jobTitle| <= 100 && !Blank(job.jobTitle)
      && 1 <= |job.status| <= 50 && !Blank(job.status)
      && (job.notes.None? || |job.notes.value| <= 500)
  {
  }

  /** Validity through the trimmed text: each required field keeps a character once
      trimmed and stays within its bound; notes may be absent. */
  lemma ValidIffTrimmed(job: JobApplication)
    ensures IsValid(job) <==>
      && Trim(job.companyName) != "" && |job.companyName| <= CompanyNameMaxLength
      && Trim(job.jobTitle) != "" && |job.jobTitle| <= JobTitleMaxLength
      && Trim(job.status) != "" && |job.status| <= StatusMaxLength
      && (job.notes.None? || |job.notes.value| <= NotesMaxLength)
  {
    TrimEmptyIffBlank(job.companyName);
    TrimEmptyIffBlank(job.jobTitle);
    TrimEmptyIffBlank(job.status);
  }

  /** Validity never depends on the key nor on the applied date. */
  lemma ValidityIgnoresIdAndDate(job: JobApplication, id: int, date: DateTime)
    ensures IsValid(job.(id := id, appliedDate := date)) == IsValid(job)
  {
  }

  /** A required field made of white space only is refused whatever its length. */
  lemma BlankCompanyNameInvalid(job: JobApplication)
    requires Trim(job.companyName) == ""
    ensures !IsValid(job)
  {
    TrimEmptyIffBlank(job.companyName);
  }
}
