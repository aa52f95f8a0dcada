/** The client's "Add a Job Application" form: five text states, a submit that hands a
    draft to the page and clears the inputs. */
module JobFormState {
  import opened Common
  import opened App

  class JobForm {
    var companyName: string
    var jobTitle: string
    var status: string
    var appliedDate: string
    var notes: string
    /** Every job handed to `onJobAdded`, in call order. */
    ghost var added: seq<Job>

    constructor ()
      ensures companyName == "" && jobTitle == "" && status == ""
      ensures appliedDate == "" && notes == ""
      ensures added == []
    {
      companyName, jobTitle, status, appliedDate, notes := "", "", "", "", "";
      added := [];
    }

    /** The draft the inputs describe: no key, and the notes text always present. */
    function Draft(): (job: Job)
      reads this
      ensures job.id == None && job.notes == Some(notes)
      ensures job.companyName == companyName && job.jobTitle == jobTitle
      ensures job.status == status && job.appliedDate == appliedDate
    {
      Job(None, companyName, jobTitle, status, appliedDate, Some(notes))
    }

    method SetCompanyName(value: string)
      modifies this
      ensures companyName == value
      ensures jobTitle == old(jobTitle) && status == old(status)
      ensures appliedDate == old(appliedDate) && notes == old(notes) && added == old(added)
    {
      companyName := value;
    }

    method SetJobTitle(value: string)
      modifies this
      ensures jobTitle == value
      ensures companyName == old(companyName) && status == old(status)
      ensures appliedDate == old(appliedDate) && notes == old(notes) && added == old(added)
    {
      jobTitle := value;
    }

    method SetStatus(value: string)
      modifies this
      ensures status == value
      ensures companyName == old(companyName) && jobTitle == old(jobTitle)
      ensures appliedDate == old(appliedDate) && notes == old(notes) && added == old(added)
    {
      status := value;
    }

    method SetAppliedDate(value: string)
      modifies this
      ensures appliedDate == value
      ensures companyName == old(companyName) && jobTitle == old(jobTitle)
      ensures status == old(status) && notes == old(notes) && added == old(added)
    {
      appliedDate := value;
    }

    method SetNotes(value: string)
      modifies this
      ensures notes == value
      ensures companyName == old(companyName) && jobTitle == old(jobTitle)
      ensures status == old(status) && appliedDate == old(appliedDate) && added == old(added)
    {
      notes := value;
    }

    /** Submit: `onJobAdded` is called once with the draft, then all five inputs are
        cleared. */
    method HandleSubmit() returns (newJob: Job)
      modifies this
      ensures newJob == old(Draft())
      ensures added == old(added) + [newJob]
      ensures companyName == "" && jobTitle == "" && status == ""
      ensures appliedDate == "" && notes == ""
    {
      newJob := Draft();
      added := added + [newJob];
      companyName := "";
      jobTitle := "";
      status := "";
      appliedDate := "";
      notes := "";
    }
  }

  /** Filling in four inputs and calling the submit handler emits exactly those values
      with no key and notes present even when left blank; calling the handler again right
      away emits an empty draft. */
  method FillAndCallHandlerTwice(company: string, title: string, status: string, date: string)
    returns (first: Job, second: Job)
    ensures first == Job(None, company, title, status, date, Some(""))
    ensures second == Job(None, "", "", "", "", Some(""))
  {
    var form := new JobForm();
    form.SetCompanyName(company);
    form.SetJobTitle(title);
    form.SetStatus(status);
    form.SetAppliedDate(date);
    first := form.HandleSubmit();
    second := form.HandleSubmit();
  }
}
