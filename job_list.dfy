/** The list component's two buttons: what each one hands to the page's callbacks. */
module JobListView {
  import opened Common
  import opened App

  /** The fixed status the Update button writes. */
  const UpdatedStatus := "Updated Status"

  /** The Update button: a copy of the job with its status replaced; the job itself is a
      value and is left as it was. */
  function HandleUpdate(job: Job): (updatedJob: Job)
    ensures updatedJob.status == UpdatedStatus
    ensures updatedJob.id == job.id
    ensures updatedJob.companyName == job.companyName && updatedJob.jobTitle == job.jobTitle
    ensures updatedJob.appliedDate == job.appliedDate && updatedJob.notes == job.notes
  {
    job.(status := UpdatedStatus)
  }

  /** The Delete button: forwards the job's key as it is. The list claims the key is
      present (`job.id!`), but that claim is not checked at run time, so an entry without
      a key forwards an absent key. */
  function HandleDelete(job: Job): (jobId: Option<int>)
    ensures jobId == job.id
  {
    job.id
  }

  /** Pressing Update on entry `i` whose key no other entry shares, and reconciling the
      list, changes exactly that entry's status. */
  lemma UpdateButtonChangesOneStatus(jobs: seq<Job>, i: nat)
    requires i < |jobs|
    requires forall k :: 0 <= k < |jobs| && k != i ==> jobs[k].id != jobs[i].id
    ensures UpdateJob(jobs, HandleUpdate(jobs[i])) == jobs[i := jobs[i].(status := UpdatedStatus)]
  {
    var u := HandleUpdate(jobs[i]);
    var r := UpdateJob(jobs, u);
    var expected := jobs[i := jobs[i].(status := UpdatedStatus)];
    forall k | 0 <= k < |jobs| ensures r[k] == expected[k] {
      if k != i {
        assert jobs[k].id != u.id;
      }
    }
  }

  /** Pressing Delete on an entry and reconciling the list removes that entry and every
      other entry with the same key, and keeps every entry with another key. For an entry
      without a key this removes every entry without a key. */
  lemma DeleteButtonRemovesEntry(jobs: seq<Job>, i: nat)
    requires i < |jobs|
    ensures jobs[i] !in DeleteJob(jobs, HandleDelete(jobs[i]))
    ensures forall j :: j in DeleteJob(jobs, HandleDelete(jobs[i])) ==> j.id != jobs[i].id
    ensures forall j :: j in jobs && j.id != jobs[i].id ==> j in DeleteJob(jobs, HandleDelete(jobs[i]))
  {
  }

  /** The entries of `jobs` that carry a key, in their order. */
  function KeyedOnly(jobs: seq<Job>): (r: seq<Job>)
    ensures forall j :: j in r <==> j in jobs && j.id.Some?
  {
    if jobs == [] then [] else (if jobs[0].id.Some? then [jobs[0]] else []) + KeyedOnly(jobs[1..])
  }

  /** Pressing Delete on an entry without a key keeps exactly the entries that have one,
      in their order. */
  lemma {:induction false} DeleteKeylessKeepsKeyed(jobs: seq<Job>)
    ensures DeleteJob(jobs, None) == KeyedOnly(jobs)
  {
    if jobs != [] {
      DeleteKeylessKeepsKeyed(jobs[1..]);
    }
  }
}
