/** The client's in-memory list of jobs and how it is rebuilt after each server call. */
module App {
  import opened Common

  /** A job as the client holds it: the key is absent until the server assigns one,
      dates are ISO strings and notes are optional. */
  datatype Job = Job(
    id: Option<int>,
    companyName: string,
    jobTitle: string,
    status: string,
    appliedDate: string,
    notes: Option<string>)

  /** After a create: the job the server returned goes at the end. */
  function AddJob(jobs: seq<Job>, newJob: Job): (r: seq<Job>)
    ensures |r| == |jobs| + 1
    ensures forall i :: 0 <= i < |jobs| ==> r[i] == jobs[i]
    ensures r[|jobs|] == newJob
  {
    jobs + [newJob]
  }

  /** After an update: every entry whose optional key equals the updated job's key is
      replaced by it, in place. Two absent keys are equal, as `undefined === undefined`. */
  function UpdateJob(jobs: seq<Job>, updatedJob: Job): (r: seq<Job>)
    ensures |r| == |jobs|
    ensures forall i :: 0 <= i < |jobs| && jobs[i].id == updatedJob.id ==> r[i] == updatedJob
    ensures forall i :: 0 <= i < |jobs| && jobs[i].id != updatedJob.id ==> r[i] == jobs[i]
  {
    if jobs == [] then []
    else [if jobs[0].id == updatedJob.id then updatedJob else jobs[0]] + UpdateJob(jobs[1..], updatedJob)
  }

  /** After a delete: every entry whose optional key equals `id` is dropped. The caller
      declares a number, but the list's Delete button can pass an absent key, and then
      every entry without a key is dropped, as `undefined !== undefined` is false. */
  function DeleteJob(jobs: seq<Job>, id: Option<int>): (r: seq<Job>)
    ensures |r| <= |jobs|
    ensures forall j :: j in r ==> j in jobs && j.id != id
    ensures forall j :: j in jobs && j.id != id ==> j in r
  {
    if jobs == [] then []
    else (if jobs[0].id != id then [jobs[0]] else []) + DeleteJob(jobs[1..], id)
  }

  /** The first entry carrying key `id`, if any. The client never looks a job up by key;
      this is the read-back through which the lemmas below state what each rebuild does
      to the entries under a key. */
  function FindById(jobs: seq<Job>, id: Option<int>): (r: Option<Job>)
    ensures r.Some? ==> r.value in jobs && r.value.id == id
    ensures r.None? <==> forall i :: 0 <= i < |jobs| ==> jobs[i].id != id
  {
    if jobs == [] then None
    else if jobs[0].id == id then Some(jobs[0])
    else FindById(jobs[1..], id)
  }

  /** Appending keeps every earlier lookup and finds the new job under a fresh key. */
  lemma {:induction false} AddJobThenFind(jobs: seq<Job>, newJob: Job, id: Option<int>)
    ensures FindById(AddJob(jobs, newJob), id) ==
      if FindById(jobs, id).Some? then FindById(jobs, id)
      else if newJob.id == id then Some(newJob)
      else None
  {
    if jobs != [] {
      assert AddJob(jobs, newJob)[1..] == AddJob(jobs[1..], newJob);
      AddJobThenFind(jobs[1..], newJob, id);
    }
  }

  /** Reading back the updated key yields the update when the key was present, and
      lookups of other keys are unaffected. */
  lemma {:induction false} UpdateJobThenFind(jobs: seq<Job>, updatedJob: Job, id: Option<int>)
    ensures FindById(UpdateJob(jobs, updatedJob), id) ==
      if id == updatedJob.id then
        (if FindById(jobs, id).Some? then Some(updatedJob) else None)
      else FindById(jobs, id)
  {
    if jobs != [] {
      UpdateJobThenFind(jobs[1..], updatedJob, id);
    }
  }

  /** An update whose key no entry carries leaves the list as it was. */
  lemma UpdateJobAbsentIsIdentity(jobs: seq<Job>, updatedJob: Job)
    requires forall i :: 0 <= i < |jobs| ==> jobs[i].id != updatedJob.id
    ensures UpdateJob(jobs, updatedJob) == jobs
  {
  }

  /** Repeating an update changes nothing further. */
  lemma UpdateJobIdempotent(jobs: seq<Job>, updatedJob: Job)
    ensures UpdateJob(UpdateJob(jobs, updatedJob), updatedJob) == UpdateJob(jobs, updatedJob)
  {
  }

  /** Deleting distributes over concatenation: the entries that stay keep their relative
      order. With the one-entry case below this pins `DeleteJob` down completely. */
  lemma {:induction false} DeleteJobConcat(a: seq<Job>, b: seq<Job>, id: Option<int>)
    ensures DeleteJob(a + b, id) == DeleteJob(a, id) + DeleteJob(b, id)
  {
    if a == [] {
      assert a + b == b;
    } else {
      assert (a + b)[1..] == a[1..] + b;
      DeleteJobConcat(a[1..], b, id);
    }
  }

  /** A single entry is kept exactly when it does not carry the deleted key. */
  lemma DeleteJobSingle(job: Job, id: Option<int>)
    ensures DeleteJob([job], id) == if job.id == id then [] else [job]
  {
    assert [job][1..] == [];
  }

  /** Deleting a key no entry carries is a no-op. */
  lemma {:induction false} DeleteJobAbsentIsIdentity(jobs: seq<Job>, id: Option<int>)
    requires forall i :: 0 <= i < |jobs| ==> jobs[i].id != id
    ensures DeleteJob(jobs, id) == jobs
  {
    if jobs != [] {
      DeleteJobAbsentIsIdentity(jobs[1..], id);
    }
  }

  /** Deleting twice is deleting once. */
  lemma DeleteJobIdempotent(jobs: seq<Job>, id: Option<int>)
    ensures DeleteJob(DeleteJob(jobs, id), id) == DeleteJob(jobs, id)
  {
    var r := DeleteJob(jobs, id);
    forall i | 0 <= i < |r| ensures r[i].id != id {
      assert r[i] in r;
    }
    DeleteJobAbsentIsIdentity(r, id);
  }

  /** Every copy of a kept job survives and every copy of a deleted one goes. */
  lemma {:induction false} DeleteJobCounts(jobs: seq<Job>, id: Option<int>, j: Job)
    ensures multiset(DeleteJob(jobs, id))[j] == if j.id == id then 0 else multiset(jobs)[j]
  {
    if jobs != [] {
      var head := if jobs[0].id != id then [jobs[0]] else [];
      DeleteJobCounts(jobs[1..], id, j);
      assert jobs == [jobs[0]] + jobs[1..];
      assert DeleteJob(jobs, id) == head + DeleteJob(jobs[1..], id);
      assert multiset(DeleteJob(jobs, id)) == multiset(head) + multiset(DeleteJob(jobs[1..], id));
      assert multiset(jobs) == multiset([jobs[0]]) + multiset(jobs[1..]);
    }
  }

  /** After a delete the key is gone from the list. */
  lemma DeleteJobThenFind(jobs: seq<Job>, id: Option<int>)
    ensures FindById(DeleteJob(jobs, id), id).None?
  {
    var r := DeleteJob(jobs, id);
    forall i | 0 <= i < |r| ensures r[i].id != id {
      assert r[i] in r;
    }
  }
}
