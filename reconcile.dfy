/** How the client's list tracks the server's table. The client rebuilds its list from
    each call's result without re-reading the table. These lemmas show that, once the
    list and the table agree on which keys exist, each rebuild keeps them agreeing, as
    long as each call resolves before the next one starts. An update or a delete keeps
    them agreeing whatever the server answered; a create does so on its Created answer. */
module Reconcile {
  import opened Common
  import opened App

  /** The list holds one entry per stored key and nothing else. */
  ghost predicate Mirrors(jobs: seq<Job>, keys: set<int>) {
    && (forall i :: 0 <= i < |jobs| ==> jobs[i].id.Some? && jobs[i].id.value in keys)
    && (forall k :: k in keys ==> exists i :: 0 <= i < |jobs| && jobs[i].id == Some(k))
    && (forall i, j :: 0 <= i < j < |jobs| ==> jobs[i].id != jobs[j].id)
  }

  /** A create inserts a fresh key and the client appends the returned job carrying it. */
  lemma CreateKeepsMirror(jobs: seq<Job>, keys: set<int>, newJob: Job, newId: int)
    requires Mirrors(jobs, keys)
    requires newId !in keys && newJob.id == Some(newId)
    ensures Mirrors(AddJob(jobs, newJob), keys + {newId})
  {
    var r := AddJob(jobs, newJob);
    forall k | k in keys + {newId} ensures exists i :: 0 <= i < |r| && r[i].id == Some(k) {
      if k == newId {
        assert r[|jobs|].id == Some(k);
      } else {
        var i :| 0 <= i < |jobs| && jobs[i].id == Some(k);
        assert r[i].id == Some(k);
      }
    }
  }

  /** An update never changes the table's keys (it replaces a row or answers NotFound or
      BadRequest), and the client's replacement keeps the list's keys too. */
  lemma UpdateKeepsMirror(jobs: seq<Job>, keys: set<int>, updatedJob: Job)
    requires Mirrors(jobs, keys)
    ensures Mirrors(UpdateJob(jobs, updatedJob), keys)
  {
    var r := UpdateJob(jobs, updatedJob);
    forall k | k in keys ensures exists i :: 0 <= i < |r| && r[i].id == Some(k) {
      var i :| 0 <= i < |jobs| && jobs[i].id == Some(k);
      assert r[i].id == Some(k);
    }
  }

  /** A delete removes the key if it is stored and answers NotFound otherwise; the client
      filters the key out either way. */
  lemma {:induction false} DeleteKeepsMirror(jobs: seq<Job>, keys: set<int>, id: int)
    requires Mirrors(jobs, keys)
    ensures Mirrors(DeleteJob(jobs, Some(id)), keys - {id})
    decreases |jobs|
  {
    if jobs != [] {
      var k0 := jobs[0].id.value;
      var tailKeys := keys - {k0};
      MirrorTail(jobs, keys);
      DeleteKeepsMirror(jobs[1..], tailKeys, id);
      var rest := DeleteJob(jobs[1..], Some(id));
      if k0 == id {
        assert keys - {id} == tailKeys - {id};
      } else {
        MirrorCons(jobs[0], rest, tailKeys - {id});
        assert (tailKeys - {id}) + {k0} == keys - {id};
      }
    }
  }

  /** Dropping the first entry of a mirroring list drops its key. */
  lemma MirrorTail(jobs: seq<Job>, keys: set<int>)
    requires Mirrors(jobs, keys) && jobs != []
    ensures Mirrors(jobs[1..], keys - {jobs[0].id.value})
  {
    var tail := jobs[1..];
    forall k | k in keys - {jobs[0].id.value}
      ensures exists i :: 0 <= i < |tail| && tail[i].id == Some(k)
    {
      var i :| 0 <= i < |jobs| && jobs[i].id == Some(k);
      assert tail[i - 1].id == Some(k);
    }
  }

  /** Putting an entry with a fresh key in front of a mirroring list adds its key. */
  lemma MirrorCons(job: Job, rest: seq<Job>, keys: set<int>)
    requires Mirrors(rest, keys) && job.id.Some? && job.id.value !in keys
    ensures Mirrors([job] + rest, keys + {job.id.value})
  {
    var r := [job] + rest;
    forall k | k in keys + {job.id.value} ensures exists i :: 0 <= i < |r| && r[i].id == Some(k) {
      if k == job.id.value {
        assert r[0].id == Some(k);
      } else {
        var i :| 0 <= i < |rest| && rest[i].id == Some(k);
        assert r[i + 1].id == Some(k);
      }
    }
  }
}
