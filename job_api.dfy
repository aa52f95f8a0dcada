/** The REST controller over the JobApplications table. The table is a map from key to
    row, changed in place by the controller's actions; the database's identity column is
    the counter `nextId`. */
module JobApi {
  import opened Common
  import opened JobApplicationModel

  /** The action results the controller can produce. `ValidationProblem` is the automatic
      400 that `[ApiController]` returns for a body that fails validation before the action
      runs; `ServerError` is the database refusing an explicit value for the identity key. */
  datatype Outcome =
    | Ok(body: JobApplication)
    | Created(routeId: int, body: JobApplication)
    | NoContent
    | BadRequest
    | ValidationProblem
    | NotFound
    | ServerError

  /** The HTTP status code each result is sent with. */
  function StatusCode(o: Outcome): (code: int)
    ensures 200 <= code < 300 <==> (o.Ok? || o.Created? || o.NoContent?)
    ensures code == 400 <==> (o.BadRequest? || o.ValidationProblem?)
    ensures code == 404 <==> o.NotFound?
  {
    match o
    case Ok(_) => 200
    case Created(_, _) => 201
    case NoContent => 204
    case BadRequest => 400
    case ValidationProblem => 400
    case NotFound => 404
    case ServerError => 500
  }

  class JobApplicationsController {
    /** The JobApplications table, keyed by `Id`: at most one row per key. */
    var table: map<int, JobApplication>
    /** The next value the identity column hands out. */
    var nextId: int

    /** Every row is stored under its own key, passed validation on the way in, and has a
        key the identity column already handed out. */
    ghost predicate Valid()
      reads this
    {
      && 1 <= nextId
      && forall k :: k in table ==> table[k].id == k && IsValid(table[k]) && 1 <= k < nextId
    }

    /** An empty table whose identity column starts at 1. */
    constructor ()
      ensures Valid() && table == map[] && nextId == 1
    {
      table := map[];
      nextId := 1;
    }

    /** GET api/JobApplications: every stored row, each once, in the order the database
        enumerates them. */
    method GetAll() returns (rows: seq<JobApplication>)
      requires Valid()
      ensures |rows| == |table.Keys|
      ensures forall i :: 0 <= i < |rows| ==> rows[i].id in table && table[rows[i].id] == rows[i]
      ensures forall k :: k in table ==> table[k] in rows
      ensures forall i, j :: 0 <= i < j < |rows| ==> rows[i].id != rows[j].id
    {
      rows := [];
      var pending := table.Keys;
      while pending != {}
        invariant pending <= table.Keys
        invariant |rows| + |pending| == |table.Keys|
        invariant forall i :: 0 <= i < |rows| ==> rows[i].id in table && rows[i].id !in pending && table[rows[i].id] == rows[i]
        invariant forall k :: k in table && k !in pending ==> table[k] in rows
        invariant forall i, j :: 0 <= i < j < |rows| ==> rows[i].id != rows[j].id
      {
        NonEmptyHasMember(pending);
        var key :| key in pending;
        assert |pending - {key}| == |pending| - 1;
        rows := rows + [table[key]];
        pending := pending - {key};
      }
    }

    /** GET api/JobApplications/{id}: the row under `id`, or NotFound when there is none. */
    method Get(id: int) returns (r: Outcome)
      requires Valid()
      ensures r.NotFound? <==> id !in table
      ensures id in table ==> r == Ok(table[id]) && r.body.id == id
      ensures r.Ok? || r.NotFound?
      ensures StatusCode(r) == 200 || StatusCode(r) == 404
    {
      if id !in table {
        return NotFound;
      }
      return Ok(table[id]);
    }

    /** POST api/JobApplications: a valid body with the default key 0 is inserted under the
        next identity value and answered with Created pointing at that key. */
    method Create(job: JobApplication) returns (r: Outcome)
      requires Valid()
      modifies this
      ensures Valid()
      ensures StatusCode(r) == 201 || StatusCode(r) == 400 || StatusCode(r) == 500
      ensures !IsValid(job) ==> r == ValidationProblem && table == old(table) && nextId == old(nextId)
      ensures IsValid(job) && job.id != 0 ==>
        r == ServerError && table == old(table) && nextId == old(nextId)
      ensures IsValid(job) && job.id == 0 ==>
        var created := job.(id := old(nextId));
        && old(nextId) !in old(table)
        && r == Created(old(nextId), created)
        && table == old(table)[old(nextId) := created]
        && nextId == old(nextId) + 1
    {
      if !IsValid(job) {
        return ValidationProblem;
      }
      if job.id != 0 {
        return ServerError;
      }
      var created := job.(id := nextId);
      table := table[nextId := created];
      r := Created(nextId, created);
      nextId := nextId + 1;
    }

    /** PUT api/JobApplications/{id}: replaces the row under `id` with `job`. */
    method Update(id: int, job: JobApplication) returns (r: Outcome)
      requires Valid()
      modifies this
      ensures Valid() && nextId == old(nextId)
      ensures StatusCode(r) == 204 || StatusCode(r) == 400 || StatusCode(r) == 404
      ensures !IsValid(job) ==> r == ValidationProblem && table == old(table)
      ensures IsValid(job) && id != job.id ==> r == BadRequest && table == old(table)
      ensures IsValid(job) && id == job.id && id !in old(table) ==> r == NotFound && table == old(table)
      ensures IsValid(job) && id == job.id && id in old(table) ==>
        r == NoContent && table == old(table)[id := job]
    {
      if !IsValid(job) {
        return ValidationProblem;
      }
      if id != job.id {
        return BadRequest;
      }
      if id !in table {
        return NotFound;
      }
      table := table[id := job];
      return NoContent;
    }

    /** DELETE api/JobApplications/{id}: removes the row under `id`. */
    method Delete(id: int) returns (r: Outcome)
      requires Valid()
      modifies this
      ensures Valid() && nextId == old(nextId)
      ensures StatusCode(r) == 204 || StatusCode(r) == 404
      ensures id !in old(table) ==> r == NotFound && table == old(table)
      ensures id in old(table) ==> r == NoContent && table == old(table) - {id}
    {
      if id !in table {
        return NotFound;
      }
      table := table - {id};
      return NoContent;
    }
  }

  /** Creating a valid draft on an empty table and reading its key back returns the
      draft under the first identity value. */
  method CreateThenGet(job: JobApplication) returns (created: Outcome, read: Outcome)
    requires IsValid(job) && job.id == 0
    ensures created == Created(1, job.(id := 1))
    ensures read == Ok(job.(id := 1))
  {
    var controller := new JobApplicationsController();
    created := controller.Create(job);
    read := controller.Get(created.routeId);
  }

  /** On any consistent table, creating a valid draft and reading back the key named by
      Created returns the draft stored under that key. */
  method CreateThenRead(c: JobApplicationsController, job: JobApplication)
    returns (created: Outcome, read: Outcome)
    requires c.Valid() && IsValid(job) && job.id == 0
    modifies c
    ensures c.Valid()
    ensures created.Created? && created.body == job.(id := created.routeId)
    ensures created.routeId !in old(c.table)
    ensures read == Ok(created.body)
  {
    created := c.Create(job);
    read := c.Get(created.routeId);
  }

  /** Deleting a created row and deleting it again: the second call finds nothing. */
  method DeleteTwice(job: JobApplication) returns (first: Outcome, second: Outcome)
    requires IsValid(job) && job.id == 0
    ensures first == NoContent && second == NotFound
  {
    var controller := new JobApplicationsController();
    var created := controller.Create(job);
    first := controller.Delete(created.routeId);
    second := controller.Delete(created.routeId);
  }
}
