/** The admin job handlers (app/api/admin/jobs/route.ts): listing all jobs
    and creating one. Authentication (`requireAuth`) is an input: the
    claims of a verified session token, or None. The job table is a
    sequence; the database's id and creation time for a new job are
    parameters. */
module JobsApi {
  import opened Common
  import opened Responses

  /** A stored job. `jobType` is the record's `type` field. */
  datatype Job = Job(
    id: string, title: string, description: string, whoWeAreLookingFor: string,
    howToApply: string, location: string, salary: Option<string>, jobType: string,
    status: string, createdAt: int)

  /** The fields of a create request; None when absent from the JSON body. */
  datatype JobBody = JobBody(
    title: Option<string>, description: Option<string>, whoWeAreLookingFor: Option<string>,
    howToApply: Option<string>, location: Option<string>, salary: Option<string>,
    jobType: Option<string>, status: Option<string>)

  const Unauthorized := "Unauthorized"
  const MissingFields := "Missing required fields"
  const CreateFailed := "Failed to create job"

  /** Jobs listed newest first. */
  ghost predicate NewestFirst(jobs: seq<Job>)
  {
    forall i, j :: 0 <= i < j < |jobs| ==> jobs[i].createdAt >= jobs[j].createdAt
  }

  /** Insert a job into a newest-first list, after every job at least as new. */
  function InsertNewest(job: Job, jobs: seq<Job>): (r: seq<Job>)
    requires NewestFirst(jobs)
    ensures NewestFirst(r)
    ensures multiset(r) == multiset(jobs) + multiset{job}
    ensures |r| > 0 && (r[0] == job || (|jobs| > 0 && r[0] == jobs[0]))
    decreases |jobs|
  {
    if jobs == [] || job.createdAt >= jobs[0].createdAt then [job] + jobs
    else
      assert jobs == [jobs[0]] + jobs[1..];
      [jobs[0]] + InsertNewest(job, jobs[1..])
  }

  /** The database's `orderBy: { createdAt: "desc" }`. */
  function SortNewestFirst(jobs: seq<Job>): (r: seq<Job>)
    ensures NewestFirst(r)
    ensures multiset(r) == multiset(jobs)
    decreases |jobs|
  {
    if jobs == [] then []
    else
      assert jobs == [jobs[0]] + jobs[1..];
      InsertNewest(jobs[0], SortNewestFirst(jobs[1..]))
  }

  /** `GET`: 401 without a verified session; otherwise every job, and no
      other, newest first. */
  function ListJobs(auth: Option<Payload>, jobs: seq<Job>): (r: Reply<seq<Job>>)
    ensures auth.None? ==> r == Failure(401, Unauthorized)
    ensures auth.Some? ==>
      r.Success? && r.status == 200 && NewestFirst(r.value) && multiset(r.value) == multiset(jobs)
  {
    if auth.None? then Failure(401, Unauthorized)
    else Success(200, SortNewestFirst(jobs))
  }

  /** The five fields a job cannot be created without. */
  predicate HasRequiredFields(b: JobBody)
  {
    Truthy(b.title) && Truthy(b.description) && Truthy(b.whoWeAreLookingFor)
      && Truthy(b.howToApply) && Truthy(b.location)
  }

  /** `value || fallback` for an optional string. */
  function OrElse(v: Option<string>, fallback: string): string
  {
    if Truthy(v) then v.value else fallback
  }

  /** The record `prisma.job.create` is given: the required fields as sent,
      and defaults for salary (null), type ("full-time") and status ("active").
      A stored job therefore never has an empty text field, and its salary is
      either absent or non-empty. */
  function NewJob(b: JobBody, id: string, now: int): (job: Job)
    requires HasRequiredFields(b)
    ensures job.id == id && job.createdAt == now
    ensures job.title != "" && job.description != "" && job.whoWeAreLookingFor != ""
    ensures job.howToApply != "" && job.location != ""
    ensures job.jobType != "" && job.status != ""
    ensures job.salary.Some? ==> job.salary.value != ""
  {
    Job(id, b.title.value, b.description.value, b.whoWeAreLookingFor.value,
        b.howToApply.value, b.location.value,
        if Truthy(b.salary) then b.salary else None,
        OrElse(b.jobType, "full-time"), OrElse(b.status, "active"), now)
  }

  /** `POST`. `body` is None when the request body is not valid JSON (the
      handler's catch). A job is added only on 201, and then exactly one. */
  function CreateJob(auth: Option<Payload>, body: Option<JobBody>, jobs: seq<Job>, id: string, now: int): (h: Handled<Job>)
    ensures auth.None? ==> h == Handled(Failure(401, Unauthorized), jobs)
    ensures auth.Some? && body.None? ==> h == Handled(Failure(500, CreateFailed), jobs)
    ensures auth.Some? && body.Some? && !HasRequiredFields(body.value) ==>
      h == Handled(Failure(400, MissingFields), jobs)
    ensures h.reply.Success? <==> auth.Some? && body.Some? && HasRequiredFields(body.value)
    ensures h.reply.Success? ==> h.reply.status == 201 && h.store == jobs + [h.reply.value]
    ensures h.reply.Failure? ==> h.store == jobs
  {
    if auth.None? then Handled(Failure(401, Unauthorized), jobs)
    else if body.None? then Handled(Failure(500, CreateFailed), jobs)
    else if !HasRequiredFields(body.value) then Handled(Failure(400, MissingFields), jobs)
    else
      var job := NewJob(body.value, id, now);
      Handled(Success(201, job), jobs + [job])
  }

  /** The created job copies the five required fields verbatim; salary,
      type and status keep a non-empty value as sent, and otherwise become
      null, "full-time" and "active". */
  lemma CreatedJobFields(auth: Option<Payload>, b: JobBody, jobs: seq<Job>, id: string, now: int)
    requires auth.Some? && HasRequiredFields(b)
    ensures var job := CreateJob(auth, Some(b), jobs, id, now).reply.value;
      && Some(job.title) == b.title && Some(job.description) == b.description
      && Some(job.whoWeAreLookingFor) == b.whoWeAreLookingFor
      && Some(job.howToApply) == b.howToApply && Some(job.location) == b.location
      && (Truthy(b.salary) ==> job.salary == b.salary)
      && (!Truthy(b.salary) ==> job.salary == None)
      && (Truthy(b.jobType) ==> Some(job.jobType) == b.jobType)
      && (!Truthy(b.jobType) ==> job.jobType == "full-time")
      && (Truthy(b.status) ==> Some(job.status) == b.status)
      && (!Truthy(b.status) ==> job.status == "active")
      && job.id == id && job.createdAt == now
  {
  }
}
