/** The public application handler (app/api/applications/route.ts): a
    candidate applies to an active job. There is no authentication: the
    outcome depends only on the body and the stored jobs. The database's
    id and time for the new application are parameters. */
module ApplicationsApi {
  import opened Common
  import opened Responses
  import JobsApi

  /** A stored application, as `prisma.application.create` is given it. */
  datatype ApplicationRecord = ApplicationRecord(
    id: string, jobId: string, fullName: string, email: string, phone: string,
    linkedIn: string, resume: string, coverLetter: Option<string>, appliedAt: int)

  /** The fields of a submission; None when absent from the JSON body. */
  datatype ApplicationBody = ApplicationBody(
    jobId: Option<string>, fullName: Option<string>, email: Option<string>, phone: Option<string>,
    linkedIn: Option<string>, resume: Option<string>, coverLetter: Option<string>)

  const MissingFields := "Missing required fields"
  const JobNotOpen := "Job not found or no longer active"
  const SubmitFailed := "Failed to submit application"

  /** The six fields an application cannot be submitted without; the cover
      letter is optional. */
  predicate HasRequiredFields(b: ApplicationBody)
  {
    Truthy(b.jobId) && Truthy(b.fullName) && Truthy(b.email)
      && Truthy(b.phone) && Truthy(b.linkedIn) && Truthy(b.resume)
  }

  /** Some stored job has the id and is active. */
  predicate ActiveJob(jobs: seq<JobsApi.Job>, jobId: string)
  {
    exists j :: j in jobs && j.id == jobId && j.status == "active"
  }

  /** The lookup `findUnique({ where: { id, status: "active" } })`: a stored
      job with that id and status "active", or None when there is none. */
  function FindActiveJob(jobs: seq<JobsApi.Job>, jobId: string): (r: Option<JobsApi.Job>)
    ensures r.Some? ==> r.value in jobs && r.value.id == jobId && r.value.status == "active"
    ensures r.None? ==> forall j :: j in jobs && j.id == jobId ==> j.status != "active"
    ensures r.Some? <==> ActiveJob(jobs, jobId)
    decreases |jobs|
  {
    if jobs == [] then None
    else if jobs[0].id == jobId && jobs[0].status == "active" then Some(jobs[0])
    else
      var r := FindActiveJob(jobs[1..], jobId);
      assert jobs == [jobs[0]] + jobs[1..];
      r
  }

  /** The record `prisma.application.create` is given. A stored application
      never has an empty required field, and its cover letter is either
      absent or non-empty. */
  function NewApplication(b: ApplicationBody, id: string, now: int): (a: ApplicationRecord)
    requires HasRequiredFields(b)
    ensures a.id == id && a.appliedAt == now
    ensures a.jobId != "" && a.fullName != "" && a.email != ""
    ensures a.phone != "" && a.linkedIn != "" && a.resume != ""
    ensures a.coverLetter.Some? ==> a.coverLetter.value != ""
  {
    ApplicationRecord(id, b.jobId.value, b.fullName.value, b.email.value, b.phone.value,
      b.linkedIn.value, b.resume.value, if Truthy(b.coverLetter) then b.coverLetter else None, now)
  }

  /** `POST`. `body` is None when the request body is not valid JSON (the
      handler's catch). An application is added only on 201, and then
      exactly one. */
  function Submit(body: Option<ApplicationBody>, jobs: seq<JobsApi.Job>, applications: seq<ApplicationRecord>,
                  id: string, now: int): (h: Handled<ApplicationRecord>)
    ensures body.None? ==> h == Handled(Failure(500, SubmitFailed), applications)
    ensures body.Some? && !HasRequiredFields(body.value) ==>
      h == Handled(Failure(400, MissingFields), applications)
    ensures body.Some? && HasRequiredFields(body.value) && !ActiveJob(jobs, body.value.jobId.value) ==>
      h == Handled(Failure(404, JobNotOpen), applications)
    ensures h.reply.Success? <==>
      body.Some? && HasRequiredFields(body.value) && ActiveJob(jobs, body.value.jobId.value)
    ensures h.reply.Success? ==> h.reply.status == 201 && h.store == applications + [h.reply.value]
    ensures h.reply.Failure? ==> h.store == applications
  {
    if body.None? then Handled(Failure(500, SubmitFailed), applications)
    else if !HasRequiredFields(body.value) then Handled(Failure(400, MissingFields), applications)
    else if FindActiveJob(jobs, body.value.jobId.value).None? then Handled(Failure(404, JobNotOpen), applications)
    else
      var app := NewApplication(body.value, id, now);
      Handled(Success(201, app), applications + [app])
  }

  /** The stored application carries the six submitted fields verbatim;
      the cover letter is kept when non-empty and stored as null otherwise. */
  lemma SubmittedFields(b: ApplicationBody, jobs: seq<JobsApi.Job>, applications: seq<ApplicationRecord>, id: string, now: int)
    requires HasRequiredFields(b) && ActiveJob(jobs, b.jobId.value)
    ensures var a := Submit(Some(b), jobs, applications, id, now).reply.value;
      && Some(a.jobId) == b.jobId && Some(a.fullName) == b.fullName && Some(a.email) == b.email
      && Some(a.phone) == b.phone && Some(a.linkedIn) == b.linkedIn && Some(a.resume) == b.resume
      && (Truthy(b.coverLetter) ==> a.coverLetter == b.coverLetter)
      && (!Truthy(b.coverLetter) ==> a.coverLetter == None)
  {
  }

  /** The cover letter never decides the status: any two bodies that differ
      only in it get the same status code. */
  lemma CoverLetterNeverRequired(b: ApplicationBody, letter: Option<string>, jobs: seq<JobsApi.Job>,
                                 applications: seq<ApplicationRecord>, id: string, now: int)
    ensures Submit(Some(b), jobs, applications, id, now).reply.status
         == Submit(Some(b.(coverLetter := letter)), jobs, applications, id, now).reply.status
  {
  }

  /** A job that is closed (any status other than "active") takes no
      applications, even though it exists, as long as no active job shares
      its id. */
  lemma ClosedJobRejects(b: ApplicationBody, jobs: seq<JobsApi.Job>, applications: seq<ApplicationRecord>, id: string, now: int)
    requires HasRequiredFields(b)
    requires forall j :: j in jobs && j.id == b.jobId.value ==> j.status != "active"
    ensures Submit(Some(b), jobs, applications, id, now) == Handled(Failure(404, JobNotOpen), applications)
  {
  }

  /** Across the two handlers: a job created without a status is active,
      so a complete application to it is accepted. */
  lemma NewJobTakesApplications(auth: Option<Payload>, jb: JobsApi.JobBody, jobs: seq<JobsApi.Job>, jobId: string, created: int,
                                b: ApplicationBody, applications: seq<ApplicationRecord>, id: string, now: int)
    requires auth.Some? && JobsApi.HasRequiredFields(jb) && !Truthy(jb.status)
    requires HasRequiredFields(b) && b.jobId == Some(jobId)
    ensures var h := JobsApi.CreateJob(auth, Some(jb), jobs, jobId, created);
      Submit(Some(b), h.store, applications, id, now).reply.status == 201
  {
  }
}
