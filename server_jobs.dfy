/**
 * clowarden-server's jobs: what a reconcile or validate job carries, the
 * routing of jobs to one FIFO queue per registered organization, the
 * reconcile and validate job handlers, and the jobs the scheduler emits on
 * each tick. The workers' concurrency, the channels and the delays are not
 * modelled; the services handlers, GitHub and the template rendering are
 * oracles.
 */
module ServerJobs {
  import opened Common
  import opened Errors
  import opened Collections
  import opened CoreCfg
  import CG = CoreGithub
  import CDL = CoreDirectoryLegacy
  import CD = CoreDirectory
  import opened CoreServices
  import CoreMultiError
  import SG = ServerGithub
  import opened ServerTmpl

  // ------------------------------------------------------ Jobs

  /** What a reconcile job needs; the pull request fields are set only when a merged pull request triggered it. */
  datatype ReconcileInput = ReconcileInput(
    org: Organization,
    prNumber: Option<int>,
    prCreatedBy: Option<string>,
    prMergedBy: Option<string>,
    prMergedAt: Option<Timestamp>)

  /** What a validate job needs: the pull request and where its head lives. */
  datatype ValidateInput = ValidateInput(
    org: Organization,
    prNumber: int,
    prHeadOwner: Option<string>,
    prHeadRepo: Option<string>,
    prHeadRef: string,
    prHeadSha: string)

  datatype Job = Reconcile(reconcile: ReconcileInput) | Validate(validate: ValidateInput)

  /** `Job::org_name`: the organization of either kind of job. */
  function OrgName(job: Job): (name: string)
    ensures job.Reconcile? ==> name == job.reconcile.org.name
    ensures job.Validate? ==> name == job.validate.org.name
  {
    match job
    case Reconcile(input) => input.org.name
    case Validate(input) => input.org.name
  }

  /**
   * `ReconcileInput::new`: the pull request's number, author and merger;
   * the merge time only when it converts (`fromUnix` stands for
   * `OffsetDateTime::from_unix_timestamp`).
   */
  function NewReconcileInput(org: Organization, pr: SG.PullRequestData, fromUnix: int -> Option<Timestamp>): (r: ReconcileInput)
    ensures r.org == org && r.prNumber == Some(pr.number)
    ensures r.prCreatedBy == pr.user && r.prMergedBy == pr.mergedBy
    ensures r.prMergedAt.Some? <==> pr.mergedAt.Some? && fromUnix(pr.mergedAt.value).Some?
    ensures r.prMergedAt.Some? ==> r.prMergedAt == fromUnix(pr.mergedAt.value)
  {
    var mergedAt := if pr.mergedAt.Some? then fromUnix(pr.mergedAt.value) else None;
    ReconcileInput(org, Some(pr.number), pr.user, pr.mergedBy, mergedAt)
  }

  /** `ValidateInput::new`: the pull request's number and head; owner and repository only when the head repository is known. */
  function NewValidateInput(org: Organization, pr: SG.PullRequestData): (r: ValidateInput)
    ensures r.org == org && r.prNumber == pr.number
    ensures r.prHeadOwner.Some? <==> pr.head.repo.Some?
    ensures r.prHeadRepo.Some? <==> pr.head.repo.Some?
    ensures pr.head.repo.Some? ==> r.prHeadOwner == Some(pr.head.repo.value.ownerLogin) && r.prHeadRepo == Some(pr.head.repo.value.name)
    ensures r.prHeadRef == pr.head.ref_ && r.prHeadSha == pr.head.sha
  {
    var owner := if pr.head.repo.Some? then Some(pr.head.repo.value.ownerLogin) else None;
    var repo := if pr.head.repo.Some? then Some(pr.head.repo.value.name) else None;
    ValidateInput(org, pr.number, owner, repo, pr.head.ref_, pr.head.sha)
  }

  // ------------------------------------------------------ Routing

  /** The jobs of `jobs` for organization `o`, in arrival order. */
  function JobsFor(jobs: seq<Job>, o: string): (r: seq<Job>)
    ensures forall i :: 0 <= i < |r| ==> OrgName(r[i]) == o && r[i] in jobs
    ensures forall i :: 0 <= i < |jobs| && OrgName(jobs[i]) == o ==> jobs[i] in r
    ensures |r| <= |jobs|
  {
    if jobs == [] then []
    else
      var n := |jobs| - 1;
      JobsFor(jobs[..n], o) + (if OrgName(jobs[n]) == o then [jobs[n]] else [])
  }

  /** Routing a job after others appends it to its organization's share only. */
  lemma JobsForSnoc(jobs: seq<Job>, job: Job, o: string)
    ensures JobsFor(jobs + [job], o) == JobsFor(jobs, o) + (if OrgName(job) == o then [job] else [])
  {
    assert (jobs + [job])[..|jobs|] == jobs;
  }

  /**
   * The router and the organizations' queues: one queue per registered
   * organization, each consumed by its own worker one job at a time.
   */
  class Router {
    var queues: map<string, seq<Job>>

    /** `start`: an empty queue for every organization. */
    constructor (orgs: seq<Organization>)
      ensures queues.Keys == set o | o in orgs :: o.name
      ensures forall k :: k in queues ==> queues[k] == []
    {
      var m: map<string, seq<Job>> := map[];
      for i := 0 to |orgs|
        invariant m.Keys == set o | o in orgs[..i] :: o.name
        invariant forall k :: k in m ==> m[k] == []
      {
        assert orgs[..i + 1] == orgs[..i] + [orgs[i]];
        m := m[orgs[i].name := []];
      }
      assert orgs[..|orgs|] == orgs;
      queues := m;
    }

    /** The router's step: a job goes to the end of its organization's queue, and is dropped when the organization is not registered. */
    method Route(job: Job)
      modifies this
      ensures OrgName(job) in old(queues) ==> queues == old(queues)[OrgName(job) := old(queues)[OrgName(job)] + [job]]
      ensures OrgName(job) !in old(queues) ==> queues == old(queues)
    {
      var o := OrgName(job);
      if o in queues {
        queues := queues[o := queues[o] + [job]];
      }
    }

    /** Routing jobs in arrival order: every queue gets its organization's jobs in that order, and no queue appears or disappears. */
    method RouteAll(jobs: seq<Job>)
      modifies this
      ensures QueuesAfter(old(queues), queues, jobs)
    {
      for i := 0 to |jobs|
        invariant QueuesAfter(old(queues), queues, jobs[..i])
      {
        assert jobs[..i + 1] == jobs[..i] + [jobs[i]];
        ghost var before := queues;
        Route(jobs[i]);
        RouteStep(old(queues), before, queues, jobs[..i], jobs[i]);
      }
      assert jobs[..|jobs|] == jobs;
    }

    /** A worker's step: the oldest job of its organization's queue, if any. */
    method Next(o: string) returns (job: Option<Job>)
      requires o in queues
      modifies this
      ensures old(queues)[o] == [] ==> job.None? && queues == old(queues)
      ensures old(queues)[o] != [] ==> job == Some(old(queues)[o][0]) && queues == old(queues)[o := old(queues)[o][1..]]
    {
      if queues[o] == [] {
        return None;
      }
      job := Some(queues[o][0]);
      queues := queues[o := queues[o][1..]];
    }
  }

  /** `q` is `q0` after routing `jobs`: same organizations, each queue extended by its own jobs. */
  ghost predicate QueuesAfter(q0: map<string, seq<Job>>, q: map<string, seq<Job>>, jobs: seq<Job>) {
    && q.Keys == q0.Keys
    && forall o :: o in q ==> q[o] == q0[o] + JobsFor(jobs, o)
  }

  lemma RouteStep(q0: map<string, seq<Job>>, q: map<string, seq<Job>>, q': map<string, seq<Job>>, jobs: seq<Job>, job: Job)
    requires QueuesAfter(q0, q, jobs)
    requires OrgName(job) in q ==> q' == q[OrgName(job) := q[OrgName(job)] + [job]]
    requires OrgName(job) !in q ==> q' == q
    ensures QueuesAfter(q0, q', jobs + [job])
  {
    forall o | o in q'
      ensures q'[o] == q0[o] + JobsFor(jobs + [job], o)
    {
      JobsForSnoc(jobs, job, o);
    }
  }

  // ------------------------------------------------------ Scheduler

  /** A scheduled reconcile: the organization and no pull request. */
  function ScheduledReconcile(org: Organization): (job: Job)
    ensures job.Reconcile? && job.reconcile.org == org
    ensures job.reconcile.prNumber.None? && job.reconcile.prCreatedBy.None?
    ensures job.reconcile.prMergedBy.None? && job.reconcile.prMergedAt.None?
  {
    Reconcile(ReconcileInput(org, None, None, None, None))
  }

  /** One scheduler tick: a reconcile job per organization, in configuration order. */
  method SchedulerTick(orgs: seq<Organization>) returns (jobs: seq<Job>)
    ensures |jobs| == |orgs|
    ensures forall i :: 0 <= i < |orgs| ==> jobs[i] == ScheduledReconcile(orgs[i])
  {
    jobs := [];
    for i := 0 to |orgs|
      invariant |jobs| == i
      invariant forall k :: 0 <= k < i ==> jobs[k] == ScheduledReconcile(orgs[k])
    {
      jobs := jobs + [ScheduledReconcile(orgs[i])];
    }
  }

  /** The scheduled reconcile jobs of organization `o`, one per entry with that name. */
  function ScheduledFor(orgs: seq<Organization>, o: string): (r: seq<Job>)
  {
    if orgs == [] then []
    else
      var n := |orgs| - 1;
      ScheduledFor(orgs[..n], o) + (if orgs[n].name == o then [ScheduledReconcile(orgs[n])] else [])
  }

  /** Routed, a tick gives each organization exactly its own scheduled reconciles; with unique names, exactly one. */
  lemma {:induction false} TickRouted(orgs: seq<Organization>, jobs: seq<Job>, o: string)
    requires |jobs| == |orgs|
    requires forall i :: 0 <= i < |orgs| ==> jobs[i] == ScheduledReconcile(orgs[i])
    ensures JobsFor(jobs, o) == ScheduledFor(orgs, o)
  {
    if orgs != [] {
      var n := |orgs| - 1;
      TickRouted(orgs[..n], jobs[..n], o);
      assert jobs[..n] + [jobs[n]] == jobs;
      JobsForSnoc(jobs[..n], jobs[n], o);
    }
  }

  lemma {:induction false} ScheduledForUnique(orgs: seq<Organization>, k: nat)
    requires k < |orgs|
    requires forall i, j :: 0 <= i < j < |orgs| ==> orgs[i].name != orgs[j].name
    ensures ScheduledFor(orgs, orgs[k].name) == [ScheduledReconcile(orgs[k])]
  {
    var n := |orgs| - 1;
    if k == n {
      NoneScheduled(orgs[..n], orgs[k].name);
    } else {
      ScheduledForUnique(orgs[..n], k);
    }
  }

  lemma {:induction false} NoneScheduled(orgs: seq<Organization>, o: string)
    requires forall i :: 0 <= i < |orgs| ==> orgs[i].name != o
    ensures ScheduledFor(orgs, o) == []
  {
    if orgs != [] {
      NoneScheduled(orgs[..|orgs| - 1], o);
    }
  }

  // ------------------------------------------------------ Services

  /** A service handler, as an oracle: what its `reconcile` and `get_changes_summary` answer. */
  datatype ServiceHandler<C> = ServiceHandler(
    reconcile: Organization -> Result<seq<ChangeApplied<C>>, Error>,
    getChangesSummary: (Organization, CG.Source) -> Result<ChangesSummary<C>, Error>)

  // ------------------------------------------------------ Reconcile job

  /** The reconcile loop of `handle_reconcile_job`; a failing service does not stop the others. */
  method ReconcileServices<C>(services: map<string, ServiceHandler<C>>, org: Organization)
    returns (changesApplied: map<string, seq<ChangeApplied<C>>>, errors: map<string, Error>)
    ensures forall s :: s in changesApplied <==> s in services && services[s].reconcile(org).Ok?
    ensures forall s :: s in errors <==> s in services && services[s].reconcile(org).Err?
    ensures forall s :: s in changesApplied ==> changesApplied[s] == services[s].reconcile(org).value
    ensures forall s :: s in errors ==> errors[s] == services[s].reconcile(org).error
  {
    var keys := Enumerate(services.Keys);
    changesApplied := map[];
    errors := map[];
    ghost var seen: set<string> := {};
    for i := 0 to |keys|
      invariant seen <= services.Keys
      invariant forall k :: 0 <= k < i ==> keys[k] in seen
      invariant forall s :: s in changesApplied <==> s in seen && services[s].reconcile(org).Ok?
      invariant forall s :: s in errors <==> s in seen && services[s].reconcile(org).Err?
      invariant forall s :: s in changesApplied ==> changesApplied[s] == services[s].reconcile(org).value
      invariant forall s :: s in errors ==> errors[s] == services[s].reconcile(org).error
    {
      var s := keys[i];
      assert s in Elems(keys);
      match services[s].reconcile(org) {
        case Ok(applied) => changesApplied := changesApplied[s := applied];
        case Err(e) => errors := errors[s := e];
      }
      seen := seen + {s};
    }
    forall s | s in services ensures s in seen {
      assert s in Elems(keys);
      var k :| 0 <= k < |keys| && keys[k] == s;
    }
  }

  /**
   * `handle_reconcile_job`: every service is reconciled and lands either
   * among the changes applied or among the errors. When a pull request
   * triggered the job, the rendered summary is posted on it (`posted`);
   * only a rendering failure fails the job, since database and comment
   * failures are only logged.
   */
  method HandleReconcileJob<C>(services: map<string, ServiceHandler<C>>, gh: SG.Gh, input: ReconcileInput,
                               render: ReconciliationCompleted<C> -> Result<string, Error>)
    returns (r: Result<(), Error>, changesApplied: map<string, seq<ChangeApplied<C>>>, errors: map<string, Error>,
             posted: Option<string>, ghost completed: ReconciliationCompleted<C>)
    ensures forall s :: s in changesApplied <==> s in services && services[s].reconcile(input.org).Ok?
    ensures forall s :: s in errors <==> s in services && services[s].reconcile(input.org).Err?
    ensures forall s :: s in changesApplied ==> changesApplied[s] == services[s].reconcile(input.org).value
    ensures forall s :: s in errors ==> errors[s] == services[s].reconcile(input.org).error
    ensures input.prNumber.None? ==> r.Ok? && posted.None?
    ensures input.prNumber.Some? ==>
      && IsReconciliationCompleted(completed, changesApplied, errors)
      && (r.Ok? <==> render(completed).Ok?)
      && (r.Err? ==> r.error == render(completed).error)
      && (posted.Some? <==> r.Ok?)
      && (posted.Some? ==> posted.value == render(completed).value)
  {
    changesApplied, errors := ReconcileServices(services, input.org);
    posted := None;
    completed := ReconciliationCompleted([], changesApplied, false, errors, false);
    if input.prNumber.Some? {
      var t := NewReconciliationCompleted(changesApplied, errors);
      completed := t;
      var body := render(t);
      if body.Err? {
        return Err(body.error), changesApplied, errors, posted, completed;
      }
      posted := Some(body.value);
      var _ := gh.postComment(SG.CtxFrom(input.org), input.prNumber.value, body.value);
    }
    r := Ok(());
  }

  // ------------------------------------------------------ Validate job

  const ValidText := "The configuration changes proposed are valid"
  const InvalidText := "The configuration changes proposed are not valid"

  /** The pull request's head: its own repository when known, the organization's otherwise. */
  function HeadSource(input: ValidateInput): (src: CG.Source)
    ensures src.instId == Some(input.org.installationId) && src.ref_ == input.prHeadRef
    ensures src.owner == input.prHeadOwner.UnwrapOr(input.org.name)
    ensures src.repo == input.prHeadRepo.UnwrapOr(input.org.repository)
  {
    CG.Source(Some(input.org.installationId), input.prHeadOwner.UnwrapOr(input.org.name),
              input.prHeadRepo.UnwrapOr(input.org.repository), input.prHeadRef)
  }

  /**
   * The services part of `handle_validate_job`: each summary is kept, each
   * failure pushed onto `merr`.
   */
  method CollectSummaries<C>(services: map<string, ServiceHandler<C>>, org: Organization, src: CG.Source,
                             merr: CoreMultiError.MultiError)
    returns (summaries: map<string, ChangesSummary<C>>)
    modifies merr
    ensures merr.context == old(merr.context)
    ensures |merr.errors| >= |old(merr.errors)| && merr.errors[..|old(merr.errors)|] == old(merr.errors)
    ensures merr.errors == old(merr.errors) <==> forall s :: s in services ==> services[s].getChangesSummary(org, src).Ok?
    ensures forall s :: s in summaries <==> s in services && services[s].getChangesSummary(org, src).Ok?
    ensures forall s :: s in summaries ==> summaries[s] == services[s].getChangesSummary(org, src).value
  {
    var keys := Enumerate(services.Keys);
    summaries := map[];
    ghost var seen: set<string> := {};
    ghost var pushed: seq<Error> := [];
    for i := 0 to |keys|
      invariant seen <= services.Keys
      invariant forall k :: 0 <= k < i ==> keys[k] in seen
      invariant merr.context == old(merr.context)
      invariant merr.errors == old(merr.errors) + pushed
      invariant pushed == [] <==> forall s :: s in seen ==> services[s].getChangesSummary(org, src).Ok?
      invariant forall s :: s in summaries <==> s in seen && services[s].getChangesSummary(org, src).Ok?
      invariant forall s :: s in summaries ==> summaries[s] == services[s].getChangesSummary(org, src).value
    {
      var s := keys[i];
      assert s in Elems(keys);
      var res := services[s].getChangesSummary(org, src);
      if res.Ok? {
        summaries := summaries[s := res.value];
      } else {
        merr.Push(res.error);
        pushed := pushed + [res.error];
      }
      seen := seen + {s};
    }
    assert merr.errors[..|old(merr.errors)|] == old(merr.errors);
    forall s | s in services ensures s in seen {
      assert s in Elems(keys);
      var k :| 0 <= k < |keys| && keys[k] == s;
    }
  }

  /** The directory's part of `handle_validate_job`: its summary, or its error pushed and an empty summary of unknown status. */
  method DirectorySummary(gh: CG.Gh, parsers: CDL.Parsers, org: Organization, headSrc: CG.Source, merr: CoreMultiError.MultiError)
    returns (summary: ChangesSummary<CD.DirectoryChange>)
    modifies merr
    ensures merr.context == old(merr.context)
    ensures var head := CD.DirectoryFromConfig(gh, parsers, org.legacy, headSrc);
      && (head.Err? ==> merr.errors == old(merr.errors) + [head.error] && summary == ChangesSummary([], Unknown))
      && (head.Ok? ==> merr.errors == old(merr.errors))
      && (head.Ok? ==> CD.SummaryOf(CD.DirectoryFromConfig(gh, parsers, org.legacy, CG.SourceFrom(org)), head.value, summary))
  {
    var dir := CD.GetChangesSummary(gh, parsers, org, headSrc);
    if dir.Err? {
      merr.Push(dir.error);
      summary := ChangesSummary([], Unknown);
    } else {
      summary := dir.value;
    }
  }

  /**
   * What the first half of `handle_validate_job` collects for the head
   * configuration at `headSrc`: a head directory that does not load is the
   * only error, with an empty summary of unknown status and no service
   * summaries; otherwise the directory's summary, every service summary
   * that succeeds and one error per service that fails.
   */
  ghost predicate Gathered<C>(gh: CG.Gh, parsers: CDL.Parsers, services: map<string, ServiceHandler<C>>, org: Organization,
                              headSrc: CG.Source, collected: seq<Error>, dirSummary: ChangesSummary<CD.DirectoryChange>,
                              summaries: map<string, ChangesSummary<C>>)
  {
    var head := CD.DirectoryFromConfig(gh, parsers, org.legacy, headSrc);
    && (head.Err? ==> collected == [head.error] && dirSummary == ChangesSummary([], Unknown) && summaries == map[])
    && (head.Ok? ==> CD.SummaryOf(CD.DirectoryFromConfig(gh, parsers, org.legacy, CG.SourceFrom(org)), head.value, dirSummary))
    && (head.Ok? ==> forall s :: s in summaries <==> s in services && services[s].getChangesSummary(org, headSrc).Ok?)
    && (head.Ok? ==> forall s :: s in summaries ==> summaries[s] == services[s].getChangesSummary(org, headSrc).value)
    && (collected == [] <==> head.Ok? && forall s :: s in services ==> services[s].getChangesSummary(org, headSrc).Ok?)
  }

  /** The directory summary, then, only when it loads, the service summaries, the errors pushed onto an empty `merr`. */
  method Gather<C>(gh: CG.Gh, parsers: CDL.Parsers, services: map<string, ServiceHandler<C>>, org: Organization,
                   headSrc: CG.Source, merr: CoreMultiError.MultiError)
    returns (dirSummary: ChangesSummary<CD.DirectoryChange>, summaries: map<string, ChangesSummary<C>>)
    requires merr.errors == []
    modifies merr
    ensures merr.context == old(merr.context)
    ensures Gathered(gh, parsers, services, org, headSrc, merr.errors, dirSummary, summaries)
  {
    dirSummary := DirectorySummary(gh, parsers, org, headSrc, merr);
    summaries := map[];
    if !merr.ContainsErrors() {
      summaries := CollectSummaries(services, org, headSrc, merr);
    }
  }

  /**
   * `handle_validate_job`: the directory summary and, when it loads, every
   * service summary of the head configuration; the errors collected decide
   * the comment and the check's conclusion, and the job fails when there
   * are any. The comment is posted before the check is created; either
   * failing fails the job. `check` is the check-run request sent, if any,
   * and `posted` the comment body posted, if any; `dirSummary`, `summaries`
   * and `succeeded` are the summaries computed and the template of a
   * successful validation.
   */
  method HandleValidateJob<C>(gh: CG.Gh, parsers: CDL.Parsers, services: map<string, ServiceHandler<C>>, sgh: SG.Gh,
                              input: ValidateInput, renderFailed: Error -> Result<string, Error>,
                              renderSucceeded: ValidationSucceeded<CD.DirectoryChange, C> -> Result<string, Error>)
    returns (r: Result<(), Error>, check: Option<SG.ChecksCreateRequest>, posted: Option<string>, ghost collected: seq<Error>,
             ghost dirSummary: ChangesSummary<CD.DirectoryChange>, ghost summaries: map<string, ChangesSummary<C>>,
             ghost succeeded: ValidationSucceeded<CD.DirectoryChange, C>)
    ensures Gathered(gh, parsers, services, input.org, HeadSource(input), collected, dirSummary, summaries)
    ensures collected == [] ==> IsValidationSucceeded(succeeded, dirSummary, summaries)
    ensures var body := if collected == [] then renderSucceeded(succeeded) else renderFailed(Multi(None, collected));
      && (posted.Some? <==> body.Ok?)
      && (posted.Some? ==> posted.value == body.value)
      && (body.Err? ==> r == Err(body.error) && check.None?)
      && (body.Ok? ==> (check.Some? <==> sgh.postComment(SG.CtxFrom(input.org), input.prNumber, body.value).Ok?))
      && (body.Ok? && check.None? ==> r == Err(sgh.postComment(SG.CtxFrom(input.org), input.prNumber, body.value).error))
    ensures collected != [] ==> r.Err?
    ensures r.Ok? ==> collected == [] && check.Some?
    ensures check.Some? ==> check.value == SG.NewChecksCreateRequest(input.prHeadSha, Some(SG.Completed),
      Some(if collected == [] then SG.Success else SG.Failure), if collected == [] then ValidText else InvalidText)
    ensures check.Some? && sgh.createCheckRun(SG.CtxFrom(input.org), check.value).Err? ==>
      r == Err(sgh.createCheckRun(SG.CtxFrom(input.org), check.value).error)
    ensures check.Some? && sgh.createCheckRun(SG.CtxFrom(input.org), check.value).Ok? ==>
      (if collected == [] then r.Ok? else r == Err(Multi(None, collected)))
  {
    var merr := new CoreMultiError.MultiError(None);
    var headSrc := HeadSource(input);
    var directoryChanges, servicesChanges := Gather(gh, parsers, services, input.org, headSrc, merr);
    collected, dirSummary, summaries := merr.errors, directoryChanges, servicesChanges;
    var errorsFound := merr.ContainsErrors();
    var err := merr.ToError();
    var ctx := SG.CtxFrom(input.org);
    var body: Result<string, Error>;
    var request;
    succeeded := ValidationSucceeded(directoryChanges, servicesChanges, false, false);
    if errorsFound {
      body := renderFailed(err);
      request := SG.NewChecksCreateRequest(input.prHeadSha, Some(SG.Completed), Some(SG.Failure), InvalidText);
    } else {
      var t := NewValidationSucceeded(directoryChanges, servicesChanges);
      succeeded := t;
      body := renderSucceeded(t);
      request := SG.NewChecksCreateRequest(input.prHeadSha, Some(SG.Completed), Some(SG.Success), ValidText);
    }
    r, check, posted := PublishValidation(sgh, ctx, input.prNumber, body, request, errorsFound, err);
  }

  /**
   * The end of `handle_validate_job`: a body that failed to render fails
   * the job; otherwise the comment is posted, then the check created, and
   * the first failure of the two fails the job; if both succeed, the job
   * fails with `err` exactly when errors were found.
   */
  method PublishValidation(sgh: SG.Gh, ctx: SG.Ctx, prNumber: int, body: Result<string, Error>,
                           request: SG.ChecksCreateRequest, errorsFound: bool, err: Error)
    returns (r: Result<(), Error>, check: Option<SG.ChecksCreateRequest>, posted: Option<string>)
    ensures posted.Some? <==> body.Ok?
    ensures posted.Some? ==> posted.value == body.value
    ensures body.Err? ==> r == Err(body.error) && check.None?
    ensures body.Ok? ==> (check.Some? <==> sgh.postComment(ctx, prNumber, body.value).Ok?)
    ensures body.Ok? && check.None? ==> r == Err(sgh.postComment(ctx, prNumber, body.value).error)
    ensures check.Some? ==> check.value == request
    ensures check.Some? && sgh.createCheckRun(ctx, request).Err? ==> r == Err(sgh.createCheckRun(ctx, request).error)
    ensures check.Some? && sgh.createCheckRun(ctx, request).Ok? ==> (if errorsFound then r == Err(err) else r.Ok?)
  {
    check, posted := None, None;
    if body.Err? {
      return Err(body.error), check, posted;
    }
    posted := Some(body.value);
    var comment := sgh.postComment(ctx, prNumber, body.value);
    if comment.Err? {
      return Err(comment.error), check, posted;
    }
    check := Some(request);
    var created := sgh.createCheckRun(ctx, request);
    if created.Err? {
      return Err(created.error), check, posted;
    }
    if errorsFound {
      return Err(err), check, posted;
    }
    r := Ok(());
  }
}
