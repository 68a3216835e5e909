/**
 * The first generation's jobs (src/jobs.rs): one queue of jobs consumed
 * by a single worker, a reconcile job that stops at the first service that
 * fails, a validation job that collects the directory's and the services'
 * errors, and a scheduler that queues a reconcile job on every tick. The
 * tick interval, the channels and the stop signal are not modelled; the
 * services, GitHub and the template rendering are oracles. The validation
 * job builds a `MultiError` with a context and asks `contains_errors`,
 * which src/multierror.rs does not offer; clowarden-core's `MultiError`
 * stands in for it.
 */
module OldJobs {
  import opened Common
  import opened Errors
  import opened Collections
  import opened OldCfg
  import CD = CoreDirectory
  import CS = CoreServices
  import CM = CoreMultiError
  import SG = ServerGithub
  import OG = OldGithub
  import ODL = OldDirectoryLegacy
  import ODir = OldDirectory

  /** `Job`: a reconcile, possibly triggered by a pull request, or the validation of a pull request. */
  datatype Job = Reconcile(pr: Option<SG.PullRequestData>) | Validate(validatePr: SG.PullRequestData)

  /**
   * A service handler of this generation, as an oracle: the summary of
   * changes for a head ref (the declared `ChangesSummary`, a list of
   * texts) and the outcome of `reconcile`.
   */
  datatype ServiceHandler = ServiceHandler(
    getChangesSummary: string -> Result<seq<string>, Error>,
    reconcile: Result<(), Error>)

  // ------------------------------------------------------ Queue

  /** The jobs channel: jobs waiting, in the order they were sent. */
  class JobQueue {
    var pending: seq<Job>
    /** Every job sent so far, and every job the worker has taken. */
    ghost var sent: seq<Job>
    ghost var taken: seq<Job>

    /** The worker takes jobs in the order they were sent. */
    ghost predicate Valid()
      reads this
    {
      sent == taken + pending
    }

    constructor ()
      ensures Valid() && pending == [] && sent == [] && taken == []
    {
      pending := [];
      sent := [];
      taken := [];
    }

    /** `jobs_tx.send`: the job goes to the end of the queue. */
    method Send(job: Job)
      requires Valid()
      modifies this
      ensures Valid()
      ensures pending == old(pending) + [job]
      ensures sent == old(sent) + [job] && taken == old(taken)
    {
      pending := pending + [job];
      sent := sent + [job];
    }

    /** `jobs_rx.recv`, as the worker's loop uses it: the oldest waiting job, if any. */
    method Recv() returns (job: Option<Job>)
      requires Valid()
      modifies this
      ensures Valid()
      ensures sent == old(sent)
      ensures old(pending) == [] ==> job.None? && pending == [] && taken == old(taken)
      ensures old(pending) != [] ==>
        && job == Some(old(pending)[0])
        && pending == old(pending)[1..]
        && taken == old(taken) + [old(pending)[0]]
    {
      if pending == [] {
        return None;
      }
      job := Some(pending[0]);
      taken := taken + [pending[0]];
      pending := pending[1..];
    }
  }

  /** What a single worker has taken is always the oldest part of what was sent. */
  lemma TakenIsPrefix(sent: seq<Job>, taken: seq<Job>, pending: seq<Job>)
    requires sent == taken + pending
    ensures |taken| <= |sent| && taken == sent[..|taken|]
  {
    assert sent[..|taken|] == taken;
  }

  /** The scheduler's tick: a reconcile job that no pull request triggered. */
  method SchedulerTick(q: JobQueue)
    requires q.Valid()
    modifies q
    ensures q.Valid()
    ensures q.pending == old(q.pending) + [Reconcile(None)]
    ensures q.sent == old(q.sent) + [Reconcile(None)]
  {
    q.Send(Reconcile(None));
  }

  // ------------------------------------------------------ Reconcile job

  /**
   * `handle_reconcile_job`: the services are reconciled one after the
   * other (in the map's order), and the first failure ends the job with its
   * error; `attempted` is the services reconciled, in order.
   */
  method HandleReconcileJob(services: map<string, ServiceHandler>) returns (r: Result<(), Error>, ghost attempted: seq<string>)
    ensures NoDup(attempted) && Elems(attempted) <= services.Keys
    ensures forall i :: 0 <= i < |attempted| - 1 ==> services[attempted[i]].reconcile.Ok?
    ensures r.Ok? <==> forall s :: s in services ==> services[s].reconcile.Ok?
    ensures r.Ok? ==> Elems(attempted) == services.Keys
    ensures r.Err? ==> attempted != [] && services[attempted[|attempted| - 1]].reconcile == Err(r.error)
  {
    var keys := Enumerate(services.Keys);
    attempted := [];
    for i := 0 to |keys|
      invariant attempted == keys[..i]
      invariant forall k :: 0 <= k < i ==> services[keys[k]].reconcile.Ok?
    {
      assert keys[i] in Elems(keys);
      attempted := attempted + [keys[i]];
      var res := services[keys[i]].reconcile;
      if res.Err? {
        assert attempted == keys[..i + 1];
        assert !services[keys[i]].reconcile.Ok?;
        return Err(res.error), attempted;
      }
    }
    assert keys[..|keys|] == keys;
    forall s | s in services ensures services[s].reconcile.Ok? {
      assert s in Elems(keys);
      var k :| 0 <= k < |keys| && keys[k] == s;
    }
    r := Ok(());
  }

  // ------------------------------------------------------ Validation job

  const ValidText := "The configuration changes proposed are valid"
  const InvalidText := "The configuration changes proposed are not valid"

  /** The directory's part of `handle_validation_job`: its summary, or its error pushed and an empty summary of unknown status. */
  method DirectorySummary(cfg: Config, gh: OG.Gh, parsers: ODL.Parsers, headRef: string, merr: CM.MultiError)
    returns (summary: CS.ChangesSummary<CD.DirectoryChange>)
    requires LegacyEnabled(cfg) ==> HasLegacyPaths(cfg)
    modifies merr
    ensures merr.context == old(merr.context)
    ensures var head := ODir.DirectoryFromConfig(cfg, gh, parsers, Some(headRef));
      && (head.Err? ==> merr.errors == old(merr.errors) + [head.error] && summary == CS.ChangesSummary([], CS.Unknown))
      && (head.Ok? ==> merr.errors == old(merr.errors))
      && (head.Ok? ==> ODir.SummaryOf(ODir.DirectoryFromConfig(cfg, gh, parsers, None), head.value, summary))
  {
    var dir := ODir.GetChangesSummary(cfg, gh, parsers, headRef);
    if dir.Err? {
      merr.Push(dir.error);
      summary := CS.ChangesSummary([], CS.Unknown);
    } else {
      summary := dir.value;
    }
  }

  /** The services' part of `handle_validation_job`: each summary kept, each failure pushed onto `merr`. */
  method CollectSummaries(services: map<string, ServiceHandler>, headRef: string, merr: CM.MultiError)
    returns (summaries: map<string, seq<string>>)
    modifies merr
    ensures merr.context == old(merr.context)
    ensures |merr.errors| >= |old(merr.errors)| && merr.errors[..|old(merr.errors)|] == old(merr.errors)
    ensures merr.errors == old(merr.errors) <==> forall s :: s in services ==> services[s].getChangesSummary(headRef).Ok?
    ensures forall s :: s in summaries <==> s in services && services[s].getChangesSummary(headRef).Ok?
    ensures forall s :: s in summaries ==> summaries[s] == services[s].getChangesSummary(headRef).value
  {
    var keys := Enumerate(services.Keys);
    summaries := map[];
    ghost var seen: set<string> := {};
    ghost var pushed: seq<Error> := [];
    for i := 0 to |keys|
      invariant seen <= services.Keys
      invariant forall k :: 0 <= k < i ==> keys[k] in seen
      invariant merr.context == old(merr.context)
      invariant merr.errors == old(merr.errors) + pushed
      invariant pushed == [] <==> forall s :: s in seen ==> services[s].getChangesSummary(headRef).Ok?
      invariant forall s :: s in summaries <==> s in seen && services[s].getChangesSummary(headRef).Ok?
      invariant forall s :: s in summaries ==> summaries[s] == services[s].getChangesSummary(headRef).value
    {
      var s := keys[i];
      assert s in Elems(keys);
      match services[s].getChangesSummary(headRef) {
        case Ok(summary) => summaries := summaries[s := summary];
        case Err(e) => {
          merr.Push(e);
          pushed := pushed + [e];
        }
      }
      seen := seen + {s};
    }
    assert merr.errors[..|old(merr.errors)|] == old(merr.errors);
    forall s | s in services ensures s in seen {
      assert s in Elems(keys);
      var k :| 0 <= k < |keys| && keys[k] == s;
    }
  }

  /**
   * What the first half of `handle_validation_job` collects for the head
   * ref: a head directory that does not load is the only error, with an
   * empty summary of unknown status and no service summaries; otherwise the
   * directory's summary, every service summary that succeeds and one error
   * per service that fails.
   */
  ghost predicate Gathered(cfg: Config, gh: OG.Gh, parsers: ODL.Parsers, services: map<string, ServiceHandler>, headRef: string,
                           collected: seq<Error>, dirSummary: CS.ChangesSummary<CD.DirectoryChange>, summaries: map<string, seq<string>>)
    requires LegacyEnabled(cfg) ==> HasLegacyPaths(cfg)
  {
    var head := ODir.DirectoryFromConfig(cfg, gh, parsers, Some(headRef));
    && (head.Err? ==> collected == [head.error] && dirSummary == CS.ChangesSummary([], CS.Unknown) && summaries == map[])
    && (head.Ok? ==> ODir.SummaryOf(ODir.DirectoryFromConfig(cfg, gh, parsers, None), head.value, dirSummary))
    && (head.Ok? ==> forall s :: s in summaries <==> s in services && services[s].getChangesSummary(headRef).Ok?)
    && (head.Ok? ==> forall s :: s in summaries ==> summaries[s] == services[s].getChangesSummary(headRef).value)
    && (collected == [] <==> head.Ok? && forall s :: s in services ==> services[s].getChangesSummary(headRef).Ok?)
  }

  /** The directory summary, then, only when it loads, the service summaries, the errors pushed onto an empty `merr`. */
  method Gather(cfg: Config, gh: OG.Gh, parsers: ODL.Parsers, services: map<string, ServiceHandler>, headRef: string,
                merr: CM.MultiError)
    returns (dirSummary: CS.ChangesSummary<CD.DirectoryChange>, summaries: map<string, seq<string>>)
    requires LegacyEnabled(cfg) ==> HasLegacyPaths(cfg)
    requires merr.errors == []
    modifies merr
    ensures merr.context == old(merr.context)
    ensures Gathered(cfg, gh, parsers, services, headRef, merr.errors, dirSummary, summaries)
  {
    dirSummary := DirectorySummary(cfg, gh, parsers, headRef, merr);
    summaries := map[];
    if !merr.ContainsErrors() {
      summaries := CollectSummaries(services, headRef, merr);
    }
  }

  /**
   * `handle_validation_job`: the directory summary of the head ref and,
   * only when it loads, every service summary; the errors collected decide
   * the comment and the check's conclusion, and the job fails when there
   * are any. The comment is posted before the check is created; either
   * failing fails the job. `check` is the check-run request sent, if any,
   * `posted` the comment body posted, if any; `dirSummary` and `summaries`
   * are the summaries computed.
   */
  method HandleValidationJob(cfg: Config, gh: OG.Gh, parsers: ODL.Parsers, services: map<string, ServiceHandler>,
                             pr: SG.PullRequestData, renderFailed: Error -> Result<string, Error>,
                             renderSucceeded: (CS.ChangesSummary<CD.DirectoryChange>, map<string, seq<string>>) -> Result<string, Error>)
    returns (r: Result<(), Error>, check: Option<SG.ChecksCreateRequest>, posted: Option<string>, ghost collected: seq<Error>,
             ghost dirSummary: CS.ChangesSummary<CD.DirectoryChange>, ghost summaries: map<string, seq<string>>)
    requires LegacyEnabled(cfg) ==> HasLegacyPaths(cfg)
    ensures Gathered(cfg, gh, parsers, services, pr.head.ref_, collected, dirSummary, summaries)
    ensures var body := if collected == [] then renderSucceeded(dirSummary, summaries) else renderFailed(Multi(None, collected));
      && (posted.Some? <==> body.Ok?)
      && (posted.Some? ==> posted.value == body.value)
      && (body.Err? ==> r == Err(body.error) && check.None?)
      && (body.Ok? ==> (check.Some? <==> gh.postComment(pr.number, body.value).Ok?))
      && (body.Ok? && check.None? ==> r == Err(gh.postComment(pr.number, body.value).error))
    ensures collected != [] ==> r.Err?
    ensures r.Ok? ==> collected == [] && check.Some?
    ensures check.Some? ==> check.value == SG.NewChecksCreateRequest(pr.head.sha, Some(SG.Completed),
      Some(if collected == [] then SG.Success else SG.Failure), if collected == [] then ValidText else InvalidText)
    ensures check.Some? && gh.createCheckRun(check.value).Err? ==> r == Err(gh.createCheckRun(check.value).error)
    ensures check.Some? && gh.createCheckRun(check.value).Ok? ==>
      (if collected == [] then r.Ok? else r == Err(Multi(None, collected)))
  {
    var merr := new CM.MultiError(None);
    var directoryChanges, servicesChanges := Gather(cfg, gh, parsers, services, pr.head.ref_, merr);
    collected, dirSummary, summaries := merr.errors, directoryChanges, servicesChanges;
    var errorsFound := merr.ContainsErrors();
    var err := merr.ToError();
    var body: Result<string, Error>;
    var request;
    if errorsFound {
      body := renderFailed(err);
      request := SG.NewChecksCreateRequest(pr.head.sha, Some(SG.Completed), Some(SG.Failure), InvalidText);
    } else {
      body := renderSucceeded(directoryChanges, servicesChanges);
      request := SG.NewChecksCreateRequest(pr.head.sha, Some(SG.Completed), Some(SG.Success), ValidText);
    }
    r, check, posted := PublishValidation(gh, pr.number, body, request, errorsFound, err);
  }

  /**
   * The end of `handle_validation_job`: a body that failed to render fails
   * the job; otherwise the comment is posted, then the check created, and
   * the first failure of the two fails the job; if both succeed, the job
   * fails with `err` exactly when errors were found.
   */
  method PublishValidation(gh: OG.Gh, prNumber: int, body: Result<string, Error>, request: SG.ChecksCreateRequest,
                           errorsFound: bool, err: Error)
    returns (r: Result<(), Error>, check: Option<SG.ChecksCreateRequest>, posted: Option<string>)
    ensures posted.Some? <==> body.Ok?
    ensures posted.Some? ==> posted.value == body.value
    ensures body.Err? ==> r == Err(body.error) && check.None?
    ensures body.Ok? ==> (check.Some? <==> gh.postComment(prNumber, body.value).Ok?)
    ensures body.Ok? && check.None? ==> r == Err(gh.postComment(prNumber, body.value).error)
    ensures check.Some? ==> check.value == request
    ensures check.Some? && gh.createCheckRun(request).Err? ==> r == Err(gh.createCheckRun(request).error)
    ensures check.Some? && gh.createCheckRun(request).Ok? ==> (if errorsFound then r == Err(err) else r.Ok?)
  {
    check, posted := None, None;
    if body.Err? {
      return Err(body.error), check, posted;
    }
    posted := Some(body.value);
    var comment := gh.postComment(prNumber, body.value);
    if comment.Err? {
      return Err(comment.error), check, posted;
    }
    check := Some(request);
    var created := gh.createCheckRun(request);
    if created.Err? {
      return Err(created.error), check, posted;
    }
    if errorsFound {
      return Err(err), check, posted;
    }
    r := Ok(());
  }
}
