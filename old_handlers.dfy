/**
 * The first generation's webhook handler (src/handlers.rs): a signature
 * check against the one configured secret, whether a pull request touches
 * the configuration repository's legacy files, and the decision chain from
 * a delivery to the check run and the job it queues. HMAC-SHA256
 * (RFC 2104) is a function parameter; the jobs sent on the channel and the
 * check runs requested are returned. The event classification and the
 * signature header's decoding are clowarden-server's, modelled in
 * `ServerGithub` and `ServerHandlers`.
 */
module OldHandlers {
  import opened Common
  import opened Errors
  import opened OldCfg
  import SG = ServerGithub
  import SH = ServerHandlers
  import OG = OldGithub
  import OJ = OldJobs
  import Hex

  type byte = SH.byte

  const BadRequest := 400
  const ValidatingText := "Validating configuration changes"

  /** `verify_signature`: a `sha256=` hexadecimal header whose tag is the body's under the secret. */
  function VerifySignature(signature: Option<seq<byte>>, secret: seq<byte>, body: seq<byte>,
                           hmac: (seq<byte>, seq<byte>) -> seq<byte>): (r: Result<(), Error>)
    ensures r.Ok? <==> SH.DecodedSignature(signature).Some? && SH.Matches(hmac, secret, body, SH.DecodedSignature(signature).value)
    ensures SH.DecodedSignature(signature).None? ==> r == Err(Message(SH.NoValidSignature))
    ensures SH.DecodedSignature(signature).Some? && r.Err? ==> r == Err(Message(SH.MacMismatch))
  {
    match SH.DecodedSignature(signature)
    case None => Err(Message(SH.NoValidSignature))
    case Some(sig) => if SH.Matches(hmac, secret, body, sig) then Ok(()) else Err(Message(SH.MacMismatch))
  }

  /** The single-secret check is clowarden-server's check with no fallback secret configured. */
  lemma SameAsNoFallback(signature: Option<seq<byte>>, secret: seq<byte>, body: seq<byte>,
                         hmac: (seq<byte>, seq<byte>) -> seq<byte>)
    ensures VerifySignature(signature, secret, body, hmac) == SH.VerifySignature(signature, secret, None, body, hmac)
  {
  }

  /** A header carrying the hexadecimal tag of the body under the secret is accepted. */
  lemma SignedBodyAccepted(secret: seq<byte>, body: seq<byte>, hmac: (seq<byte>, seq<byte>) -> seq<byte>)
    ensures VerifySignature(Some(SH.Sha256Prefix + Hex.Encode(hmac(secret, body))), secret, body, hmac).Ok?
  {
    var header := SH.Sha256Prefix + Hex.Encode(hmac(secret, body));
    SH.SignedBodyAccepted(secret, None, body, hmac);
    SameAsNoFallback(Some(header), secret, body, hmac);
  }

  // ------------------------------------------------------ Configuration files

  /** The settings `pr_updates_config` unwraps: the repository and branch, and both legacy paths when legacy is enabled. */
  predicate HasHandlerSettings(cfg: Config) {
    RepositoryKey in cfg.strings && BranchKey in cfg.strings && (LegacyEnabled(cfg) ==> HasLegacyPaths(cfg))
  }

  /**
   * Whether a pull request updates the configuration: it must be on the
   * configured repository and target the configured branch, legacy
   * configuration must be enabled, and one of its files must be the
   * sheriff permissions file or the cncf people file.
   */
  ghost function UpdatesConfig(cfg: Config, gh: OG.Gh, event: SG.PullRequestEvent): Result<bool, Error>
    requires HasHandlerSettings(cfg)
  {
    if cfg.strings[RepositoryKey] != event.repositoryName || cfg.strings[BranchKey] != event.pullRequest.base.ref_
       || !LegacyEnabled(cfg) then
      Ok(false)
    else
      match gh.listPrFiles(event.pullRequest.number)
      case Err(e) => Err(e)
      case Ok(files) =>
        Ok(exists i :: 0 <= i < |files| && (files[i] == cfg.strings[SheriffPathKey] || files[i] == cfg.strings[CncfPathKey]))
  }

  /** `pr_updates_config`: scans the pull request's files, stopping at the first legacy configuration file. */
  method PrUpdatesConfig(cfg: Config, gh: OG.Gh, event: SG.PullRequestEvent) returns (r: Result<bool, Error>)
    requires HasHandlerSettings(cfg)
    ensures r == UpdatesConfig(cfg, gh, event)
  {
    if cfg.strings[RepositoryKey] != event.repositoryName {
      return Ok(false);
    }
    if cfg.strings[BranchKey] != event.pullRequest.base.ref_ {
      return Ok(false);
    }
    if LegacyEnabled(cfg) {
      var legacyCfgFiles := [cfg.strings[SheriffPathKey], cfg.strings[CncfPathKey]];
      var listed := gh.listPrFiles(event.pullRequest.number);
      if listed.Err? {
        return Err(listed.error);
      }
      var files := listed.value;
      for i := 0 to |files|
        invariant forall k :: 0 <= k < i ==> files[k] !in legacyCfgFiles
      {
        if files[i] in legacyCfgFiles {
          return Ok(true);
        }
      }
    }
    r := Ok(false);
  }

  /** With legacy configuration disabled no pull request counts as updating it, whatever its files. */
  lemma NoLegacyNoUpdates(cfg: Config, gh: OG.Gh, event: SG.PullRequestEvent)
    requires HasHandlerSettings(cfg) && !LegacyEnabled(cfg)
    ensures UpdatesConfig(cfg, gh, event) == Ok(false)
  {
  }

  /** A pull request touching the sheriff permissions file of the configured repository and branch updates the configuration. */
  lemma SheriffFileUpdates(cfg: Config, gh: OG.Gh, event: SG.PullRequestEvent, i: nat)
    requires HasHandlerSettings(cfg) && LegacyEnabled(cfg)
    requires cfg.strings[RepositoryKey] == event.repositoryName && cfg.strings[BranchKey] == event.pullRequest.base.ref_
    requires gh.listPrFiles(event.pullRequest.number).Ok?
    requires i < |gh.listPrFiles(event.pullRequest.number).value|
    requires gh.listPrFiles(event.pullRequest.number).value[i] == cfg.strings[SheriffPathKey]
    ensures UpdatesConfig(cfg, gh, event) == Ok(true)
  {
  }

  // ------------------------------------------------------ Event handler

  /** The actions the handler acts on. */
  predicate Considered(action: SG.PullRequestEventAction) {
    action.Closed? || action.Opened? || action.Synchronize?
  }

  /** The jobs a pull request event leads to once it is known to update the configuration. */
  function JobsOn(event: SG.PullRequestEvent): (jobs: seq<OJ.Job>)
    ensures |jobs| <= 1
    ensures jobs != [] <==> event.action.Opened? || event.action.Synchronize? || (event.action.Closed? && event.pullRequest.merged)
    ensures jobs != [] && jobs[0].Validate? <==> event.action.Opened? || event.action.Synchronize?
    ensures jobs != [] && jobs[0].Validate? ==> jobs[0].validatePr == event.pullRequest
    ensures jobs != [] && jobs[0].Reconcile? ==> jobs[0].pr == Some(event.pullRequest)
  {
    match event.action
    case Opened => [OJ.Validate(event.pullRequest)]
    case Synchronize => [OJ.Validate(event.pullRequest)]
    case Closed => if event.pullRequest.merged then [OJ.Reconcile(Some(event.pullRequest))] else []
    case Other => []
  }

  /** The pull request event, acted on and updating the configuration, that a delivery carries. */
  ghost predicate Actionable(cfg: Config, gh: OG.Gh, ev: Result<SG.Event, SG.EventError>)
    requires HasHandlerSettings(cfg)
  {
    && ev.Ok?
    && Considered(ev.value.event.action)
    && UpdatesConfig(cfg, gh, ev.value.event) == Ok(true)
  }

  /**
   * The handler's decision chain for a pull request event: an action it
   * acts on and a pull request that updates the configuration; then the
   * in-progress check and the job.
   */
  method OnPullRequest(cfg: Config, gh: OG.Gh, event: SG.PullRequestEvent)
    returns (checks: seq<SG.ChecksCreateRequest>, jobs: seq<OJ.Job>)
    requires HasHandlerSettings(cfg)
    ensures !Actionable(cfg, gh, Ok(SG.PullRequest(event))) ==> checks == [] && jobs == []
    ensures Actionable(cfg, gh, Ok(SG.PullRequest(event))) ==> jobs == JobsOn(event)
    ensures checks == (if jobs != [] && jobs[0].Validate? then
      [SG.NewChecksCreateRequest(event.pullRequest.head.sha, Some(SG.InProgress), None, ValidatingText)] else [])
  {
    checks, jobs := [], [];
    if !Considered(event.action) {
      return;
    }
    var updates := PrUpdatesConfig(cfg, gh, event);
    if updates != Ok(true) {
      return;
    }
    if event.action.Opened? || event.action.Synchronize? {
      var checkBody := SG.NewChecksCreateRequest(event.pullRequest.head.sha, Some(SG.InProgress), None, ValidatingText);
      var _ := gh.createCheckRun(checkBody);
      checks := [checkBody];
    }
    jobs := JobsOn(event);
  }

  /**
   * `event`: a bad signature, a missing event header or a body that does
   * not parse is a 400; an unsupported event is accepted and ignored; a
   * pull request event goes through `OnPullRequest`. Failures creating the
   * check run or checking the pull request's files are only logged.
   */
  method HandleEvent(cfg: Config, gh: OG.Gh, secret: seq<byte>, hmac: (seq<byte>, seq<byte>) -> seq<byte>,
                     signature: Option<seq<byte>>, eventHeader: Option<string>, body: seq<byte>,
                     parse: seq<byte> -> Result<SG.PullRequestEvent, string>)
    returns (r: Result<(), SH.Rejection>, checks: seq<SG.ChecksCreateRequest>, jobs: seq<OJ.Job>)
    requires HasHandlerSettings(cfg)
    ensures VerifySignature(signature, secret, body, hmac).Err? ==>
      r == Err(SH.Rejection(BadRequest, SH.NoValidSignature)) && checks == [] && jobs == []
    ensures var ev := SG.EventFrom(eventHeader, body, parse);
      VerifySignature(signature, secret, body, hmac).Ok? && ev.Err? ==>
        checks == [] && jobs == [] &&
        r == (if ev.error.UnsupportedEvent? then Ok(()) else Err(SH.Rejection(BadRequest, SG.EventErrorText(ev.error))))
    ensures var ev := SG.EventFrom(eventHeader, body, parse);
      r.Ok? <==> VerifySignature(signature, secret, body, hmac).Ok? && (ev.Ok? || ev.error.UnsupportedEvent?)
    ensures var ev := SG.EventFrom(eventHeader, body, parse);
      jobs != [] ==>
        && VerifySignature(signature, secret, body, hmac).Ok?
        && Actionable(cfg, gh, ev)
        && jobs == JobsOn(ev.value.event)
    ensures var ev := SG.EventFrom(eventHeader, body, parse);
      VerifySignature(signature, secret, body, hmac).Ok? && Actionable(cfg, gh, ev) ==> jobs == JobsOn(ev.value.event)
    ensures checks != [] ==>
      && |jobs| == 1 && jobs[0].Validate? && |checks| == 1
      && checks[0] == SG.NewChecksCreateRequest(jobs[0].validatePr.head.sha, Some(SG.InProgress), None, ValidatingText)
  {
    checks, jobs := [], [];
    if VerifySignature(signature, secret, body, hmac).Err? {
      return Err(SH.Rejection(BadRequest, SH.NoValidSignature)), checks, jobs;
    }
    var ev := SG.EventFrom(eventHeader, body, parse);
    if ev.Err? {
      if ev.error.UnsupportedEvent? {
        return Ok(()), checks, jobs;
      }
      return Err(SH.Rejection(BadRequest, SG.EventErrorText(ev.error))), checks, jobs;
    }
    checks, jobs := OnPullRequest(cfg, gh, ev.value.event);
    r := Ok(());
  }
}
