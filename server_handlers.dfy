/**
 * clowarden-server's webhook handler: the signature check (primary secret,
 * then the fallback), whether a pull request touches the configuration,
 * and the decision chain from a delivery to the check run and the job it
 * starts. HMAC-SHA256 (RFC 2104) is a function parameter; the jobs sent
 * on the channel and the check runs requested are returned.
 */
module ServerHandlers {
  import opened Common
  import opened Errors
  import opened CoreCfg
  import opened Collections
  import CG = CoreGithub
  import SG = ServerGithub
  import Hex
  import opened ServerJobs
  import opened CoreServices

  type byte = CG.byte

  const BadRequest := 400
  const NoValidSignature := "no valid signature found"
  /** `Display` of the MAC crate's verification error. */
  const MacMismatch := "MAC tag mismatch"
  const ValidatingText := "Validating configuration changes"

  /** The bytes of `sha256=`. */
  const Sha256Prefix: seq<byte> := [115, 104, 97, 50, 53, 54, 61]

  /** `HeaderValue::to_str` succeeds: visible ASCII or tab only. */
  predicate IsVisibleAscii(h: seq<byte>) {
    forall i :: 0 <= i < |h| ==> 32 <= h[i] < 127 || h[i] == 9
  }

  /** The signature the header carries: `sha256=` followed by hexadecimal digits. */
  function DecodedSignature(header: Option<seq<byte>>): (sig: Option<seq<byte>>)
    ensures sig.Some? <==> header.Some? && IsVisibleAscii(header.value) && Sha256Prefix <= header.value
                           && Hex.Decode(header.value[|Sha256Prefix|..]).Some?
    ensures sig.Some? ==> sig == Hex.Decode(header.value[|Sha256Prefix|..])
  {
    if header.Some? && IsVisibleAscii(header.value) && Sha256Prefix <= header.value then
      Hex.Decode(header.value[|Sha256Prefix|..])
    else None
  }

  /** The tag a valid delivery carries under `key`. */
  predicate Matches(hmac: (seq<byte>, seq<byte>) -> seq<byte>, key: seq<byte>, body: seq<byte>, sig: seq<byte>) {
    hmac(key, body) == sig
  }

  /**
   * `verify_signature`: the primary secret is tried first; only when it
   * does not match and a fallback is configured is the fallback tried.
   */
  function VerifySignature(signature: Option<seq<byte>>, secret: seq<byte>, secretFallback: Option<seq<byte>>,
                           body: seq<byte>, hmac: (seq<byte>, seq<byte>) -> seq<byte>): (r: Result<(), Error>)
    ensures r.Ok? <==>
      && DecodedSignature(signature).Some?
      && (|| Matches(hmac, secret, body, DecodedSignature(signature).value)
          || (secretFallback.Some? && Matches(hmac, secretFallback.value, body, DecodedSignature(signature).value)))
    ensures DecodedSignature(signature).None? ==> r == Err(Message(NoValidSignature))
    ensures DecodedSignature(signature).Some? && r.Err? ==> r == Err(Message(MacMismatch))
  {
    match DecodedSignature(signature)
    case None => Err(Message(NoValidSignature))
    case Some(sig) =>
      if Matches(hmac, secret, body, sig) then Ok(())
      else if secretFallback.None? then Err(Message(MacMismatch))
      else if Matches(hmac, secretFallback.value, body, sig) then Ok(())
      else Err(Message(MacMismatch))
  }

  /** A fallback secret only widens what is accepted: whatever the primary secret accepts stays accepted. */
  lemma FallbackWidens(signature: Option<seq<byte>>, secret: seq<byte>, fallback: seq<byte>, body: seq<byte>,
                       hmac: (seq<byte>, seq<byte>) -> seq<byte>)
    ensures VerifySignature(signature, secret, None, body, hmac).Ok? ==>
      VerifySignature(signature, secret, Some(fallback), body, hmac).Ok?
    ensures VerifySignature(signature, secret, Some(fallback), body, hmac).Ok? <==>
      VerifySignature(signature, secret, None, body, hmac).Ok? || VerifySignature(signature, fallback, None, body, hmac).Ok?
  {
  }

  /** A header carrying the hexadecimal tag of the body under the secret is accepted. */
  lemma SignedBodyAccepted(secret: seq<byte>, secretFallback: Option<seq<byte>>, body: seq<byte>,
                           hmac: (seq<byte>, seq<byte>) -> seq<byte>)
    ensures var header := Sha256Prefix + Hex.Encode(hmac(secret, body));
      VerifySignature(Some(header), secret, secretFallback, body, hmac).Ok?
  {
    var tag := hmac(secret, body);
    var header := Sha256Prefix + Hex.Encode(tag);
    Hex.DecodeEncode(tag);
    assert header[|Sha256Prefix|..] == Hex.Encode(tag);
    EncodeVisible(tag);
  }

  /** Hexadecimal text is visible ASCII. */
  lemma EncodeVisible(tag: seq<byte>)
    ensures IsVisibleAscii(Sha256Prefix + Hex.Encode(tag))
  {
    var e := Hex.Encode(tag);
    EncodeDigits(tag);
    assert forall i :: 0 <= i < |e| ==> Hex.IsDigit(e[i]);
    assert forall i :: |Sha256Prefix| <= i < |Sha256Prefix + e| ==> (Sha256Prefix + e)[i] == e[i - |Sha256Prefix|];
  }

  lemma {:induction false} EncodeDigits(tag: seq<byte>)
    ensures forall i :: 0 <= i < |Hex.Encode(tag)| ==> Hex.IsDigit(Hex.Encode(tag)[i])
  {
    if tag != [] {
      EncodeDigits(tag[1..]);
      var e := Hex.Encode(tag);
      assert forall i :: 2 <= i < |e| ==> e[i] == Hex.Encode(tag[1..])[i - 2];
    }
  }

  // ------------------------------------------------------ Configuration files

  /** The legacy configuration files: the sheriff permissions file and the cncf people file when configured. */
  function LegacyCfgFiles(legacy: Legacy): (files: seq<string>)
    ensures legacy.sheriffPermissionsPath in files
    ensures forall f :: f in files <==> f == legacy.sheriffPermissionsPath || Some(f) == legacy.cncfPeoplePath
  {
    [legacy.sheriffPermissionsPath] + (if legacy.cncfPeoplePath.Some? then [legacy.cncfPeoplePath.value] else [])
  }

  /**
   * Whether a pull request updates the organization's configuration: it
   * must target the configuration repository's configured branch, and with
   * legacy configuration enabled one of its files must be a legacy file.
   */
  ghost function UpdatesConfig(gh: SG.Gh, org: Organization, event: SG.PullRequestEvent): Result<bool, Error> {
    if org.repository != event.repositoryName || org.branch != event.pullRequest.base.ref_ || !org.legacy.enabled then
      Ok(false)
    else
      match gh.listPrFiles(SG.CtxFrom(org), event.pullRequest.number)
      case Err(e) => Err(e)
      case Ok(files) => Ok(exists i :: 0 <= i < |files| && files[i] in LegacyCfgFiles(org.legacy))
  }

  /** `pr_updates_config`: scans the pull request's files, stopping at the first configuration file. */
  method PrUpdatesConfig(gh: SG.Gh, org: Organization, event: SG.PullRequestEvent) returns (r: Result<bool, Error>)
    ensures r == UpdatesConfig(gh, org, event)
  {
    if org.repository != event.repositoryName {
      return Ok(false);
    }
    if org.branch != event.pullRequest.base.ref_ {
      return Ok(false);
    }
    if org.legacy.enabled {
      var legacyCfgFiles := LegacyCfgFiles(org.legacy);
      var listed := gh.listPrFiles(SG.CtxFrom(org), event.pullRequest.number);
      if listed.Err? {
        return Err(listed.error);
      }
      var files := listed.value;
      for i := 0 to |files|
        invariant forall k :: 0 <= k < i ==> files[k] !in legacyCfgFiles
      {
        if files[i] in legacyCfgFiles {
          return Ok(true);
        }
      }
    }
    r := Ok(false);
  }

  /** With legacy configuration disabled no pull request counts as updating it. */
  lemma NoLegacyNoUpdates(gh: SG.Gh, org: Organization, event: SG.PullRequestEvent)
    requires !org.legacy.enabled
    ensures UpdatesConfig(gh, org, event) == Ok(false)
  {
  }

  // ------------------------------------------------------ Event handler

  /** An HTTP error response. */
  datatype Rejection = Rejection(status: int, message: string)

  /** The registered organization a pull request event comes from, if any. */
  function EventOrg(orgs: seq<Organization>, event: SG.PullRequestEvent): (org: Option<Organization>)
    ensures org.Some? ==> event.organization.Some? && org.value in orgs && org.value.name == event.organization.value
    ensures org.None? <==> event.organization.None? || forall i :: 0 <= i < |orgs| ==> orgs[i].name != event.organization.value
  {
    if event.organization.None? then None
    else Find(orgs, (o: Organization) => o.name == event.organization.value)
  }

  /** The actions the handler acts on. */
  predicate Considered(action: SG.PullRequestEventAction) {
    action.Closed? || action.Opened? || action.Synchronize?
  }

  /** The jobs a pull request event of a registered organization leads to, once it is known to update the configuration. */
  function JobsOn(org: Organization, event: SG.PullRequestEvent, fromUnix: int -> Option<Timestamp>): (jobs: seq<Job>)
    ensures |jobs| <= 1
    ensures jobs != [] <==> event.action.Opened? || event.action.Synchronize? || (event.action.Closed? && event.pullRequest.merged)
    ensures jobs != [] && jobs[0].Validate? <==> event.action.Opened? || event.action.Synchronize?
    ensures jobs != [] ==> OrgName(jobs[0]) == org.name
  {
    match event.action
    case Opened => [Validate(NewValidateInput(org, event.pullRequest))]
    case Synchronize => [Validate(NewValidateInput(org, event.pullRequest))]
    case Closed => if event.pullRequest.merged then [Reconcile(NewReconcileInput(org, event.pullRequest, fromUnix))] else []
    case Other => []
  }

  /** The pull request event, from a registered organization, acted on and updating the configuration, that a delivery carries. */
  ghost predicate Actionable(gh: SG.Gh, orgs: seq<Organization>, ev: Result<SG.Event, SG.EventError>) {
    && ev.Ok?
    && EventOrg(orgs, ev.value.event).Some?
    && Considered(ev.value.event.action)
    && UpdatesConfig(gh, EventOrg(orgs, ev.value.event).value, ev.value.event) == Ok(true)
  }

  /**
   * The handler's decision chain after a valid signature: a registered
   * organization, an action it acts on, and a pull request that updates
   * the configuration; then the in-progress check and the job.
   */
  method OnPullRequest(gh: SG.Gh, orgs: seq<Organization>, event: SG.PullRequestEvent, fromUnix: int -> Option<Timestamp>)
    returns (checks: seq<SG.ChecksCreateRequest>, jobs: seq<Job>)
    ensures !Actionable(gh, orgs, Ok(SG.PullRequest(event))) ==> checks == [] && jobs == []
    ensures Actionable(gh, orgs, Ok(SG.PullRequest(event))) ==> jobs == JobsOn(EventOrg(orgs, event).value, event, fromUnix)
    ensures checks == (if jobs != [] && jobs[0].Validate? then
      [SG.NewChecksCreateRequest(event.pullRequest.head.sha, Some(SG.InProgress), None, ValidatingText)] else [])
  {
    checks, jobs := [], [];
    var found := EventOrg(orgs, event);
    if found.None? {
      return;
    }
    var org := found.value;
    if !Considered(event.action) {
      return;
    }
    var updates := PrUpdatesConfig(gh, org, event);
    if updates != Ok(true) {
      return;
    }
    if event.action.Opened? || event.action.Synchronize? {
      var checkBody := SG.NewChecksCreateRequest(event.pullRequest.head.sha, Some(SG.InProgress), None, ValidatingText);
      var _ := gh.createCheckRun(SG.CtxFrom(org), checkBody);
      checks := [checkBody];
    }
    jobs := JobsOn(org, event, fromUnix);
  }

  /**
   * `event`: a bad signature, a missing event header or a body that does
   * not parse is a 400; an unsupported event is accepted and ignored; a
   * pull request event goes through `OnPullRequest`. Failures creating the
   * check run or checking the pull request's files are only logged.
   */
  method HandleEvent(gh: SG.Gh, secret: seq<byte>, secretFallback: Option<seq<byte>>,
                     hmac: (seq<byte>, seq<byte>) -> seq<byte>, orgs: seq<Organization>,
                     signature: Option<seq<byte>>, eventHeader: Option<string>, body: seq<byte>,
                     parse: seq<byte> -> Result<SG.PullRequestEvent, string>, fromUnix: int -> Option<Timestamp>)
    returns (r: Result<(), Rejection>, checks: seq<SG.ChecksCreateRequest>, jobs: seq<Job>)
    ensures VerifySignature(signature, secret, secretFallback, body, hmac).Err? ==>
      r == Err(Rejection(BadRequest, NoValidSignature)) && checks == [] && jobs == []
    ensures var ev := SG.EventFrom(eventHeader, body, parse);
      VerifySignature(signature, secret, secretFallback, body, hmac).Ok? && ev.Err? ==>
        checks == [] && jobs == [] &&
        r == (if ev.error.UnsupportedEvent? then Ok(()) else Err(Rejection(BadRequest, SG.EventErrorText(ev.error))))
    ensures var ev := SG.EventFrom(eventHeader, body, parse);
      r.Ok? <==> VerifySignature(signature, secret, secretFallback, body, hmac).Ok? && (ev.Ok? || ev.error.UnsupportedEvent?)
    ensures var ev := SG.EventFrom(eventHeader, body, parse);
      jobs != [] ==>
        && VerifySignature(signature, secret, secretFallback, body, hmac).Ok?
        && Actionable(gh, orgs, ev)
        && jobs == JobsOn(EventOrg(orgs, ev.value.event).value, ev.value.event, fromUnix)
    ensures var ev := SG.EventFrom(eventHeader, body, parse);
      VerifySignature(signature, secret, secretFallback, body, hmac).Ok? && Actionable(gh, orgs, ev) ==>
        jobs == JobsOn(EventOrg(orgs, ev.value.event).value, ev.value.event, fromUnix)
    ensures checks != [] ==>
      && |jobs| == 1 && jobs[0].Validate? && |checks| == 1
      && checks[0] == SG.NewChecksCreateRequest(jobs[0].validate.prHeadSha, Some(SG.InProgress), None, ValidatingText)
  {
    checks, jobs := [], [];
    if VerifySignature(signature, secret, secretFallback, body, hmac).Err? {
      return Err(Rejection(BadRequest, NoValidSignature)), checks, jobs;
    }
    var ev := SG.EventFrom(eventHeader, body, parse);
    if ev.Err? {
      if ev.error.UnsupportedEvent? {
        return Ok(()), checks, jobs;
      }
      return Err(Rejection(BadRequest, SG.EventErrorText(ev.error))), checks, jobs;
    }
    checks, jobs := OnPullRequest(gh, orgs, ev.value.event, fromUnix);
    r := Ok(());
  }
}
