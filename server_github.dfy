/**
 * clowarden-server's GitHub layer: classifying a webhook delivery into an
 * event, the check-run request CLOWarden creates on a pull request, and
 * the target of an API request. The API calls are an oracle (`Gh`).
 */
module ServerGithub {
  import opened Common
  import opened Errors
  import opened CoreCfg
  import CG = CoreGithub

  /** Name of CLOWarden's check run. */
  const CheckRunName := "CLOWarden"

  /** `Ctx`: the target of a GitHub API request. */
  datatype Ctx = Ctx(instId: int, owner: string, repo: string)

  /** `Ctx::from(&Organization)`: the organization's installation and configuration repository. */
  function CtxFrom(org: Organization): (ctx: Ctx)
    ensures ctx.instId == org.installationId && ctx.owner == org.name && ctx.repo == org.repository
  {
    Ctx(org.installationId, org.name, org.repository)
  }

  // ------------------------------------------------------ Pull requests

  datatype HeadRepo = HeadRepo(name: string, ownerLogin: string)
  datatype PrHead = PrHead(ref_: string, sha: string, repo: Option<HeadRepo>)
  datatype PrBase = PrBase(ref_: string)

  /** The fields of `PullRequestData` the server reads; `mergedAt` is in seconds since the epoch. */
  datatype PullRequestData = PullRequestData(
    number: int,
    user: Option<string>,
    mergedBy: Option<string>,
    mergedAt: Option<int>,
    merged: bool,
    head: PrHead,
    base: PrBase)

  datatype PullRequestEventAction = Closed | Opened | Synchronize | Other

  /** The payload of a `pull_request` event; `organization` is the organization's login. */
  datatype PullRequestEvent = PullRequestEvent(
    action: PullRequestEventAction,
    number: int,
    organization: Option<string>,
    pullRequest: PullRequestData,
    repositoryName: string,
    sender: string)

  datatype Event = PullRequest(event: PullRequestEvent)

  datatype EventError = MissingHeader | UnsupportedEvent | InvalidBody(msg: string)

  /** `Display` of `EventError`. */
  function EventErrorText(e: EventError): (s: string)
    ensures e.InvalidBody? ==> s == "invalid body: " + e.msg
  {
    match e
    case MissingHeader => "event header missing"
    case UnsupportedEvent => "unsupported event"
    case InvalidBody(m) => "invalid body: " + m
  }

  /**
   * `Event::try_from((header, body))`: only `pull_request` deliveries are
   * events; their body must parse (`parse` stands for the JSON decoder and
   * its error message).
   */
  function EventFrom(header: Option<string>, body: seq<CG.byte>, parse: seq<CG.byte> -> Result<PullRequestEvent, string>)
    : (r: Result<Event, EventError>)
    ensures header.None? ==> r == Err(MissingHeader)
    ensures header.Some? && header.value != "pull_request" ==> r == Err(UnsupportedEvent)
    ensures header == Some("pull_request") && parse(body).Ok? ==> r == Ok(PullRequest(parse(body).value))
    ensures header == Some("pull_request") && parse(body).Err? ==> r == Err(InvalidBody(parse(body).error))
  {
    match header
    case None => Err(MissingHeader)
    case Some(name) =>
      if name == "pull_request" then
        match parse(body)
        case Ok(event) => Ok(PullRequest(event))
        case Err(msg) => Err(InvalidBody(msg))
      else Err(UnsupportedEvent)
  }

  // ------------------------------------------------------ Check runs

  datatype JobStatus = Queued | InProgress | Completed
  /** The check conclusions CLOWarden reports. */
  datatype Conclusion = Success | Failure

  datatype CheckOutput = CheckOutput(title: string, summary: string, text: string)

  /** The fields of `ChecksCreateRequest` CLOWarden fills in; lists it leaves empty are not kept. */
  datatype ChecksCreateRequest = ChecksCreateRequest(
    name: string,
    headSha: string,
    status: Option<JobStatus>,
    conclusion: Option<Conclusion>,
    output: Option<CheckOutput>,
    detailsUrl: string,
    externalId: string)

  /** `new_checks_create_request`: the check is named CLOWarden and `msg` is both its title and summary. */
  function NewChecksCreateRequest(headSha: string, status: Option<JobStatus>, conclusion: Option<Conclusion>, msg: string)
    : (r: ChecksCreateRequest)
    ensures r.name == CheckRunName
    ensures r.headSha == headSha && r.status == status && r.conclusion == conclusion
    ensures r.output.Some? && r.output.value.title == msg && r.output.value.summary == msg && r.output.value.text == ""
  {
    ChecksCreateRequest(CheckRunName, headSha, status, conclusion, Some(CheckOutput(msg, msg, "")), "", "")
  }

  /** Requests for different messages or commits are different. */
  lemma NewChecksCreateRequestInjective(a: string, b: string, s: Option<JobStatus>, c: Option<Conclusion>, x: string, y: string)
    requires NewChecksCreateRequest(a, s, c, x) == NewChecksCreateRequest(b, s, c, y)
    ensures a == b && x == y
  {
  }

  /** The GitHub calls the server makes, as an oracle; comments answer with their id. */
  datatype Gh = Gh(
    createCheckRun: (Ctx, ChecksCreateRequest) -> Result<(), Error>,
    listPrFiles: (Ctx, int) -> Result<seq<string>, Error>,
    postComment: (Ctx, int, string) -> Result<int, Error>)
}
