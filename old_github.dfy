/**
 * The first generation's GitHub layer (src/github.rs). Its webhook event
 * classification and check-run request are the same as clowarden-server's
 * and are modelled once, in `ServerGithub`; what differs is that the API
 * client is bound to one configured repository and branch, so a file read
 * without a ref reads the configured branch.
 */
module OldGithub {
  import opened Common
  import opened Errors
  import CG = CoreGithub
  import SG = ServerGithub

  /** `GHApi`: the organization, repository and branch the client was configured with. */
  datatype GhApi = GhApi(org: string, repo: string, branch: string)

  /**
   * The foreign pieces of `get_file_content`: the contents API (the
   * base64 payload of a file at a ref), the base64 decoder and the UTF-8
   * check.
   */
  datatype FileCalls = FileCalls(
    getContentFile: (string, string, string, string) -> Result<seq<CG.byte>, Error>,
    b64Decode: seq<CG.byte> -> Result<seq<CG.byte>, Error>,
    fromUtf8: seq<CG.byte> -> Result<string, Error>)

  /** `ref_.unwrap_or(&self.branch)`. */
  function RefOrBranch(api: GhApi, ref_: Option<string>): (r: string)
    ensures ref_.Some? ==> r == ref_.value
    ensures ref_.None? ==> r == api.branch
  {
    match ref_
    case Some(x) => x
    case None => api.branch
  }

  /**
   * `get_file_content`: reads the file at the given ref (the configured
   * branch when none is given), drops the whitespace bytes of its payload
   * in place, then decodes it; the first failing step's error is the
   * result.
   */
  method GetFileContent(api: GhApi, calls: FileCalls, path: string, ref_: Option<string>)
    returns (r: Result<string, Error>)
    ensures var fetched := calls.getContentFile(api.org, api.repo, path, RefOrBranch(api, ref_));
      && (fetched.Err? ==> r == Err(fetched.error))
      && (fetched.Ok? ==>
            var decoded := calls.b64Decode(CG.StripWhitespace(fetched.value));
            && (decoded.Err? ==> r == Err(decoded.error))
            && (decoded.Ok? ==> r == calls.fromUtf8(decoded.value)))
  {
    var fetched := calls.getContentFile(api.org, api.repo, path, RefOrBranch(api, ref_));
    if fetched.Err? {
      return Err(fetched.error);
    }
    var content := new CG.byte[|fetched.value|](i requires 0 <= i < |fetched.value| => fetched.value[i]);
    assert content[..] == fetched.value;
    var len := CG.RetainNonWhitespace(content);
    var decoded := calls.b64Decode(content[..len]);
    if decoded.Err? {
      return Err(decoded.error);
    }
    r := calls.fromUtf8(decoded.value);
  }

  /**
   * The first generation's `GH` trait, bound to the configured repository:
   * file reads (by path and optional ref), check runs, the files of a pull
   * request and comments (answering with their id).
   */
  datatype Gh = Gh(
    getFileContent: (string, Option<string>) -> Result<string, Error>,
    createCheckRun: SG.ChecksCreateRequest -> Result<(), Error>,
    listPrFiles: int -> Result<seq<string>, Error>,
    postComment: (int, string) -> Result<int, Error>)
}
