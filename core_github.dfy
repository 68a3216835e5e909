/**
 * clowarden-core's GitHub access layer: where a configuration file comes
 * from (`Source`), which credentials the API client is set up with, and
 * the whitespace clean-up of a file's base64 payload before it is decoded.
 * The API calls themselves are an oracle (`Gh`).
 */
module CoreGithub {
  import opened Common
  import opened Errors
  import opened CoreCfg

  newtype byte = x: int | 0 <= x < 256

  /** Origin of a file in a GitHub repository. */
  datatype Source = Source(instId: Option<int>, owner: string, repo: string, ref_: string)

  /** `Source::from(&Organization)`: the organization's configuration repository at its branch. */
  function SourceFrom(org: Organization): (src: Source)
    ensures src.instId == Some(org.installationId)
    ensures src.owner == org.name && src.repo == org.repository && src.ref_ == org.branch
  {
    Source(Some(org.installationId), org.name, org.repository, org.branch)
  }

  /** The `GH` trait: the content of a file at a source, or the error the platform gave. */
  datatype Gh = Gh(getFileContent: (Source, string) -> Result<string, Error>)

  /** Credentials an API client is built from. */
  datatype Credentials = InstallationToken(instId: int, appCredentials: string) | Token(token: string)

  /** `GHApi`: app credentials (when built from a GitHub app) or a token. */
  datatype GhApi = GhApi(appCredentials: Option<string>, token: Option<string>)

  const AppCredentialsMissing := "error setting up github client: app credentials not provided"
  const TokenMissing := "error setting up github client: token not provided"

  /**
   * `setup_client`: with an installation id the client needs the app
   * credentials, without one it needs a token; the missing one is an error.
   */
  function SetupClient(api: GhApi, instId: Option<int>): (r: Result<Credentials, Error>)
    ensures instId.Some? ==>
      (api.appCredentials.None? <==> r == Err(Message(AppCredentialsMissing)))
    ensures instId.Some? && api.appCredentials.Some? ==>
      r == Ok(InstallationToken(instId.value, api.appCredentials.value))
    ensures instId.None? ==> (api.token.None? <==> r == Err(Message(TokenMissing)))
    ensures instId.None? && api.token.Some? ==> r == Ok(Token(api.token.value))
    ensures r.Ok? ==> (r.value.InstallationToken? <==> instId.Some?)
  {
    if instId.Some? then
      if api.appCredentials.None? then Err(Message(AppCredentialsMissing))
      else Ok(InstallationToken(instId.value, api.appCredentials.value))
    else if api.token.None? then Err(Message(TokenMissing))
    else Ok(Token(api.token.value))
  }

  /** The bytes `get_file_content` drops: space, `\n`, `\t`, `\r`, `\x0b`, `\x0c`. */
  predicate IsWhitespace(b: byte) {
    b == 0x20 || b == 0x0a || b == 0x09 || b == 0x0d || b == 0x0b || b == 0x0c
  }

  /** The payload with the whitespace bytes removed. */
  function StripWhitespace(s: seq<byte>): (r: seq<byte>)
    ensures |r| <= |s|
  {
    if s == [] then [] else (if IsWhitespace(s[0]) then [] else [s[0]]) + StripWhitespace(s[1..])
  }

  /** No whitespace byte is left. */
  lemma {:induction false} StripLeavesNoWhitespace(s: seq<byte>)
    ensures forall i :: 0 <= i < |StripWhitespace(s)| ==> !IsWhitespace(StripWhitespace(s)[i])
  {
    if s != [] {
      StripLeavesNoWhitespace(s[1..]);
    }
  }

  /** Stripping works piece by piece, so the remaining bytes keep their order. */
  lemma {:induction false} StripConcat(a: seq<byte>, b: seq<byte>)
    ensures StripWhitespace(a + b) == StripWhitespace(a) + StripWhitespace(b)
  {
    if a == [] {
      assert a + b == b;
    } else {
      assert (a + b)[1..] == a[1..] + b;
      StripConcat(a[1..], b);
    }
  }

  /** A payload without whitespace is left as it is; stripping twice is stripping once. */
  lemma {:induction false} StripKeepsClean(s: seq<byte>)
    requires forall i :: 0 <= i < |s| ==> !IsWhitespace(s[i])
    ensures StripWhitespace(s) == s
  {
    if s != [] {
      StripKeepsClean(s[1..]);
    }
  }

  lemma StripIdempotent(s: seq<byte>)
    ensures StripWhitespace(StripWhitespace(s)) == StripWhitespace(s)
  {
    StripLeavesNoWhitespace(s);
    StripKeepsClean(StripWhitespace(s));
  }

  /**
   * `content.retain(|b| !WHITESPACE.contains(b))` on the payload buffer: the
   * kept bytes are compacted to the front, in order; `len` is the new length.
   */
  method RetainNonWhitespace(a: array<byte>) returns (len: nat)
    modifies a
    ensures len <= a.Length
    ensures a[..len] == StripWhitespace(old(a[..]))
  {
    ghost var s := a[..];
    len := 0;
    for r := 0 to a.Length
      invariant len <= r
      invariant a[..len] == StripWhitespace(s[..r])
      invariant a[r..] == s[r..]
    {
      assert s[..r + 1] == s[..r] + [s[r]];
      StripConcat(s[..r], [s[r]]);
      assert StripWhitespace([s[r]]) == if IsWhitespace(s[r]) then [] else [s[r]];
      assert a[r] == s[r];
      if !IsWhitespace(a[r]) {
        ghost var kept := a[..len];
        a[len] := a[r];
        assert a[..len + 1] == kept + [s[r]];
        assert a[r + 1..] == s[r + 1..];
        len := len + 1;
      }
    }
    assert s[..a.Length] == s;
  }
}
