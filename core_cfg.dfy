/** The configuration records of clowarden-core (declarations only). */
module CoreCfg {
  import opened Common

  /** A GitHub application's settings. */
  datatype GitHubApp = GitHubApp(
    appId: int,
    privateKey: string,
    webhookSecret: string,
    webhookSecretFallback: Option<string>)

  /** Where an organization's legacy configuration files live. */
  datatype Legacy = Legacy(enabled: bool, sheriffPermissionsPath: string, cncfPeoplePath: Option<string>)

  /** An organization managed by CLOWarden. */
  datatype Organization = Organization(
    name: string,
    installationId: int,
    repository: string,
    branch: string,
    legacy: Legacy)
}
