/**
 * The first generation's configuration (the `config` crate): string and
 * boolean settings looked up by key. A string setting read with
 * `get_string(key).unwrap()` must be present, which callers state as a
 * precondition; a boolean read with `if let Ok(true) = get_bool(key)`
 * counts only when present and true. `validate_config` in src/main.rs
 * refuses at startup a configuration without the repository and branch
 * keys, or, with the legacy format enabled, without the two legacy paths,
 * so those preconditions hold for every configuration the server runs
 * with.
 */
module OldCfg {
  datatype Config = Config(strings: map<string, string>, bools: map<string, bool>)

  const LegacyEnabledKey := "config.legacy.enabled"
  const SheriffPathKey := "config.legacy.sheriff.permissionsPath"
  const CncfPathKey := "config.legacy.cncf.peoplePath"
  /** The key the GitHub service's Sheriff loader reads (with a `server.` prefix the other loaders do not use). */
  const ServiceSheriffPathKey := "server.config.legacy.sheriff.permissionsPath"
  const RepositoryKey := "config.repository"
  const BranchKey := "config.branch"
  const WebhookSecretKey := "githubApp.webhookSecret"

  /** `if let Ok(true) = cfg.get_bool("config.legacy.enabled")`. */
  predicate LegacyEnabled(cfg: Config) {
    LegacyEnabledKey in cfg.bools && cfg.bools[LegacyEnabledKey]
  }

  /** The two legacy paths the directory loaders read. */
  predicate HasLegacyPaths(cfg: Config) {
    SheriffPathKey in cfg.strings && CncfPathKey in cfg.strings
  }
}
