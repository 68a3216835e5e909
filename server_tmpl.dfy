/**
 * The flags clowarden-server's comment templates are rendered with: after
 * a reconcile, which services took part, whether any change was applied
 * and whether anything went wrong; after a validation, whether any change
 * was found and whether some base configuration was invalid. The rendering
 * itself is not modelled. Service maps are iterated in an unspecified
 * order, so the keys are enumerated in whatever order `Enumerate` gives.
 */
module ServerTmpl {
  import opened Common
  import opened Errors
  import opened Collections
  import opened CoreServices

  // ------------------------------------------------------ Reconciliation completed

  datatype ReconciliationCompleted<C> = ReconciliationCompleted(
    services: seq<string>,
    changesApplied: map<string, seq<ChangeApplied<C>>>,
    someChangesApplied: bool,
    errors: map<string, Error>,
    errorsFound: bool)

  /** The scan for a service with a non-empty list of applied changes, stopping at the first. */
  function AnyApplied<C>(keys: seq<string>, m: map<string, seq<ChangeApplied<C>>>): (b: bool)
    requires forall i :: 0 <= i < |keys| ==> keys[i] in m
    ensures b <==> exists i :: 0 <= i < |keys| && m[keys[i]] != []
  {
    if keys == [] then false
    else if m[keys[0]] != [] then true
    else
      var b := AnyApplied(keys[1..], m);
      assert forall i :: 1 <= i < |keys| ==> keys[i] == keys[1..][i - 1];
      b
  }

  /** The scan for an applied change that carries an error. */
  function AnyFailed<C>(changes: seq<ChangeApplied<C>>): (b: bool)
    ensures b <==> exists j :: 0 <= j < |changes| && changes[j].error.Some?
  {
    if changes == [] then false
    else if changes[0].error.Some? then true
    else
      var b := AnyFailed(changes[1..]);
      assert forall j :: 1 <= j < |changes| ==> changes[j] == changes[1..][j - 1];
      b
  }

  /** The same scan over every service's changes. */
  function AnyServiceFailed<C>(keys: seq<string>, m: map<string, seq<ChangeApplied<C>>>): (b: bool)
    requires forall i :: 0 <= i < |keys| ==> keys[i] in m
    ensures b <==> exists i :: 0 <= i < |keys| && AnyFailed(m[keys[i]])
  {
    if keys == [] then false
    else if AnyFailed(m[keys[0]]) then true
    else
      var b := AnyServiceFailed(keys[1..], m);
      assert forall i :: 1 <= i < |keys| ==> keys[i] == keys[1..][i - 1];
      b
  }

  /** Some service applied changes. */
  ghost predicate SomeApplied<C>(m: map<string, seq<ChangeApplied<C>>>) {
    exists s :: s in m && m[s] != []
  }

  /** Some applied change, of any service, carries an error. */
  ghost predicate SomeFailed<C>(m: map<string, seq<ChangeApplied<C>>>) {
    exists s, j :: s in m && 0 <= j < |m[s]| && m[s][j].error.Some?
  }

  /** What the reconciliation template is built from: the maps, the services in that order and both flags. */
  ghost predicate IsReconciliationCompleted<C>(t: ReconciliationCompleted<C>, changesApplied: map<string, seq<ChangeApplied<C>>>,
                                               errors: map<string, Error>)
  {
    && t.changesApplied == changesApplied && t.errors == errors
    && |t.services| == |changesApplied.Keys| + |errors.Keys|
    && Elems(t.services[..|changesApplied.Keys|]) == changesApplied.Keys
    && Elems(t.services[|changesApplied.Keys|..]) == errors.Keys
    && (t.someChangesApplied <==> SomeApplied(changesApplied))
    && (t.errorsFound <==> |errors.Keys| > 0 || SomeFailed(changesApplied))
  }

  /**
   * `ReconciliationCompleted::new`: the services are those with applied
   * changes followed by those that failed; errors are found when a service
   * failed or some applied change carries an error.
   */
  method NewReconciliationCompleted<C>(changesApplied: map<string, seq<ChangeApplied<C>>>, errors: map<string, Error>)
    returns (t: ReconciliationCompleted<C>)
    ensures IsReconciliationCompleted(t, changesApplied, errors)
  {
    var services, applied := ServiceNames(changesApplied, errors);
    var some, anyFailed := ScanApplied(applied, changesApplied);
    var found := |errors.Keys| > 0 || anyFailed;
    t := ReconciliationCompleted(services, changesApplied, some, errors, found);
  }

  /** `changes_applied.keys().chain(errors.keys())`; `applied` is the first part. */
  method ServiceNames<C>(changesApplied: map<string, seq<ChangeApplied<C>>>, errors: map<string, Error>)
    returns (services: seq<string>, applied: seq<string>)
    ensures Elems(applied) == changesApplied.Keys
    ensures |services| == |changesApplied.Keys| + |errors.Keys|
    ensures services[..|changesApplied.Keys|] == applied
    ensures Elems(services[|changesApplied.Keys|..]) == errors.Keys
  {
    applied := Enumerate(changesApplied.Keys);
    var failed := Enumerate(errors.Keys);
    services := applied + failed;
    assert services[..|applied|] == applied && services[|applied|..] == failed;
  }
  /** Both scans over the applied changes, keyed by every service in `keys`. */
  method ScanApplied<C>(keys: seq<string>, m: map<string, seq<ChangeApplied<C>>>) returns (some: bool, failed: bool)
    requires Elems(keys) == m.Keys
    ensures some <==> SomeApplied(m)
    ensures failed <==> SomeFailed(m)
  {
    AppliedFacts(keys, m);
    some := AnyApplied(keys, m);
    FailedFacts(keys, m);
    failed := AnyServiceFailed(keys, m);
  }

  lemma AppliedFacts<C>(keys: seq<string>, m: map<string, seq<ChangeApplied<C>>>)
    requires Elems(keys) == m.Keys
    ensures forall i :: 0 <= i < |keys| ==> keys[i] in m
    ensures AnyApplied(keys, m) <==> SomeApplied(m)
  {
    if AnyApplied(keys, m) {
      var i :| 0 <= i < |keys| && m[keys[i]] != [];
      assert keys[i] in m;
    }
    if SomeApplied(m) {
      var s :| s in m && m[s] != [];
      assert s in Elems(keys);
      var i :| 0 <= i < |keys| && keys[i] == s;
    }
  }

  lemma FailedFacts<C>(keys: seq<string>, m: map<string, seq<ChangeApplied<C>>>)
    requires Elems(keys) == m.Keys
    requires forall i :: 0 <= i < |keys| ==> keys[i] in m
    ensures AnyServiceFailed(keys, m) <==> SomeFailed(m)
  {
    if AnyServiceFailed(keys, m) {
      var i :| 0 <= i < |keys| && AnyFailed(m[keys[i]]);
      var j :| 0 <= j < |m[keys[i]]| && m[keys[i]][j].error.Some?;
      assert keys[i] in m;
    }
    if SomeFailed(m) {
      var s, j :| s in m && 0 <= j < |m[s]| && m[s][j].error.Some?;
      assert s in Elems(keys);
      var i :| 0 <= i < |keys| && keys[i] == s;
      assert AnyFailed(m[keys[i]]);
    }
  }

  // ------------------------------------------------------ Validation succeeded

  datatype ValidationSucceeded<D, C> = ValidationSucceeded(
    directoryChanges: ChangesSummary<D>,
    servicesChanges: map<string, ChangesSummary<C>>,
    changesFound: bool,
    invalidBaseRefConfigFound: bool)

  /** The scan for a service summary with changes. */
  function AnyChanges<C>(keys: seq<string>, m: map<string, ChangesSummary<C>>): (b: bool)
    requires forall i :: 0 <= i < |keys| ==> keys[i] in m
    ensures b <==> exists i :: 0 <= i < |keys| && m[keys[i]].changes != []
  {
    if keys == [] then false
    else if m[keys[0]].changes != [] then true
    else
      var b := AnyChanges(keys[1..], m);
      assert forall i :: 1 <= i < |keys| ==> keys[i] == keys[1..][i - 1];
      b
  }

  /** The scan for a service summary whose base configuration is invalid. */
  function AnyInvalid<C>(keys: seq<string>, m: map<string, ChangesSummary<C>>): (b: bool)
    requires forall i :: 0 <= i < |keys| ==> keys[i] in m
    ensures b <==> exists i :: 0 <= i < |keys| && IsInvalid(m[keys[i]].baseRefConfigStatus)
  {
    if keys == [] then false
    else if IsInvalid(m[keys[0]].baseRefConfigStatus) then true
    else
      var b := AnyInvalid(keys[1..], m);
      assert forall i :: 1 <= i < |keys| ==> keys[i] == keys[1..][i - 1];
      b
  }

  /** What the validation template is built from: both summaries and both flags. */
  ghost predicate IsValidationSucceeded<D, C>(t: ValidationSucceeded<D, C>, directoryChanges: ChangesSummary<D>,
                                             servicesChanges: map<string, ChangesSummary<C>>)
  {
    && t.directoryChanges == directoryChanges && t.servicesChanges == servicesChanges
    && (t.changesFound <==> directoryChanges.changes != [] || exists s :: s in servicesChanges && servicesChanges[s].changes != [])
    && (t.invalidBaseRefConfigFound <==>
         directoryChanges.baseRefConfigStatus == Invalid || exists s :: s in servicesChanges && servicesChanges[s].baseRefConfigStatus == Invalid)
  }

  /**
   * `ValidationSucceeded::new`: changes are found when the directory or
   * some service has one; the base configuration is flagged when the
   * directory's or some service's status is exactly `Invalid` (`Unknown`
   * is not).
   */
  method NewValidationSucceeded<D, C>(directoryChanges: ChangesSummary<D>, servicesChanges: map<string, ChangesSummary<C>>)
    returns (t: ValidationSucceeded<D, C>)
    ensures IsValidationSucceeded(t, directoryChanges, servicesChanges)
  {
    var keys := Enumerate(servicesChanges.Keys);
    var changed := AnyChanges(keys, servicesChanges);
    var invalid := AnyInvalid(keys, servicesChanges);
    forall s | s in servicesChanges ensures s in Elems(keys) {
    }
    if changed {
      var i :| 0 <= i < |keys| && servicesChanges[keys[i]].changes != [];
      assert keys[i] in servicesChanges;
    } else {
      forall s | s in servicesChanges ensures servicesChanges[s].changes == [] {
        var i :| 0 <= i < |keys| && keys[i] == s;
      }
    }
    if invalid {
      var i :| 0 <= i < |keys| && IsInvalid(servicesChanges[keys[i]].baseRefConfigStatus);
      assert keys[i] in servicesChanges;
    } else {
      forall s | s in servicesChanges ensures servicesChanges[s].baseRefConfigStatus != Invalid {
        var i :| 0 <= i < |keys| && keys[i] == s;
      }
    }
    t := ValidationSucceeded(directoryChanges, servicesChanges,
                             directoryChanges.changes != [] || changed, IsInvalid(directoryChanges.baseRefConfigStatus) || invalid);
  }
}
