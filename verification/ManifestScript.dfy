/** scripts/validate_railway_services.py as a whole: one manifest, two validators, one exit code. */
module ManifestScript {
  import opened Options
  import opened Manifest
  import opened ManifestPolicy
  import opened IacTransition

  /** The object that the manifest file holds, if it can be read and holds one. */
  function ManifestAt(repo: Repo, path: string): Option<Fields> {
    if path !in repo then None
    else
      match repo[path]
      case File(_, Some(Obj(fields))) => Some(fields)
      case _ => None
  }

  /** What a manifest must meet to be accepted. */
  ghost predicate Accepted(repo: Repo, path: string, shown: Json -> string, daysLeft: int) {
    var data := ManifestAt(repo, path);
    data.Some? && Policy(data.value, repo) && Open(data.value, repo, shown, daysLeft)
  }

  /**
   * The script exits with 0 exactly when the manifest is a readable object, the policy holds of it, and
   * the migration gate is open; an uncaught exception also exits with 1.
   */
  method ValidateServices(repo: Repo, manifest: string, shown: Json -> string, daysLeft: int) returns (exit: int)
    ensures exit in {0, 1}
    ensures exit == 0 <==> Accepted(repo, LStripSlash(manifest), shown, daysLeft)
  {
    var data := ManifestAt(repo, LStripSlash(manifest));
    if data.None? {
      return 1;
    }
    NoErrorsIffPolicy(data.value, repo);
    var checked := ValidateManifest(data.value, repo);
    if checked.Crash? {
      return 1;
    }
    var transition := ValidateIacTransition(data.value, repo, shown, daysLeft);
    if transition.Raised? {
      return 1;
    }
    return if checked.errors != [] || transition.errors != [] then 1 else 0;
  }
}
