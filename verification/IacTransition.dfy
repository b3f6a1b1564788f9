/** The migration gate of scripts/validate_railway_services.py: `validate_iac_transition`. */
module IacTransition {
  import opened Options
  import opened Manifest

  const IAC_TARGET_FILE := ".railway/railway.ts"
  const IAC_DEADLINE_GRACE_DAYS := 45

  datatype Complaint =
    | NotAnIacObject | BadStatus | BadTarget | StatusStillImportRequired
    | PastCutoff | CutoffNear(daysLeft: int) | TargetMissing
    | ServicesOmitted(names: set<string>) | DevTargetMissing | DevServicesOmitted(names: set<string>)
    | ConfigFilesRemain(paths: set<string>)

  datatype Notice = RetiresIn(daysLeft: int)

  datatype Judgment = Raised | Judged(errors: seq<Complaint>, notices: seq<Notice>)

  // ---- Quoted literals ----

  predicate IsQuote(c: char) {
    c == '"' || c == '\'' || c == '`'
  }

  /** How many characters precede the first quote or line end. */
  function BodyLength(s: string): (n: nat)
    ensures n <= |s|
    ensures forall k :: 0 <= k < n ==> !IsQuote(s[k]) && s[k] != '\n'
    ensures n < |s| ==> IsQuote(s[n]) || s[n] == '\n'
  {
    if s == "" || IsQuote(s[0]) || s[0] == '\n' then 0 else 1 + BodyLength(s[1..])
  }

  /** `_string_literals`: leftmost matches that do not overlap. */
  function StringLiterals(s: string): set<string> {
    if s == "" then {}
    else if !IsQuote(s[0]) then StringLiterals(s[1..])
    else
      var n := BodyLength(s[1..]);
      if n > 0 && n + 1 < |s| && IsQuote(s[n + 1]) then {s[1..n + 1]} + StringLiterals(s[n + 2..])
      else StringLiterals(s[1..])
  }

  predicate QuotedAt(s: string, name: string, k: nat) {
    && k + |name| + 2 <= |s|
    && IsQuote(s[k]) && s[k + 1..k + 1 + |name|] == name && IsQuote(s[k + 1 + |name|])
  }

  /** The text holds the name between two quotes. */
  ghost predicate QuotedIn(s: string, name: string) {
    exists k: nat :: QuotedAt(s, name, k)
  }

  /** Nothing is taken for a literal that the text does not quote. */
  lemma {:induction false} LiteralsAreQuoted(s: string, name: string)
    requires name in StringLiterals(s)
    ensures QuotedIn(s, name)
  {
    var n := if IsQuote(s[0]) then BodyLength(s[1..]) else 0;
    if IsQuote(s[0]) && n > 0 && n + 1 < |s| && IsQuote(s[n + 1]) {
      if name == s[1..n + 1] {
        assert QuotedAt(s, name, 0);
      } else {
        LiteralsAreQuoted(s[n + 2..], name);
        QuotedLater(s, n + 2, name);
      }
    } else {
      LiteralsAreQuoted(s[1..], name);
      QuotedLater(s, 1, name);
    }
  }

  lemma QuotedLater(s: string, d: nat, name: string)
    requires d <= |s| && QuotedIn(s[d..], name)
    ensures QuotedIn(s, name)
  {
    var k: nat :| QuotedAt(s[d..], name, k);
    QuotedAtLater(s, d, name, k);
  }

  lemma QuotedAtLater(s: string, d: nat, name: string, k: nat)
    requires d <= |s| && QuotedAt(s[d..], name, k)
    ensures QuotedAt(s, name, d + k)
  {
    var t := s[d..];
    var n := k + 1 + |name|;
    assert t[k] == s[d + k] && t[n] == s[d + n];
    assert t[k + 1..n] == s[d + k + 1..d + n];
  }

  predicate PlainName(name: string) {
    name != "" && forall k :: 0 <= k < |name| ==> !IsQuote(name[k]) && name[k] != '\n'
  }

  /** A file that mentions each name in quotes on a line of its own. */
  function Listing(names: seq<string>): string {
    if names == [] then "" else "\"" + names[0] + "\"\n" + Listing(names[1..])
  }

  lemma BodyOf(name: string, rest: string)
    requires PlainName(name) && rest != "" && IsQuote(rest[0])
    ensures BodyLength(name + rest) == |name|
  {
    var s := name + rest;
    assert s[|name|] == rest[0];
    assert forall k :: 0 <= k < |name| ==> s[k] == name[k];
  }

  lemma LiteralAtHead(s: string, name: string)
    requires PlainName(name) && |name| + 2 <= |s| && IsQuote(s[0]) && IsQuote(s[|name| + 1])
    requires s[1..|name| + 1] == name
    ensures StringLiterals(s) == {name} + StringLiterals(s[|name| + 2..])
  {
    BodyOf(name, s[|name| + 1..]);
    assert s[1..] == name + s[|name| + 1..];
  }

  /** A name in quotes on the first line is the first literal, and the search goes on at the next line. */
  lemma FirstLineIsRead(s: string, name: string, rest: string)
    requires PlainName(name) && s == "\"" + name + "\"\n" + rest
    ensures StringLiterals(s) == {name} + StringLiterals(rest)
  {
    assert s[1..|name| + 1] == name && IsQuote(s[|name| + 1]) && s[|name| + 2] == '\n';
    LiteralAtHead(s, name);
    var t := s[|name| + 2..];
    assert t[0] == '\n' && t[1..] == rest;
  }

  lemma FirstAndRest(names: seq<string>)
    requires names != []
    ensures (set name | name in names) == {names[0]} + set name | name in names[1..]
  {
    assert names == [names[0]] + names[1..];
  }

  /** Every name so listed is found, and nothing else. */
  lemma {:induction false} ListingIsRead(names: seq<string>)
    requires forall k :: 0 <= k < |names| ==> PlainName(names[k])
    ensures StringLiterals(Listing(names)) == set name | name in names
  {
    if names != [] {
      FirstLineIsRead(Listing(names), names[0], Listing(names[1..]));
      ListingIsRead(names[1..]);
      FirstAndRest(names);
    }
  }

  // ---- The gate ----

  /** Iterating over `data["instances"]`: only a list yields objects; some values cannot be iterated. */
  function Entries(data: Fields): Option<seq<Json>> {
    if "instances" !in data then None
    else
      match data["instances"]
      case Arr(items) => Some(items)
      case Str(_) => Some([])
      case Obj(_) => Some([])
      case _ => None
  }

  predicate NamedIn(j: Json, environment: string) {
    j.Obj? && Get(j.fields, "name").Str? && Get(j.fields, "environment") == Str(environment)
  }

  function NamesIn(items: seq<Json>, environment: string): set<string> {
    set k | 0 <= k < |items| && NamedIn(items[k], environment) :: items[k].fields["name"].s
  }

  predicate Reads(j: Json, path: string) {
    j.Obj? && Get(j.fields, "configFile") == Str(path)
  }

  predicate ReadsOutside(j: Json, path: string) {
    Reads(j, path) && Get(j.fields, "environment") != Str("production")
  }

  function ConfigFiles(items: seq<Json>): set<string> {
    set k | 0 <= k < |items| && items[k].Obj? && Get(items[k].fields, "configFile").Str?
      :: items[k].fields["configFile"].s
  }

  /** Configuration files that only production instances name, and that are still there. */
  function StillPresent(items: seq<Json>, repo: Repo): set<string> {
    set path | path in ConfigFiles(items)
      && (forall k :: 0 <= k < |items| ==> !ReadsOutside(items[k], path)) && IsFile(repo, LStripSlash(path))
  }

  function Complaining(errors: seq<Complaint>, wrong: bool, c: Complaint): seq<Complaint> {
    if wrong then errors + [c] else errors
  }

  function ImportRequired(errors: seq<Complaint>, repo: Repo, daysLeft: int): Judgment {
    if IsFile(repo, IAC_TARGET_FILE) then Judged(errors + [StatusStillImportRequired], [])
    else if daysLeft <= 0 then Judged(errors + [PastCutoff], [])
    else if daysLeft <= IAC_DEADLINE_GRACE_DAYS then Judged(errors + [CutoffNear(daysLeft)], [])
    else Judged(errors, [RetiresIn(daysLeft)])
  }

  /** The dev part of a managed project; `path` is the dev file, when one is declared. */
  function DevPart(errors: seq<Complaint>, repo: Repo, path: Option<string>, items: seq<Json>): Judgment {
    if path.None? then Judged(errors, [])
    else if !IsFile(repo, path.value) then Judged(errors + [DevTargetMissing], [])
    else if repo[path.value].Locked? then Raised
    else
      var missing := NamesIn(items, "dev") - StringLiterals(repo[path.value].text);
      Judged(Complaining(errors, missing != {}, DevServicesOmitted(missing)), [])
  }

  function Managed(errors: seq<Complaint>, repo: Repo, path: Option<string>, data: Fields): Judgment {
    if !IsFile(repo, IAC_TARGET_FILE) then Judged(errors + [TargetMissing], [])
    else if repo[IAC_TARGET_FILE].Locked? || Entries(data).None? then Raised
    else
      var items := Entries(data).value;
      var missing := NamesIn(items, "production") - StringLiterals(repo[IAC_TARGET_FILE].text);
      match DevPart(Complaining(errors, missing != {}, ServicesOmitted(missing)), repo, path, items)
      case Raised => Raised
      case Judged(e, _) =>
        var left := StillPresent(items, repo);
        Judged(Complaining(e, left != {}, ConfigFilesRemain(left)), [])
  }

  /** `str(dev_target)`, given how the script would show a value that is no string. */
  function DevPath(iac: Fields, shown: Json -> string): Option<string> {
    match Get(iac, "devTargetFile")
    case Null => None
    case Str(s) => Some(s)
    case other => Some(shown(other))
  }

  /** `validate_iac_transition`, so many days before the cut-off. */
  function ValidateTransition(data: Fields, repo: Repo, shown: Json -> string, daysLeft: int): Judgment {
    var iac := Get(data, "infrastructureAsCode");
    if !iac.Obj? then Judged([NotAnIacObject], [])
    else
      var status := Get(iac.fields, "status");
      if !Hashable(status) then Raised
      else
        var errors := Complaining([], !OneOf(status, {"import-required", "managed"}), BadStatus);
        if Get(iac.fields, "targetFile") != Str(IAC_TARGET_FILE) then Judged(errors + [BadTarget], [])
        else if status == Str("import-required") then ImportRequired(errors, repo, daysLeft)
        else Managed(errors, repo, DevPath(iac.fields, shown), data)
  }

  predicate Passes(j: Judgment) {
    j.Judged? && j.errors == []
  }

  // ---- What the gate promises ----

  predicate Declares(data: Fields, status: string) {
    var iac := Get(data, "infrastructureAsCode");
    iac.Obj? && Get(iac.fields, "status") == Str(status) && Get(iac.fields, "targetFile") == Str(IAC_TARGET_FILE)
  }

  /** While the import is still required the gate is open exactly until 45 days before the cut-off. */
  lemma ImportRequiredPassesIff(data: Fields, repo: Repo, shown: Json -> string, daysLeft: int)
    requires Declares(data, "import-required")
    ensures Passes(ValidateTransition(data, repo, shown, daysLeft))
      <==> !IsFile(repo, ".railway/railway.ts") && daysLeft > 45
  {
  }

  lemma ManagedIgnoresDate(data: Fields, repo: Repo, shown: Json -> string, daysLeft: int)
    requires !Declares(data, "import-required")
    ensures ValidateTransition(data, repo, shown, daysLeft) == ValidateTransition(data, repo, shown, 0)
  {
  }

  /** A manifest that fails on one day fails on every later day, until it or the repository changes. */
  lemma FailureIsForEver(data: Fields, repo: Repo, shown: Json -> string, daysLeft: int, later: int)
    requires later <= daysLeft && !Passes(ValidateTransition(data, repo, shown, daysLeft))
    ensures !Passes(ValidateTransition(data, repo, shown, later))
  {
    if Declares(data, "import-required") {
      ImportRequiredPassesIff(data, repo, shown, daysLeft);
      ImportRequiredPassesIff(data, repo, shown, later);
    } else {
      ManagedIgnoresDate(data, repo, shown, daysLeft);
      ManagedIgnoresDate(data, repo, shown, later);
    }
  }

  /** An instance of the environment with the name is listed. */
  ghost predicate Lists(items: seq<Json>, environment: string, name: string) {
    exists fields ::
      && Obj(fields) in items
      && Get(fields, "name") == Str(name) && Get(fields, "environment") == Str(environment)
  }

  /** Every instance of an environment is mentioned, in quotes, in a readable file. */
  ghost predicate AllMentioned(items: seq<Json>, environment: string, repo: Repo, path: string) {
    && IsFile(repo, path) && repo[path].File?
    && forall name :: Lists(items, environment, name) ==> name in StringLiterals(repo[path].text)
  }

  /** An instance that reads the configuration file; `outside` asks for one that is not of production. */
  ghost predicate IsRead(items: seq<Json>, path: string, outside: bool) {
    exists fields ::
      && Obj(fields) in items && Get(fields, "configFile") == Str(path)
      && (outside ==> Get(fields, "environment") != Str("production"))
  }

  /** No configuration file is left over that only production instances read. */
  ghost predicate NoLeftovers(items: seq<Json>, repo: Repo) {
    forall path :: IsRead(items, path, false) && IsFile(repo, LStripSlash(path)) ==> IsRead(items, path, true)
  }

  lemma NamesInIff(items: seq<Json>, environment: string, name: string)
    ensures name in NamesIn(items, environment) <==> Lists(items, environment, name)
  {
    if name in NamesIn(items, environment) {
      var k :| 0 <= k < |items| && NamedIn(items[k], environment) && items[k].fields["name"].s == name;
      assert items[k] == Obj(items[k].fields);
    }
    if Lists(items, environment, name) {
      var fields :| && Obj(fields) in items
                    && Get(fields, "name") == Str(name) && Get(fields, "environment") == Str(environment);
      var k :| 0 <= k < |items| && items[k] == Obj(fields);
      assert NamedIn(items[k], environment);
    }
  }

  lemma MissingIff(items: seq<Json>, environment: string, text: string)
    ensures NamesIn(items, environment) - StringLiterals(text) == {}
      <==> forall name :: Lists(items, environment, name) ==> name in StringLiterals(text)
  {
    var missing := NamesIn(items, environment) - StringLiterals(text);
    forall name: string
      ensures name in NamesIn(items, environment) <==> Lists(items, environment, name)
    {
      NamesInIff(items, environment, name);
    }
    if missing != {} {
      var name :| name in missing;
    }
  }

  lemma ConfigFilesIff(items: seq<Json>, path: string)
    ensures path in ConfigFiles(items) <==> IsRead(items, path, false)
    ensures (exists k :: 0 <= k < |items| && ReadsOutside(items[k], path)) <==> IsRead(items, path, true)
  {
    if k :| 0 <= k < |items| && items[k].Obj? && Get(items[k].fields, "configFile") == Str(path) {
      assert items[k] == Obj(items[k].fields);
    }
    if k :| 0 <= k < |items| && ReadsOutside(items[k], path) {
      assert items[k] == Obj(items[k].fields);
    }
    if fields :| Obj(fields) in items && Get(fields, "configFile") == Str(path) {
      var k :| 0 <= k < |items| && items[k] == Obj(fields);
      assert items[k].fields["configFile"].s == path;
    }
    if IsRead(items, path, true) {
      var fields :| && Obj(fields) in items && Get(fields, "configFile") == Str(path)
                    && Get(fields, "environment") != Str("production");
      var k :| 0 <= k < |items| && items[k] == Obj(fields);
      assert ReadsOutside(items[k], path);
    }
  }

  lemma LeftoversIff(items: seq<Json>, repo: Repo)
    ensures StillPresent(items, repo) == {} <==> NoLeftovers(items, repo)
  {
    forall path: string
      ensures path in StillPresent(items, repo)
        <==> IsRead(items, path, false) && IsFile(repo, LStripSlash(path)) && !IsRead(items, path, true)
    {
      ConfigFilesIff(items, path);
    }
    if StillPresent(items, repo) != {} {
      var path :| path in StillPresent(items, repo);
    }
  }

  /** The instances that the gate goes through; those of a text or an object are no objects, and do not count. */
  ghost predicate Iterated(data: Fields, items: seq<Json>) {
    && "instances" in data
    && (data["instances"] == Arr(items) || (items == [] && (data["instances"].Str? || data["instances"].Obj?)))
  }

  lemma IteratedIff(data: Fields, items: seq<Json>)
    ensures Entries(data) == Some(items) <==> Iterated(data, items)
  {
  }

  /** The dev file, if one is declared, mentions every dev instance; `shown` is how other values are written. */
  ghost predicate DevMentioned(dev: Json, items: seq<Json>, repo: Repo, shown: Json -> string) {
    dev == Null || AllMentioned(items, "dev", repo, if dev.Str? then dev.s else shown(dev))
  }

  ghost predicate CompleteFor(items: seq<Json>, iac: Fields, repo: Repo, shown: Json -> string) {
    && AllMentioned(items, "production", repo, ".railway/railway.ts")
    && DevMentioned(Get(iac, "devTargetFile"), items, repo, shown)
    && NoLeftovers(items, repo)
  }

  /**
   * The files of a managed project are complete: its file mentions every production instance, its dev
   * file, if one is declared, every dev instance, and no configuration file is left over.
   */
  ghost predicate Complete(data: Fields, repo: Repo, shown: Json -> string)
    requires Get(data, "infrastructureAsCode").Obj?
  {
    exists items :: Iterated(data, items) && CompleteFor(items, data["infrastructureAsCode"].fields, repo, shown)
  }

  lemma ManagedIff(data: Fields, iac: Fields, items: seq<Json>, repo: Repo, shown: Json -> string)
    requires Entries(data) == Some(items)
    ensures Passes(Managed([], repo, DevPath(iac, shown), data)) <==> CompleteFor(items, iac, repo, shown)
  {
    var path := DevPath(iac, shown);
    if IsFile(repo, IAC_TARGET_FILE) && repo[IAC_TARGET_FILE].File? {
      MissingIff(items, "production", repo[IAC_TARGET_FILE].text);
      LeftoversIff(items, repo);
      if path.Some? && IsFile(repo, path.value) && repo[path.value].File? {
        MissingIff(items, "dev", repo[path.value].text);
      }
    }
  }

  /** A managed project passes exactly when complete, so that its file deletes no listed service by omission. */
  lemma ManagedPassesIff(data: Fields, repo: Repo, shown: Json -> string, daysLeft: int)
    requires Declares(data, "managed")
    ensures Passes(ValidateTransition(data, repo, shown, daysLeft)) <==> Complete(data, repo, shown)
  {
    var iac := data["infrastructureAsCode"].fields;
    assert ValidateTransition(data, repo, shown, daysLeft) == Managed([], repo, DevPath(iac, shown), data);
    if Entries(data).Some? {
      IteratedIff(data, Entries(data).value);
      ManagedIff(data, iac, Entries(data).value, repo, shown);
    }
    if items :| Iterated(data, items) {
      IteratedIff(data, items);
    }
  }

  /** The gate: early enough and not yet imported, or imported and complete. */
  ghost predicate Open(data: Fields, repo: Repo, shown: Json -> string, daysLeft: int) {
    || (Declares(data, "import-required") && !IsFile(repo, ".railway/railway.ts") && daysLeft > 45)
    || (Declares(data, "managed") && Complete(data, repo, shown))
  }

  lemma PassesIffOpen(data: Fields, repo: Repo, shown: Json -> string, daysLeft: int)
    ensures Passes(ValidateTransition(data, repo, shown, daysLeft)) <==> Open(data, repo, shown, daysLeft)
  {
    if Declares(data, "import-required") {
      ImportRequiredPassesIff(data, repo, shown, daysLeft);
    } else if Declares(data, "managed") {
      ManagedPassesIff(data, repo, shown, daysLeft);
    }
  }

  // ---- The script's own steps ----

  method ValidateIacTransition(data: Fields, repo: Repo, shown: Json -> string, daysLeft: int) returns (r: Judgment)
    ensures Passes(r) <==> Open(data, repo, shown, daysLeft)
    ensures r == ValidateTransition(data, repo, shown, daysLeft)
  {
    PassesIffOpen(data, repo, shown, daysLeft);
    var errors: seq<Complaint> := [];
    var iac := Get(data, "infrastructureAsCode");
    if !iac.Obj? {
      return Judged([NotAnIacObject], []);
    }
    var status := Get(iac.fields, "status");
    if !Hashable(status) {
      return Raised;
    }
    if !OneOf(status, {"import-required", "managed"}) {
      errors := errors + [BadStatus];
    }
    if Get(iac.fields, "targetFile") != Str(IAC_TARGET_FILE) {
      return Judged(errors + [BadTarget], []);
    }
    var present := IsFile(repo, IAC_TARGET_FILE);
    if status == Str("import-required") {
      if present {
        errors := errors + [StatusStillImportRequired];
      } else if daysLeft <= 0 {
        errors := errors + [PastCutoff];
      } else if daysLeft <= IAC_DEADLINE_GRACE_DAYS {
        errors := errors + [CutoffNear(daysLeft)];
      } else {
        return Judged(errors, [RetiresIn(daysLeft)]);
      }
      return Judged(errors, []);
    }
    if !present {
      return Judged(errors + [TargetMissing], []);
    }
    if repo[IAC_TARGET_FILE].Locked? || Entries(data).None? {
      return Raised;
    }
    var items := Entries(data).value;
    var missing := NamesIn(items, "production") - StringLiterals(repo[IAC_TARGET_FILE].text);
    if missing != {} {
      errors := errors + [ServicesOmitted(missing)];
    }
    var dev := DevPath(iac.fields, shown);
    if dev.Some? {
      if !IsFile(repo, dev.value) {
        errors := errors + [DevTargetMissing];
      } else if repo[dev.value].Locked? {
        return Raised;
      } else {
        var devMissing := NamesIn(items, "dev") - StringLiterals(repo[dev.value].text);
        if devMissing != {} {
          errors := errors + [DevServicesOmitted(devMissing)];
        }
      }
    }
    var left := StillPresent(items, repo);
    if left != {} {
      errors := errors + [ConfigFilesRemain(left)];
    }
    return Judged(errors, []);
  }
}
