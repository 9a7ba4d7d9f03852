/** Unix path cleaning and the protected-file test of the safety guardrails. */
module Paths {
  import opened Strings

  /** The components between slashes; always at least one. */
  function Split(s: string): (parts: seq<string>)
    ensures parts != [] && forall k :: 0 <= k < |parts| ==> '/' !in parts[k]
    decreases |s|
  {
    if s == "" then [""]
    else
      var rest := Split(s[1..]);
      if s[0] == '/' then [""] + rest else [[s[0]] + rest[0]] + rest[1..]
  }

  /** One component applied to the components kept so far, as in `filepath.Clean`. */
  function Push(rooted: bool, kept: seq<string>, part: string): seq<string> {
    if part == "" || part == "." then kept
    else if part != ".." then kept + [part]
    else if kept != [] && kept[|kept| - 1] != ".." then kept[..|kept| - 1]
    else if rooted then kept
    else kept + [".."]
  }

  function PushAll(rooted: bool, kept: seq<string>, parts: seq<string>): seq<string>
    decreases |parts|
  {
    if parts == [] then kept else PushAll(rooted, Push(rooted, kept, parts[0]), parts[1..])
  }

  function Rooted(path: string): bool {
    path != "" && path[0] == '/'
  }

  /** The components of the cleaned path. */
  function Components(path: string): seq<string> {
    PushAll(Rooted(path), [], Split(path))
  }

  /** `filepath.Clean` on Unix. */
  function Clean(path: string): string {
    var parts := Components(path);
    if Rooted(path) then "/" + Join(parts, "/")
    else if parts == [] then "."
    else Join(parts, "/")
  }

  /** `filepath.Base`. */
  function Base(path: string): string {
    if path == "" then "."
    else if path[|path| - 1] == '/' then (if |path| == 1 then "/" else Base(path[..|path| - 1]))
    else
      var parts := Split(path);
      parts[|parts| - 1]
  }

  const LOCKFILES: seq<string> := [
    "go.sum", "package-lock.json", "yarn.lock", "pnpm-lock.yaml", "composer.lock", "Gemfile.lock", "cargo.lock"
  ]

  predicate MatchesProtectedPattern(base: string) {
    || ".env" <= base
    || HasSuffix(base, ".pem") || HasSuffix(base, ".key") || HasSuffix(base, ".cert") || HasSuffix(base, ".pfx")
    || base in LOCKFILES
  }

  predicate IsGitMetadata(path: string) {
    var clean := Clean(path);
    IndexOf(clean, "/.git/") >= 0 || ".git/" <= clean || Base(clean) == ".git"
  }

  /** `IsProtectedFile`. */
  predicate IsProtectedFile(path: string) {
    IsGitMetadata(path) || MatchesProtectedPattern(Base(Clean(path)))
  }

  // ----- cleaning is idempotent -----

  /** What cleaning leaves: real names, and `..` only as a leading run of a relative path. */
  predicate Normal(rooted: bool, parts: seq<string>) {
    forall k :: 0 <= k < |parts| ==>
      && parts[k] != "" && parts[k] != "." && '/' !in parts[k]
      && (parts[k] == ".." ==> !rooted && (k == 0 || parts[k - 1] == ".."))
  }

  lemma PushKeepsNormal(rooted: bool, kept: seq<string>, part: string)
    requires Normal(rooted, kept) && '/' !in part
    ensures Normal(rooted, Push(rooted, kept, part))
  {
  }

  lemma {:induction false} PushAllNormal(rooted: bool, kept: seq<string>, parts: seq<string>)
    requires Normal(rooted, kept) && forall k :: 0 <= k < |parts| ==> '/' !in parts[k]
    ensures Normal(rooted, PushAll(rooted, kept, parts))
    decreases |parts|
  {
    if parts != [] {
      PushKeepsNormal(rooted, kept, parts[0]);
      PushAllNormal(rooted, Push(rooted, kept, parts[0]), parts[1..]);
    }
  }

  lemma {:induction false} PushAllOfNormal(rooted: bool, kept: seq<string>, parts: seq<string>)
    requires Normal(rooted, kept + parts)
    ensures PushAll(rooted, kept, parts) == kept + parts
    decreases |parts|
  {
    if parts != [] {
      assert (kept + parts)[|kept|] == parts[0];
      assert parts[0] == ".." && kept != [] ==> (kept + parts)[|kept| - 1] == kept[|kept| - 1];
      assert Push(rooted, kept, parts[0]) == kept + [parts[0]];
      assert kept + [parts[0]] + parts[1..] == kept + parts;
      PushAllOfNormal(rooted, kept + [parts[0]], parts[1..]);
    } else {
      assert kept + parts == kept;
    }
  }

  lemma {:induction false} SplitName(name: string)
    requires '/' !in name
    ensures Split(name) == [name]
    decreases |name|
  {
    if name != "" {
      SplitName(name[1..]);
      assert name == [name[0]] + name[1..];
    }
  }

  lemma {:induction false} SplitAtSlash(name: string, rest: string)
    requires '/' !in name
    ensures Split(name + "/" + rest) == [name] + Split(rest)
    decreases |name|
  {
    var s := name + "/" + rest;
    if name == "" {
      assert s[1..] == rest;
    } else {
      SplitAtSlash(name[1..], rest);
      assert s[1..] == name[1..] + "/" + rest;
      assert name == [name[0]] + name[1..];
    }
  }

  lemma {:induction false} SplitJoin(parts: seq<string>)
    requires parts != [] && forall k :: 0 <= k < |parts| ==> '/' !in parts[k]
    ensures Split(Join(parts, "/")) == parts
    decreases |parts|
  {
    if |parts| == 1 {
      SplitName(parts[0]);
    } else {
      SplitJoin(parts[1..]);
      SplitAtSlash(parts[0], Join(parts[1..], "/"));
    }
  }

  lemma ComponentsNormal(path: string)
    ensures Normal(Rooted(path), Components(path))
  {
    PushAllNormal(Rooted(path), [], Split(path));
  }

  lemma CleanOfEmpty(path: string)
    requires Components(path) == []
    ensures Components(Clean(path)) == [] && Rooted(Clean(path)) == Rooted(path)
  {
    if Rooted(path) {
      SplitAtSlash("", "");
      assert Clean(path) == "" + "/" + "";
      assert Split(Clean(path)) == ["", ""] && ["", ""][1..] == [""] && [""][1..] == [];
    } else {
      SplitName(".");
      assert ["."][1..] == [];
    }
  }

  lemma CleanOfNames(rooted: bool, parts: seq<string>)
    requires parts != [] && Normal(rooted, parts)
    ensures var path := if rooted then "/" + Join(parts, "/") else Join(parts, "/");
      Components(path) == parts && Rooted(path) == rooted
  {
    var joined := Join(parts, "/");
    SplitJoin(parts);
    assert [] + parts == parts;
    PushAllOfNormal(rooted, [], parts);
    assert parts[0] != "" && parts[0][0] != '/' && joined[0] == parts[0][0];
    if rooted {
      SplitAtSlash("", joined);
      assert "/" + joined == "" + "/" + joined && ([""] + parts)[1..] == parts;
    }
  }

  /** The cleaned path has the same components, and cleaning it again changes nothing. */
  lemma CleanIdempotent(path: string)
    ensures Components(Clean(path)) == Components(path)
    ensures Clean(Clean(path)) == Clean(path)
  {
    if Components(path) == [] {
      CleanOfEmpty(path);
    } else {
      ComponentsNormal(path);
      CleanOfNames(Rooted(path), Components(path));
    }
  }

  /** Protection cannot be avoided by spelling the same path differently. */
  lemma ProtectionIgnoresSpelling(path: string, other: string)
    requires Clean(path) == Clean(other)
    ensures IsProtectedFile(path) == IsProtectedFile(other) == IsProtectedFile(Clean(path))
  {
    CleanIdempotent(path);
    CleanIdempotent(other);
  }

  // ----- the git guard is a test on path components -----

  const DOT_GIT := ".git"

  ghost predicate GitInside(s: string) {
    Contains(s, "/.git/") || ".git/" <= s
  }

  lemma GitPrefix(name: string, rest: string)
    requires '/' !in name
    ensures ".git/" <= name + "/" + rest <==> name == DOT_GIT
  {
    var s, p := name + "/" + rest, ".git/";
    assert s[|name|] == '/' && s[..|name|] == name;
    if p <= s {
      assert s[..5] == p;
      assert s[4] == p[4] == '/' && s[0] == p[0] && s[1] == p[1] && s[2] == p[2] && s[3] == p[3];
      assert |name| <= 4;
      assert forall k :: 0 <= k < |name| ==> name[k] == s[k];
      assert |name| == 4;
    }
  }

  /** An occurrence after the first component, or at the slash that ends it. */
  lemma GitOccurrence(name: string, rest: string, j: nat)
    requires '/' !in name
    ensures OccursAt(name + "/" + rest, "/.git/", j) <==>
      (j == |name| && ".git/" <= rest) || (j > |name| && OccursAt(rest, "/.git/", j - |name| - 1))
  {
    var s, p := name + "/" + rest, "/.git/";
    if j < |name| {
      assert s[j..][0] == name[j] != '/';
    } else if j == |name| {
      assert s[j..] == "/" + rest && p == "/" + ".git/";
      assert p <= s[j..] ==> rest[..5] == s[j..][1..6] == p[1..] == ".git/";
    } else if j <= |s| {
      assert s[j..] == rest[j - |name| - 1..];
    }
  }

  lemma GitInsideStep(name: string, rest: string)
    requires '/' !in name
    ensures GitInside(name + "/" + rest) <==> name == DOT_GIT || GitInside(rest)
  {
    var s := name + "/" + rest;
    GitPrefix(name, rest);
    if j :| OccursAt(s, "/.git/", j) {
      GitOccurrence(name, rest, j);
    }
    GitOccurrence(name, rest, |name|);
    if j :| OccursAt(rest, "/.git/", j) {
      GitOccurrence(name, rest, |name| + 1 + j);
    }
  }

  lemma GitInsideHasSlash(s: string)
    ensures GitInside(s) ==> '/' in s
  {
    if ".git/" <= s {
      assert s[4] == '/';
    }
    if j :| OccursAt(s, "/.git/", j) {
      assert s[j] == s[j..][0];
    }
  }

  lemma {:induction false} GitInsideJoin(parts: seq<string>)
    requires parts != [] && forall k :: 0 <= k < |parts| ==> '/' !in parts[k]
    ensures GitInside(Join(parts, "/")) <==> DOT_GIT in parts[..|parts| - 1]
    decreases |parts|
  {
    if |parts| == 1 {
      GitInsideHasSlash(parts[0]);
    } else {
      GitInsideJoin(parts[1..]);
      GitInsideStep(parts[0], Join(parts[1..], "/"));
      assert parts[..|parts| - 1] == [parts[0]] + parts[1..][..|parts| - 2];
    }
  }

  lemma BaseOfJoin(prefix: string, parts: seq<string>)
    requires parts != [] && Normal(prefix == "/", parts) && prefix in {"", "/"}
    ensures Base(prefix + Join(parts, "/")) == parts[|parts| - 1]
  {
    var s := prefix + Join(parts, "/");
    LastCharOfJoin(parts);
    SplitJoin(parts);
    if prefix == "/" {
      assert s == "" + "/" + Join(parts, "/");
      SplitAtSlash("", Join(parts, "/"));
    } else {
      assert s == Join(parts, "/");
    }
  }

  lemma {:induction false} LastCharOfJoin(parts: seq<string>)
    requires parts != [] && forall k :: 0 <= k < |parts| ==> parts[k] != "" && '/' !in parts[k]
    ensures var s := Join(parts, "/"); s != "" && s[|s| - 1] != '/'
    decreases |parts|
  {
    if |parts| > 1 {
      LastCharOfJoin(parts[1..]);
    }
  }

  lemma GitInsideClean(path: string)
    requires Components(path) != []
    ensures GitInside(Clean(path)) <==> DOT_GIT in Components(path)[..|Components(path)| - 1]
  {
    var parts := Components(path);
    var joined := Join(parts, "/");
    ComponentsNormal(path);
    GitInsideJoin(parts);
    GitInsideStep("", joined);
    assert "" + "/" + joined == "/" + joined;
  }

  lemma BaseOfClean(path: string)
    requires Components(path) != []
    ensures Base(Clean(path)) == Components(path)[|Components(path)| - 1]
  {
    ComponentsNormal(path);
    var joined := Join(Components(path), "/");
    BaseOfJoin(if Rooted(path) then "/" else "", Components(path));
    assert "" + joined == joined;
  }

  lemma NoGitInDot(s: string)
    requires s == "/" || s == "."
    ensures !GitInside(s) && Base(s) != ".git"
  {
    SplitName(".");
    assert |s| == 1;
  }

  /** The three string tests together ask whether some component of the cleaned path is `.git`. */
  lemma GitGuardIsComponentTest(path: string)
    ensures IsGitMetadata(path) <==> DOT_GIT in Components(path)
  {
    var parts, clean := Components(path), Clean(path);
    ContainsExactly(clean, "/.git/");
    if parts == [] {
      NoGitInDot(clean);
    } else {
      GitInsideClean(path);
      BaseOfClean(path);
      assert parts == parts[..|parts| - 1] + [parts[|parts| - 1]];
    }
  }

  // ----- walking a path -----

  predicate IsName(name: string) {
    name != "" && name != "." && name != ".." && '/' !in name
  }

  /** The first character of a path prolongs the first part, or is the slash before the other parts. */
  function Before(c: char, parts: seq<string>): seq<string>
    requires parts != []
  {
    if c == '/' then [""] + parts else [[c] + parts[0]] + parts[1..]
  }

  lemma BeforeConcat(c: char, a: seq<string>, b: seq<string>)
    requires a != []
    ensures Before(c, a + b) == Before(c, a) + b
  {
    assert (a + b)[1..] == a[1..] + b;
  }

  lemma {:induction false} SplitConcat(a: string, b: string)
    ensures Split(a + "/" + b) == Split(a) + Split(b)
    decreases |a|
  {
    var s := a + "/" + b;
    if a == "" {
      assert s[1..] == b;
    } else {
      SplitConcat(a[1..], b);
      assert s[1..] == a[1..] + "/" + b && s[0] == a[0];
      assert Split(s) == Before(a[0], Split(s[1..]));
      BeforeConcat(a[0], Split(a[1..]), Split(b));
    }
  }

  lemma {:induction false} PushAllConcat(rooted: bool, kept: seq<string>, parts: seq<string>, more: seq<string>)
    ensures PushAll(rooted, kept, parts + more) == PushAll(rooted, PushAll(rooted, kept, parts), more)
    decreases |parts|
  {
    if parts == [] {
      assert parts + more == more;
    } else {
      assert (parts + more)[1..] == parts[1..] + more;
      PushAllConcat(rooted, Push(rooted, kept, parts[0]), parts[1..], more);
    }
  }

  lemma ComponentsConcat(a: string, b: string)
    requires a != ""
    ensures Rooted(a + "/" + b) == Rooted(a)
    ensures Components(a + "/" + b) == PushAll(Rooted(a), Components(a), Split(b))
  {
    SplitConcat(a, b);
    PushAllConcat(Rooted(a), [], Split(a), Split(b));
    assert (a + "/" + b)[0] == a[0];
  }

  /**
   * What cleaning means, read as a walk: a name goes down, a dot or a double slash stays, two dots
   * take the last name back, stop at the root, and pile up where a relative path has no name left.
   */
  lemma WalkExactly(a: string, name: string)
    requires a != "" && IsName(name)
    ensures var at := Components(a);
      && Components(a + "/" + name) == at + [name]
      && Components(a + "/.") == at && Components(a + "/") == at
      && Components(a + "/" + name + "/..") == at
      && (at == [] && Rooted(a) ==> Components(a + "/..") == [])
      && (!Rooted(a) && (forall k :: 0 <= k < |at| ==> at[k] == "..") ==> Components(a + "/..") == at + [".."])
  {
    var at, up := Components(a), ["", ".", "..", name];
    StepTo(a, name);
    StepTo(a, ".");
    StepTo(a, "");
    StepTo(a, "..");
    StepTo(a + "/" + name, "..");
    assert a + "/" + "." == a + "/." && a + "/" + "" == a + "/" && a + "/" + ".." == a + "/..";
    assert (a + "/" + name) + "/" + ".." == a + "/" + name + "/..";
    assert (at + [name])[..|at|] == at;
  }

  lemma StepTo(a: string, part: string)
    requires a != "" && '/' !in part
    ensures Rooted(a + "/" + part) == Rooted(a)
    ensures Components(a + "/" + part) == Push(Rooted(a), Components(a), part)
  {
    ComponentsConcat(a, part);
    SplitName(part);
    assert [part][1..] == [];
  }

  lemma FirstPart(part: string)
    requires '/' !in part
    ensures Components(part) == Push(false, [], part)
    ensures Components("/" + part) == Push(true, [], part)
  {
    SplitName(part);
    SplitAtSlash("", part);
    assert "" + "/" + part == "/" + part;
    assert part != "" ==> part[0] in part;
    assert [part][1..] == [] && ["", part][1..] == [part] && [""] + [part] == ["", part];
    assert PushAll(false, [], [part]) == PushAll(false, Push(false, [], part), []);
    assert PushAll(true, [], ["", part]) == PushAll(true, [], [part]);
    assert PushAll(true, [], [part]) == PushAll(true, Push(true, [], part), []);
  }

  /** A walk starts at the root or where one stands. */
  lemma WalkStarts(name: string)
    requires IsName(name)
    ensures Components("/") == [] && Components(".") == [] && Components("") == []
    ensures Components(name) == [name] && Components("..") == [".."] && Components("/" + name) == [name]
  {
    FirstPart("");
    FirstPart(".");
    FirstPart("..");
    FirstPart(name);
    assert "/" + "" == "/";
  }

  // ----- what is protected -----

  lemma NoPatternInDot()
    ensures !MatchesProtectedPattern("/") && !MatchesProtectedPattern(".")
  {
  }

  lemma BaseOfDot(path: string)
    requires Components(path) == []
    ensures Clean(path) == (if Rooted(path) then "/" else ".") && Base(Clean(path)) == Clean(path)
  {
    SplitName(".");
  }

  /**
   * A file is protected exactly when some component is `.git` or the last one is an environment file,
   * a key or certificate file, or one of seven lock files.
   */
  lemma ProtectedByComponents(path: string)
    ensures var parts := Components(path);
      IsProtectedFile(path) <==> ".git" in parts || (parts != [] && IsSecretOrLock(parts[|parts| - 1]))
  {
    GitGuardIsComponentTest(path);
    if Components(path) == [] {
      BaseOfDot(path);
      NoPatternInDot();
    } else {
      BaseOfClean(path);
      PatternsExactly(Components(path)[|Components(path)| - 1]);
    }
  }

  /** The eleven file name patterns, spelled out. */
  ghost predicate IsSecretOrLock(name: string) {
    || (exists rest :: name == ".env" + rest)
    || (exists stem, ext :: ext in {".pem", ".key", ".cert", ".pfx"} && name == stem + ext)
    || name in {"go.sum", "package-lock.json", "yarn.lock", "pnpm-lock.yaml", "composer.lock", "Gemfile.lock",
                "cargo.lock"}
  }

  lemma PatternsExactly(name: string)
    ensures MatchesProtectedPattern(name) <==> IsSecretOrLock(name)
  {
    if ".env" <= name {
      assert name == ".env" + name[4..];
    }
    SuffixExactly(name, ".pem");
    SuffixExactly(name, ".key");
    SuffixExactly(name, ".cert");
    SuffixExactly(name, ".pfx");
    LockNamesExactly(name);
  }

  lemma SuffixExactly(s: string, p: string)
    ensures HasSuffix(s, p) <==> exists stem :: s == stem + p
  {
    if HasSuffix(s, p) {
      assert s == s[..|s| - |p|] + p;
    }
    if stem :| s == stem + p {
      assert s[|s| - |p|..] == p;
    }
  }

  lemma LockNamesExactly(name: string)
    ensures name in LOCKFILES <==> name in {"go.sum", "package-lock.json", "yarn.lock", "pnpm-lock.yaml",
                                            "composer.lock", "Gemfile.lock", "cargo.lock"}
  {
  }

  lemma PlainName(name: string)
    requires IsName(name)
    ensures Components(name) == [name]
  {
    SplitName(name);
    assert PushAll(false, [], [name]) == PushAll(false, [name], []);
  }

  lemma ProtectedName(name: string)
    requires IsName(name)
    ensures IsProtectedFile(name) <==> name == DOT_GIT || MatchesProtectedPattern(name)
  {
    PlainName(name);
    ProtectedByComponents(name);
    PatternsExactly(name);
  }

  lemma SuffixEnds(s: string, p: string)
    requires p != "" && HasSuffix(s, p)
    ensures s[|s| - 1] == p[|p| - 1]
  {
    assert s[|s| - |p|..][|p| - 1] == s[|s| - 1];
  }

  lemma CargoPatterns(name: string)
    requires |name| > 0 && name[|name| - 1] == 'k' && name[0] != '.'
    ensures MatchesProtectedPattern(name) <==> name in LOCKFILES
  {
    if HasSuffix(name, ".pem") {
      SuffixEnds(name, ".pem");
    }
    if HasSuffix(name, ".key") {
      SuffixEnds(name, ".key");
    }
    if HasSuffix(name, ".cert") {
      SuffixEnds(name, ".cert");
    }
    if HasSuffix(name, ".pfx") {
      SuffixEnds(name, ".pfx");
    }
  }

  lemma LockNamesAreLower(k: nat)
    requires k < |LOCKFILES|
    ensures |LOCKFILES[k]| > 0 && LOCKFILES[k][0] != 'C' && LOCKFILES[6] == "cargo.lock"
  {
  }

  lemma CapitalLockUnprotected(name: string)
    requires |name| > 2 && '/' !in name && name[0] == 'C' && name[|name| - 1] == 'k'
    ensures !IsProtectedFile(name)
  {
    ProtectedName(name);
    CargoPatterns(name);
    forall k | 0 <= k < |LOCKFILES| ensures LOCKFILES[k] != name {
      LockNamesAreLower(k);
    }
  }

  lemma LockProtected(k: nat, name: string)
    requires k < |LOCKFILES| && name == LOCKFILES[k] && |name| > 2 && '/' !in name
    ensures IsProtectedFile(name)
  {
    ProtectedName(name);
  }

  /** The lock file pattern is case sensitive and written in lower case, unlike the file Cargo creates. */
  lemma CargoLockIsNotProtected()
    ensures !IsProtectedFile("Cargo.lock") && IsProtectedFile("cargo.lock")
  {
    CapitalLockUnprotected("Cargo.lock");
    LockNamesAreLower(6);
    LockProtected(6, "cargo.lock");
  }
}
