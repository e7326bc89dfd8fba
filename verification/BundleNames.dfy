/**
 Names and relative paths of the managed bundle: which strings name a cache file, and where each
 bundled or archived file lands. Models the naming functions of `ezer-bundle`.
 */
module BundleNames {
  import opened Prelude

  datatype Kind = Persona | Role | Agent | Skill | Workflow

  function DirName(kind: Kind): string {
    match kind
    case Persona => "personas"
    case Role => "roles"
    case Agent => "agents"
    case Skill => "skills"
    case Workflow => "workflows"
  }

  function Extension(kind: Kind): string {
    match kind
    case Agent | Skill => "md"
    case Persona | Role => "toml"
    case Workflow => "rhai"
  }

  function KindOfDir(dir: string): Option<Kind> {
    if dir == "personas" then Some(Persona)
    else if dir == "roles" then Some(Role)
    else if dir == "agents" then Some(Agent)
    else if dir == "skills" then Some(Skill)
    else if dir == "workflows" then Some(Workflow)
    else None
  }

  predicate IsControl(c: char) {
    c < ' ' || '\U{7F}' <= c <= '\U{9F}'
  }

  predicate HasControl(s: string) {
    exists i :: 0 <= i < |s| && IsControl(s[i])
  }

  predicate ValidName(name: string) {
    name != "" && name != "." && name != ".." && '/' !in name && '\\' !in name && !HasControl(name)
  }

  /** The part of a non-skill path after the directory. */
  function FileName(kind: Kind, name: string): string {
    name + "." + Extension(kind)
  }

  function RelativePathFor(kind: Kind, name: string): string {
    if kind == Skill then DirName(kind) + "/" + name + "/SKILL.md"
    else DirName(kind) + "/" + FileName(kind, name)
  }

  /** Split at every `/`; never empty. */
  function Split(s: string): (parts: seq<string>)
    ensures |parts| >= 1
  {
    if s == "" then [""]
    else
      var rest := Split(s[1..]);
      if s[0] == '/' then [""] + rest else [[s[0]] + rest[0]] + rest[1..]
  }

  predicate EndsWith(s: string, suffix: string) {
    |s| >= |suffix| && s[|s| - |suffix|..] == suffix
  }

  /** A component of a nested skill path that cannot leave its directory. */
  predicate SafeComponent(c: string) {
    c != "" && c != "." && c != ".." && !HasControl(c)
  }

  function SanitizeRelativePath(path: string): Option<string> {
    if path == "" || path[0] == '/' || '\\' in path then None
    else
      var parts := Split(path);
      if |parts| < 2 then None
      else if |parts| == 2 then SanitizeTwoParts(parts[0], parts[1])
      else if parts[0] == "skills" && ValidName(parts[1])
              && forall i | 2 <= i < |parts| :: SafeComponent(parts[i])
      then Some(path)
      else None
  }

  function SanitizeTwoParts(dir: string, file: string): Option<string> {
    var kind := KindOfDir(dir);
    if file == "" || kind.None? || kind == Some(Skill) then None
    else
      var suffix := "." + Extension(kind.value);
      if !EndsWith(file, suffix) then None
      else
        var stem := file[..|file| - |suffix|];
        if ValidName(stem) then Some(RelativePathFor(kind.value, stem)) else None
  }

  predicate StartsWith(s: string, prefix: string) {
    prefix <= s
  }

  function StripPrefix(s: string, prefix: string): string {
    if StartsWith(s, prefix) then s[|prefix|..] else s
  }

  function MapArchivePath(path: string): Option<string> {
    if StartsWith(path, "subagents/") then SanitizeRelativePath(path[|"subagents/"|..])
    else if StartsWith(path, "skills/") || StartsWith(path, "workflows/") then SanitizeRelativePath(path)
    else None
  }

  predicate Sanitary(path: string) {
    SanitizeRelativePath(path) == Some(path)
  }

  // ---------------------------------------------------------------- splitting

  lemma {:induction false} SplitHead(head: string, tail: string)
    requires '/' !in head
    ensures Split(head + "/" + tail) == [head] + Split(tail)
  {
    var s := head + "/" + tail;
    if head == "" {
      assert s[1..] == tail;
    } else {
      assert s[1..] == head[1..] + "/" + tail;
      SplitHead(head[1..], tail);
      assert head == [head[0]] + head[1..];
    }
  }

  lemma {:induction false} SplitWhole(s: string)
    requires '/' !in s
    ensures Split(s) == [s]
  {
    if s != "" {
      SplitWhole(s[1..]);
      assert s == [s[0]] + s[1..];
    }
  }

  /** A string that splits in two is its parts joined by one slash. */
  lemma {:induction false} SplitInTwo(s: string)
    requires |Split(s)| == 2
    ensures s == Split(s)[0] + "/" + Split(s)[1]
  {
    var rest := Split(s[1..]);
    assert s == [s[0]] + s[1..];
    if s[0] == '/' {
      assert |rest| == 1;
      SplitSingle(s[1..]);
    } else {
      SplitInTwo(s[1..]);
    }
  }

  lemma {:induction false} SplitSingle(s: string)
    requires |Split(s)| == 1
    ensures Split(s) == [s]
  {
    if s != "" {
      assert s == [s[0]] + s[1..];
      if s[0] != '/' {
        SplitSingle(s[1..]);
      }
    }
  }

  // ---------------------------------------------------------------- sanitising

  lemma TwoPartsAreKept(dir: string, file: string)
    ensures SanitizeTwoParts(dir, file).Some? ==> SanitizeTwoParts(dir, file).value == dir + "/" + file
  {
    var kind := KindOfDir(dir);
    if SanitizeTwoParts(dir, file).Some? {
      assert dir == DirName(kind.value);
      var suffix := "." + Extension(kind.value);
      var stem := file[..|file| - |suffix|];
      assert file == stem + suffix;
      assert FileName(kind.value, stem) == stem + suffix;
    }
  }

  /** Sanitising never rewrites a path: it accepts it as it stands or rejects it. */
  lemma SanitizeNeverRewrites(path: string)
    ensures SanitizeRelativePath(path).Some? ==> SanitizeRelativePath(path).value == path
  {
    if SanitizeRelativePath(path).Some? && |Split(path)| == 2 {
      SplitInTwo(path);
      TwoPartsAreKept(Split(path)[0], Split(path)[1]);
    }
  }

  lemma ArchivePathsAreSanitary(path: string)
    ensures MapArchivePath(path).Some? ==> Sanitary(MapArchivePath(path).value)
  {
    SanitizeNeverRewrites(path);
    if StartsWith(path, "subagents/") {
      SanitizeNeverRewrites(path[|"subagents/"|..]);
    }
  }

  lemma DirNameHasNoSlash(kind: Kind)
    ensures '/' !in DirName(kind) && '\\' !in DirName(kind) && KindOfDir(DirName(kind)) == Some(kind)
    ensures '/' !in Extension(kind) && '\\' !in Extension(kind)
  {}

  lemma FileNameIsKept(kind: Kind, name: string)
    requires ValidName(name) && kind != Skill
    ensures '/' !in FileName(kind, name)
    ensures SanitizeTwoParts(DirName(kind), FileName(kind, name)) == Some(RelativePathFor(kind, name))
  {
    DirNameHasNoSlash(kind);
    var file, suffix := FileName(kind, name), "." + Extension(kind);
    assert file == name + suffix;
    assert file[..|file| - |suffix|] == name && file[|file| - |suffix|..] == suffix;
  }

  lemma SkillPathSplits(name: string)
    requires ValidName(name)
    ensures Split(RelativePathFor(Skill, name)) == ["skills", name, "SKILL.md"]
  {
    var tail := name + "/" + "SKILL.md";
    assert RelativePathFor(Skill, name) == "skills" + "/" + tail;
    SplitHead("skills", tail);
    SkillFileSplits(name);
  }

  lemma SkillFileSplits(name: string)
    requires ValidName(name)
    ensures Split(name + "/" + "SKILL.md") == [name, "SKILL.md"]
  {
    SplitHead(name, "SKILL.md");
    SplitWhole("SKILL.md");
  }

  lemma BundlePathsHaveNoBackslash(kind: Kind, name: string)
    requires ValidName(name)
    ensures '\\' !in RelativePathFor(kind, name) && RelativePathFor(kind, name)[0] != '/'
  {
    DirNameHasNoSlash(kind);
    assert '\\' !in "/SKILL.md";
    assert RelativePathFor(kind, name)[0] == DirName(kind)[0];
  }

  /** Every path the bundle writes for a valid name is accepted by the sanitiser. */
  lemma BundlePathsAreSanitary(kind: Kind, name: string)
    requires ValidName(name)
    ensures Sanitary(RelativePathFor(kind, name))
  {
    BundlePathsHaveNoBackslash(kind, name);
    if kind == Skill {
      SkillPathSplits(name);
      assert SafeComponent("SKILL.md");
    } else {
      DirNameHasNoSlash(kind);
      FileNameIsKept(kind, name);
      SplitHead(DirName(kind), FileName(kind, name));
      SplitWhole(FileName(kind, name));
    }
  }

  /** The name a path was built from. */
  function NameOf(kind: Kind, path: string): string {
    var front := |DirName(kind)| + 1;
    var back := if kind == Skill then |"/SKILL.md"| else 1 + |Extension(kind)|;
    if |path| < front + back then "" else path[front..|path| - back]
  }

  lemma NameOfInverts(kind: Kind, name: string)
    ensures NameOf(kind, RelativePathFor(kind, name)) == name
  {
    var path := RelativePathFor(kind, name);
    var back := if kind == Skill then "/SKILL.md" else "." + Extension(kind);
    assert path == (DirName(kind) + "/") + name + back;
  }

  /** Distinct kinds or names get distinct paths. */
  lemma BundlePathsAreInjective(k1: Kind, n1: string, k2: Kind, n2: string)
    requires RelativePathFor(k1, n1) == RelativePathFor(k2, n2)
    ensures k1 == k2 && n1 == n2
  {
    var path := RelativePathFor(k1, n1);
    DirOfPath(k1, n1);
    DirOfPath(k2, n2);
    NameOfInverts(k1, n1);
    NameOfInverts(k2, n2);
  }

  /** The directory name can be read off the front of a path. */
  lemma DirOfPath(kind: Kind, name: string)
    ensures |RelativePathFor(kind, name)| > 0
    ensures RelativePathFor(kind, name)[0] == DirName(kind)[0]
    ensures StartsWith(RelativePathFor(kind, name), "workflows/") <==> kind == Workflow
  {
    var path := RelativePathFor(kind, name);
    assert path[..|DirName(kind)| + 1] == DirName(kind) + "/";
  }

  /** No component of an accepted path is empty, `.` or `..`, and it starts in a bundle directory. */
  lemma SanitaryPathsStayInside(path: string)
    requires Sanitary(path)
    ensures |Split(path)| >= 2 && KindOfDir(Split(path)[0]).Some?
    ensures forall i | 0 <= i < |Split(path)| :: Split(path)[i] != "" && Split(path)[i] != "." && Split(path)[i] != ".."
  {
    var parts := Split(path);
    assert KindOfDir(".").None? && KindOfDir("..").None? && KindOfDir("").None?;
    if |parts| == 2 {
      var suffix := "." + Extension(KindOfDir(parts[0]).value);
      assert |parts[1]| > |suffix| >= 3;
    }
  }

  /** Short accepted paths are exactly the bundle's own files. */
  lemma TwoPartPathsAreBundleFiles(path: string)
    requires |Split(path)| == 2
    ensures Sanitary(path) <==> exists kind, name :: kind != Skill && ValidName(name) && path == RelativePathFor(kind, name)
  {
    if Sanitary(path) {
      var dir, file := Split(path)[0], Split(path)[1];
      var kind := KindOfDir(dir).value;
      var stem := file[..|file| - |"." + Extension(kind)|];
      assert path == RelativePathFor(kind, stem) && ValidName(stem);
    }
    if kind, name :| kind != Skill && ValidName(name) && path == RelativePathFor(kind, name) {
      BundlePathsAreSanitary(kind, name);
    }
  }
}
