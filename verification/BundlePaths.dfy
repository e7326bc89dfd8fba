/**
 The paths the bundle cache accepts, spelt out: splitting at slashes is undone by joining with them, and
 the sanitiser of `ezer-bundle` accepts exactly the paths of five literal shapes.
 */
module BundlePaths {
  import opened BundleInputs
  import opened BundleNames
  import opened BundlePayload
  import opened BundleSync

  /** The parts with one slash between neighbours. */
  function Join(parts: seq<string>): string
    requires parts != []
  {
    if |parts| == 1 then parts[0] else parts[0] + "/" + Join(parts[1..])
  }

  predicate Slashless(parts: seq<string>) {
    forall i | 0 <= i < |parts| :: '/' !in parts[i]
  }

  lemma {:induction false} JoinUndoesSplit(s: string)
    ensures Join(Split(s)) == s && Slashless(Split(s))
  {
    if s != "" {
      var rest := Split(s[1..]);
      JoinUndoesSplit(s[1..]);
      assert s == [s[0]] + s[1..];
      if s[0] == '/' {
        assert ([""] + rest)[1..] == rest;
        assert Join([""] + rest) == "" + "/" + Join(rest);
      } else {
        var more := [[s[0]] + rest[0]] + rest[1..];
        assert more[1..] == rest[1..];
        assert Join(more) == [s[0]] + Join(rest);
        forall i | 0 <= i < |more| ensures '/' !in more[i] {
          assert i > 0 ==> more[i] == rest[i];
        }
      }
    }
  }

  lemma {:induction false} SplitUndoesJoin(parts: seq<string>)
    requires parts != [] && Slashless(parts)
    ensures Split(Join(parts)) == parts
  {
    if |parts| == 1 {
      SplitWhole(parts[0]);
    } else {
      SplitHead(parts[0], Join(parts[1..]));
      SplitUndoesJoin(parts[1..]);
    }
  }

  /** A path component: not empty, not a dot entry, without separators and control characters. */
  predicate IsComponent(c: string) {
    && c != "" && c != "." && c != ".."
    && forall i | 0 <= i < |c| ::
         c[i] != '/' && c[i] != '\\' && 32 <= c[i] as int && !(127 <= c[i] as int <= 159)
  }

  lemma ControlsAreNumbers(n: string, i: nat)
    requires i < |n|
    ensures IsControl(n[i]) <==> n[i] as int < 32 || 127 <= n[i] as int <= 159
  {
    assert ' ' as int == 32 && '\U{7F}' as int == 127 && '\U{9F}' as int == 159;
  }

  /** The names of bundle files and the inner components of skill files are components. */
  lemma NamesAreComponents(n: string)
    ensures ValidName(n) <==> IsComponent(n)
    ensures '/' !in n && '\\' !in n ==> (SafeComponent(n) <==> IsComponent(n))
  {
    forall i: nat | i < |n| ensures IsControl(n[i]) <==> n[i] as int < 32 || 127 <= n[i] as int <= 159 {
      ControlsAreNumbers(n, i);
    }
  }

  predicate AllComponents(parts: seq<string>) {
    forall i | 0 <= i < |parts| :: IsComponent(parts[i])
  }

  /** One of the four plain files of a name. */
  predicate IsPlainFile(p: string, n: string) {
    p == PersonaPath(n) || p == RolePath(n) || p == AgentPath(n) || p == WorkflowPath(n)
  }

  /** A file at any depth below the directory of a skill. */
  ghost predicate IsSkillFile(p: string) {
    exists parts: seq<string> :: |parts| >= 2 && AllComponents(parts) && p == "skills/" + Join(parts)
  }

  lemma {:induction false} JoinHasNoBackslash(parts: seq<string>)
    requires parts != [] && forall i | 0 <= i < |parts| :: '\\' !in parts[i]
    ensures '\\' !in Join(parts)
  {
    if |parts| > 1 {
      JoinHasNoBackslash(parts[1..]);
    }
  }

  lemma {:induction false} PartsHaveNoBackslash(parts: seq<string>, i: nat)
    requires i < |parts| && '\\' !in Join(parts)
    ensures '\\' !in parts[i]
  {
    if |parts| > 1 {
      var rest := Join(parts[1..]);
      assert Join(parts) == parts[0] + "/" + rest;
      assert forall c | c in rest :: c in Join(parts);
      assert forall c | c in parts[0] :: c in Join(parts);
      if i > 0 {
        PartsHaveNoBackslash(parts[1..], i - 1);
      }
    }
  }

  lemma BelowSkills(tail: string)
    ensures "skills/" + tail == "skills" + "/" + tail
  {
    assert "skills/" == "skills" + "/";
  }

  lemma SkillFilesSplit(parts: seq<string>)
    requires |parts| >= 2 && AllComponents(parts)
    ensures Split("skills/" + Join(parts)) == ["skills"] + parts
  {
    BelowSkills(Join(parts));
    SplitHead("skills", Join(parts));
    SplitUndoesJoin(parts);
  }

  lemma SkillFilesAreSanitary(parts: seq<string>)
    requires |parts| >= 2 && AllComponents(parts)
    ensures Sanitary("skills/" + Join(parts))
  {
    var p, all := "skills/" + Join(parts), ["skills"] + parts;
    SkillFilesSplit(parts);
    JoinHasNoBackslash(parts);
    assert '\\' !in "skills/";
    forall i | 1 <= i < |all| ensures ValidName(all[i]) && SafeComponent(all[i]) {
      assert all[i] == parts[i - 1];
      NamesAreComponents(all[i]);
    }
  }

  lemma DeepPathsAreSkillFiles(p: string)
    requires Sanitary(p) && |Split(p)| > 2
    ensures IsSkillFile(p)
  {
    var all := Split(p);
    var parts := all[1..];
    JoinUndoesSplit(p);
    forall i | 0 <= i < |parts| ensures IsComponent(parts[i]) {
      assert parts[i] == all[i + 1];
      PartsHaveNoBackslash(all, i + 1);
      NamesAreComponents(parts[i]);
    }
    BelowSkills(Join(parts));
    assert AllComponents(parts) && p == "skills/" + Join(parts);
  }

  lemma PlainFilesExactly(p: string)
    ensures (exists n :: IsComponent(n) && IsPlainFile(p, n)) <==>
            exists kind, name :: kind != Skill && ValidName(name) && p == RelativePathFor(kind, name)
  {
    if n :| IsComponent(n) && IsPlainFile(p, n) {
      PathsAreSpelt(n);
      NamesAreComponents(n);
      var kind := if p == PersonaPath(n) then Persona else if p == RolePath(n) then Role
                  else if p == AgentPath(n) then Agent else Workflow;
      assert kind != Skill && ValidName(n) && p == RelativePathFor(kind, n);
    }
    if kind, name :| kind != Skill && ValidName(name) && p == RelativePathFor(kind, name) {
      PathsAreSpelt(name);
      NamesAreComponents(name);
      assert IsComponent(name) && IsPlainFile(p, name);
    }
  }

  /**
   The sanitiser accepts exactly personas, roles, agents and workflows directly below their directories,
   and files at any depth below the directory of a skill.
   */
  lemma SanitaryExactly(p: string)
    ensures Sanitary(p) <==> (exists n :: IsComponent(n) && IsPlainFile(p, n)) || IsSkillFile(p)
  {
    PlainFilesExactly(p);
    if Sanitary(p) {
      if |Split(p)| == 2 {
        TwoPartPathsAreBundleFiles(p);
      } else {
        DeepPathsAreSkillFiles(p);
      }
    }
    if kind, name :| kind != Skill && ValidName(name) && p == RelativePathFor(kind, name) {
      BundlePathsAreSanitary(kind, name);
    }
    if IsSkillFile(p) {
      var parts: seq<string> :| |parts| >= 2 && AllComponents(parts) && p == "skills/" + Join(parts);
      SkillFilesAreSanitary(parts);
    }
  }

  // ---------------------------------------------------------------- syncs stay inside

  /** Anything else in the cache directory is as it was, and unrecorded. */
  predicate IsLeftAlone(before: Disk, after: Progress, p: string) {
    Recorded(after.disk, p) == Recorded(before, p) && p !in after.sums
  }

  /** Whatever an edited manifest lists, a JSON sync leaves every other path alone. */
  lemma JsonSyncStaysInside(hash: Hash, disk: Disk, stored: Sums, bundle: Bundle, p: string)
    requires ValidBundle(bundle) && !IsSkillFile(p) && !exists n :: IsComponent(n) && IsPlainFile(p, n)
    ensures IsLeftAlone(disk, Sync(hash, disk, SanitizeSums(stored), BundleFiles(bundle), true), p)
  {
    SanitaryExactly(p);
    if p in BundleFiles(bundle) {
      BundleFilePaths(bundle, p);
    }
    SyncAt(hash, disk, SanitizeSums(stored), BundleFiles(bundle), true, p);
  }

  lemma {:induction false} InstallsElsewhere(hash: Hash, prev: Sums, s: Progress, files: seq<File>, p: string)
    requires forall i | 0 <= i < |files| :: files[i].path != p
    ensures var done := InstallAll(hash, prev, s, files);
            Recorded(done.disk, p) == Recorded(s.disk, p) && Recorded(done.sums, p) == Recorded(s.sums, p)
    decreases files
  {
    if files != [] {
      InstallsElsewhere(hash, prev, InstallOne(hash, prev, s, files[0]), files[1..], p);
    }
  }

  /** Nor does an archive sync, whatever the names of its members. */
  lemma ArchiveSyncStaysInside(hash: Hash, disk: Disk, stored: Sums, entries: seq<Entry>, p: string)
    requires ArchivePlan(entries).Some? && !IsSkillFile(p) && !exists n :: IsComponent(n) && IsPlainFile(p, n)
    ensures var prev := SanitizeSums(stored);
            var installed := InstallAll(hash, prev, Progress(disk, map[]), ArchivePlan(entries).value.files);
            IsLeftAlone(disk, Prune(hash, prev, installed), p)
  {
    var files := ArchivePlan(entries).value.files;
    SanitaryExactly(p);
    ArchiveFilesAreSanitary(entries);
    InstallsElsewhere(hash, SanitizeSums(stored), Progress(disk, map[]), files, p);
  }
}
