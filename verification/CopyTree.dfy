/** Copying a tree of files under a manifest, and removing what the manifest lists. */
module CopyTree {
  import opened Prelude
  import opened Installer

  type Path = string

  /** A manifest of another version, like one that does not parse, is just `Raw` content. */
  datatype Content = Raw(bytes: string) | Manifest(entries: seq<Entry>, installedAt: int)

  datatype Entry = Entry(path: Path, sha: Digest)

  /** Different contents have different digests. */
  datatype Digest = Digest(of: Content)

  type Files = map<Path, Content>

  function LoadManifest(files: Files, manifest: Path): Option<seq<Entry>> {
    if manifest in files && files[manifest].Manifest? then Some(files[manifest].entries) else None
  }

  function PathsOf(entries: seq<Entry>): set<Path> {
    set e | e in entries :: e.path
  }

  function Previous(files: Files, manifest: Path): set<Path> {
    match LoadManifest(files, manifest)
    case None => {}
    case Some(entries) => PathsOf(entries)
  }

  function Wanted(desired: seq<Path>): set<Path> {
    set p | p in desired
  }

  predicate IsCopied(files: Files, source: Files, p: Path)
    requires p in source
  {
    p in files && files[p] == source[p]
  }

  function WithCopies(files: Files, source: Files, wanted: set<Path>): Files
    requires wanted <= source.Keys
  {
    files + map p | p in wanted :: source[p]
  }

  /** `files` with the desired paths written over and the stale ones gone; the manifest aside. */
  function Synced(files: Files, source: Files, wanted: set<Path>, stale: set<Path>): Files
    requires wanted <= source.Keys
  {
    WithCopies(files, source, wanted) - stale
  }

  predicate AnyToCopy(files: Files, source: Files, wanted: set<Path>)
    requires wanted <= source.Keys
  {
    exists p :: p in wanted && !IsCopied(files, source, p)
  }

  predicate AnyIn(files: Files, stale: set<Path>) {
    exists p :: p in stale && p in files
  }

  predicate Differs(files: Files, source: Files, wanted: set<Path>, stale: set<Path>)
    requires wanted <= source.Keys
  {
    AnyToCopy(files, source, wanted) || AnyIn(files, stale)
  }

  function Stale(files: Files, desired: seq<Path>, manifest: Path): set<Path> {
    Previous(files, manifest) - Wanted(desired)
  }

  function EntriesFor(source: Files, desired: seq<Path>): (r: seq<Entry>)
    requires forall p :: p in desired ==> p in source
    ensures |r| == |desired| && forall i :: 0 <= i < |r| ==> r[i] == Entry(desired[i], Digest(source[desired[i]]))
  {
    seq(|desired|, i requires 0 <= i < |desired| => Entry(desired[i], Digest(source[desired[i]])))
  }

  /** What one run does: the files it leaves and the action it reports. */
  datatype Run = Run(files: Files, action: Action)

  function Install(files: Files, source: Files, desired: seq<Path>, manifest: Path, now: int, dryRun: bool): Run
    requires forall p :: p in desired ==> p in source
  {
    var wanted, stale := Wanted(desired), Stale(files, desired, manifest);
    var after := if dryRun then files else Synced(files, source, wanted, stale);
    var changed, first := Differs(files, source, wanted, stale), manifest !in after;
    if !changed && !first then Run(files, Unchanged)
    else
      Run(if dryRun then files else after[manifest := Manifest(EntriesFor(source, desired), now)],
          if first then Created else Updated)
  }

  /** The files that still are what `entries` says was installed. */
  function Owned(files: Files, entries: seq<Entry>): set<Path> {
    set p | p in files && Entry(p, Digest(files[p])) in entries
  }

  /** Entry `i` finds its file present, not yet removed, and modified. */
  predicate SkipsAt(files: Files, entries: seq<Entry>, i: nat)
    requires i < |entries|
  {
    var e := entries[i];
    e.path in files && Digest(files[e.path]) != e.sha && Entry(e.path, Digest(files[e.path])) !in entries[..i]
  }

  predicate Skips(files: Files, entries: seq<Entry>) {
    exists i :: 0 <= i < |entries| && SkipsAt(files, entries, i)
  }

  function Uninstall(files: Files, manifest: Path): Run {
    match LoadManifest(files, manifest)
    case None => Run(files, Unchanged)
    case Some(entries) =>
      var left := files - Owned(files, entries);
      if Skips(files, entries) then Run(left, Skipped) else Run(left - {manifest}, Removed)
  }

  /** Some listed file is there and is not what was installed. */
  predicate AnyModified(files: Files, entries: seq<Entry>) {
    exists i :: 0 <= i < |entries| && IsModified(files, entries[i])
  }

  predicate IsModified(files: Files, e: Entry) {
    e.path in files && Digest(files[e.path]) != e.sha
  }

  /** A dry run removes nothing, so it checks every entry against the files as they are. */
  function DryUninstall(files: Files, manifest: Path): Run {
    match LoadManifest(files, manifest)
    case None => Run(files, Unchanged)
    case Some(entries) => Run(files, if AnyModified(files, entries) then Skipped else Removed)
  }

  // ---- Installing ----

  /**
   After a real run every desired file equals its source, every path only the old manifest listed is gone, and
   every other file but the manifest is as it was.
   */
  lemma InstallPostcondition(files: Files, source: Files, desired: seq<Path>, manifest: Path, now: int, p: Path)
    requires (forall p :: p in desired ==> p in source) && p != manifest
    ensures var after := Install(files, source, desired, manifest, now, false).files;
      if p in desired then p in after && after[p] == source[p]
      else if p in Previous(files, manifest) then p !in after
      else if p in files then p in after && after[p] == files[p]
      else p !in after
  {
    if p in desired {
      assert p in Wanted(desired);
    }
  }

  /** A run that is not a dry run leaves a manifest behind; it lists the desired files unless nothing changed. */
  lemma ManifestAfterInstall(files: Files, source: Files, desired: seq<Path>, manifest: Path, now: int)
    requires forall p :: p in desired ==> p in source
    ensures var r := Install(files, source, desired, manifest, now, false);
      if r.action == Unchanged then r.files == files && manifest in files
      else LoadManifest(r.files, manifest) == Some(EntriesFor(source, desired))
  {
  }

  /** Every desired file is there as in the source, and no path that only the old manifest lists. */
  predicate IsCurrent(files: Files, source: Files, desired: seq<Path>, manifest: Path)
    requires forall p :: p in desired ==> p in source
  {
    && (forall p :: p in desired ==> p in files && files[p] == source[p])
    && (forall p :: p in Previous(files, manifest) && p !in desired ==> p !in files)
  }

  /**
   What an install reports: CREATED exactly when it finds no manifest, at first or, in a real run, once stale files
   are gone and before copied ones count as found; otherwise UNCHANGED exactly when all is current.
   */
  lemma InstallAction(files: Files, source: Files, desired: seq<Path>, manifest: Path, now: int, dryRun: bool)
    requires forall p :: p in desired ==> p in source
    ensures var action := Install(files, source, desired, manifest, now, dryRun).action;
            var absent := if dryRun then manifest !in files
                          else manifest !in desired && (manifest !in files || manifest in Previous(files, manifest));
      && (action == Created <==> absent)
      && (action == Unchanged <==> !absent && IsCurrent(files, source, desired, manifest))
      && (action == Updated <==> !absent && !IsCurrent(files, source, desired, manifest))
  {
    var wanted, stale := Wanted(desired), Stale(files, desired, manifest);
    assert AnyToCopy(files, source, wanted) <==> exists p :: p in desired && !IsCopied(files, source, p) by {
      assert forall p :: p in wanted <==> p in desired;
    }
    assert AnyIn(files, stale) <==> exists p :: p in Previous(files, manifest) && p !in desired && p in files by {
      assert forall p :: p in stale <==> p in Previous(files, manifest) && p !in desired;
    }
  }

  /** A second install is UNCHANGED unless the manifest itself is among the files to copy. */
  lemma SecondInstall(files: Files, source: Files, desired: seq<Path>, manifest: Path, now: int, later: int)
    requires forall p :: p in desired ==> p in source
    ensures var first := Install(files, source, desired, manifest, now, false);
            var second := Install(first.files, source, desired, manifest, later, false);
      && (second.action == Unchanged ==> second.files == first.files)
      && (second.action == Unchanged <==> first.action == Unchanged || manifest !in desired)
  {
    var first := Install(files, source, desired, manifest, now, false);
    if first.action != Unchanged {
      PathsOfEntries(source, desired);
      ManifestAfterInstall(files, source, desired, manifest, now);
      assert Stale(first.files, desired, manifest) == {};
      if manifest in desired {
        NotItsOwnManifest(source, desired, manifest, now);
        assert !IsCopied(first.files, source, manifest);
        assert manifest in Wanted(desired);
      } else {
        forall p | p in Wanted(desired) ensures IsCopied(first.files, source, p) {
          InstallPostcondition(files, source, desired, manifest, now, p);
        }
      }
    }
  }

  lemma PathsOfEntries(source: Files, desired: seq<Path>)
    requires forall p :: p in desired ==> p in source
    ensures PathsOf(EntriesFor(source, desired)) == Wanted(desired)
  {
    var entries := EntriesFor(source, desired);
    forall p | p in Wanted(desired) ensures p in PathsOf(entries) {
      var i :| 0 <= i < |desired| && desired[i] == p;
      assert entries[i] in entries;
    }
  }

  /** No manifest lists its own digest. */
  lemma NotItsOwnManifest(source: Files, desired: seq<Path>, manifest: Path, now: int)
    requires (forall p :: p in desired ==> p in source) && manifest in desired
    ensures source[manifest] != Manifest(EntriesFor(source, desired), now)
  {
    var entries := EntriesFor(source, desired);
    var i :| 0 <= i < |desired| && desired[i] == manifest;
    NotListed(entries, now, i);
  }

  lemma NotListed(entries: seq<Entry>, now: int, i: nat)
    requires i < |entries|
    ensures entries[i].sha != Digest(Manifest(entries, now))
  {
    var m := Manifest(entries, now);
    assert entries[i].sha.of < m;
  }

  /**
   A dry run writes nothing, and reports what the real run does unless that run itself creates the manifest
   path as a copied file or deletes it as a stale one.
   */
  lemma DryRunAgrees(files: Files, source: Files, desired: seq<Path>, manifest: Path, now: int)
    requires forall p :: p in desired ==> p in source
    ensures var dry, wet := Install(files, source, desired, manifest, now, true),
                             Install(files, source, desired, manifest, now, false);
      && dry.files == files
      && (dry.action == wet.action <==>
            !(manifest in desired && manifest !in files) && manifest !in Stale(files, desired, manifest))
  {
    if manifest in desired {
      assert manifest in Wanted(desired);
      if manifest !in files {
        assert !IsCopied(files, source, manifest);
      }
    }
  }

  // ---- Uninstalling ----

  /** Uninstalling never removes a file that is not what the manifest says was installed. */
  lemma ModifiedFilesStay(files: Files, manifest: Path, p: Path)
    requires p in files && p != manifest
    ensures var r := Uninstall(files, manifest);
      if LoadManifest(files, manifest).Some? && Entry(p, Digest(files[p])) in LoadManifest(files, manifest).value
      then p !in r.files
      else p in r.files && r.files[p] == files[p]
  {
  }

  /**
   What an uninstall reports: UNCHANGED exactly without a readable manifest; otherwise, for a manifest that lists
   each path with one digest and not itself, SKIPPED exactly when it leaves a listed file behind, and REMOVED when the
   manifest is gone with them.
   */
  lemma UninstallAction(files: Files, manifest: Path)
    ensures var r := Uninstall(files, manifest);
      && (r.action == Unchanged <==> LoadManifest(files, manifest) == None)
      && (r.action == Unchanged ==> r.files == files)
      && (r.action == Removed ==> manifest !in r.files)
      && r.action in {Unchanged, Skipped, Removed}
    ensures LoadManifest(files, manifest).Some? ==>
      var r, entries := Uninstall(files, manifest), LoadManifest(files, manifest).value;
      Consistent(entries) && (forall e :: e in entries ==> e.path != manifest) ==>
        (r.action == Skipped <==> exists e :: e in entries && e.path in r.files)
  {
    hide Owned;
    if LoadManifest(files, manifest).Some? {
      var entries := LoadManifest(files, manifest).value;
      if Consistent(entries) && forall e :: e in entries ==> e.path != manifest {
        forall i | 0 <= i < |entries|
          ensures SkipsAt(files, entries, i) <==> entries[i].path in files - Owned(files, entries)
        {
          ListedStays(files, entries, i);
        }
      }
    }
  }

  lemma ListedStays(files: Files, entries: seq<Entry>, i: nat)
    requires Consistent(entries) && i < |entries|
    ensures SkipsAt(files, entries, i) <==> entries[i].path in files - Owned(files, entries)
  {
    SkipsAtIs(files, entries, i);
    var e := entries[i];
    if e.path in files && Digest(files[e.path]) != e.sha {
      assert Entry(e.path, Digest(files[e.path])) !in entries;
    }
  }

  /** A manifest whose files were modified stays, so that a later uninstall can finish. */
  lemma SkippedKeepsManifest(files: Files, manifest: Path)
    requires Uninstall(files, manifest).action == Skipped
    ensures LoadManifest(Uninstall(files, manifest).files, manifest) == LoadManifest(files, manifest)
  {
    var entries := LoadManifest(files, manifest).value;
    forall i: nat | i < |entries| ensures entries[i].sha != Digest(files[manifest]) {
      NotListed(entries, files[manifest].installedAt, i);
    }
    assert manifest !in Owned(files, entries);
  }

  /** Right after an install the manifest owns exactly the desired files. */
  lemma OwnedAfterInstall(files: Files, source: Files, desired: seq<Path>)
    requires forall p :: p in desired ==> p in source && p in files && files[p] == source[p]
    ensures Owned(files, EntriesFor(source, desired)) == Wanted(desired)
    ensures !Skips(files, EntriesFor(source, desired))
  {
    var entries := EntriesFor(source, desired);
    forall p | p in Wanted(desired) ensures p in Owned(files, entries) {
      var i :| 0 <= i < |desired| && desired[i] == p;
      assert entries[i] in entries;
    }
    forall i: nat | i < |entries| ensures !SkipsAt(files, entries, i) {
      assert desired[i] in desired;
    }
  }

  lemma InstalledFiles(files: Files, source: Files, desired: seq<Path>, manifest: Path, now: int)
    requires (forall p :: p in desired ==> p in source) && manifest !in desired
    requires Install(files, source, desired, manifest, now, false).action != Unchanged
    ensures var installed := Install(files, source, desired, manifest, now, false).files;
      && installed == Synced(files, source, Wanted(desired), Stale(files, desired, manifest))
                      [manifest := Manifest(EntriesFor(source, desired), now)]
      && forall p :: p in desired ==> p in installed && installed[p] == source[p]
  {
    forall p | p in desired
      ensures var i := Install(files, source, desired, manifest, now, false).files; p in i && i[p] == source[p]
    {
      InstallPostcondition(files, source, desired, manifest, now, p);
    }
  }

  lemma UndoSync(
    files: Files, source: Files, wanted: set<Path>, previous: set<Path>, manifest: Path, m: Content)
    requires wanted <= source.Keys
    ensures Synced(files, source, wanted, previous - wanted)[manifest := m] - wanted - {manifest} ==
            files - wanted - previous - {manifest}
  {
  }

  lemma RestoredExactly(files: Files, wanted: set<Path>, manifest: Path)
    ensures files - wanted - Previous(files, manifest) - {manifest} == files <==>
            manifest !in files && wanted !! files.Keys
  {
    var back := files - wanted - Previous(files, manifest) - {manifest};
    if back == files {
      forall p | p in wanted + {manifest} ensures p !in files {
        assert p !in back;
      }
    }
  }

  /** What an install that wrote something, followed by an uninstall, leaves behind. */
  lemma UndoneInstall(files: Files, source: Files, desired: seq<Path>, manifest: Path, now: int)
    requires (forall p :: p in desired ==> p in source) && manifest !in desired
    requires Install(files, source, desired, manifest, now, false).action != Unchanged
    ensures var back := Uninstall(Install(files, source, desired, manifest, now, false).files, manifest);
      && back.action == Removed
      && back.files == files - Wanted(desired) - Previous(files, manifest) - {manifest}
  {
    hide Install, Synced, Previous, Owned, Skips;
    var installed := Install(files, source, desired, manifest, now, false).files;
    InstalledFiles(files, source, desired, manifest, now);
    OwnedAfterInstall(installed, source, desired);
    UndoSync(files, source, Wanted(desired), Previous(files, manifest), manifest, installed[manifest]);
  }

  /** An install that finds nothing to do leaves the old manifest, and the uninstall goes by that. */
  lemma UninstallKeepsAll(files: Files, manifest: Path)
    ensures Uninstall(files, manifest).files == files <==> KeepsAll(files, manifest)
  {
    if LoadManifest(files, manifest).Some? {
      var owned := Owned(files, LoadManifest(files, manifest).value);
      if owned != {} {
        var p :| p in owned;
        assert p !in files - owned;
      } else {
        assert files - owned == files;
      }
    }
  }

  /** There is no manifest that can be read, or every file it lists is modified or gone and some is modified. */
  predicate KeepsAll(files: Files, manifest: Path) {
    LoadManifest(files, manifest).Some? ==>
      var entries := LoadManifest(files, manifest).value;
      Owned(files, entries) == {} && Skips(files, entries)
  }

  /**
   Install and then uninstall restore every file exactly when, for an install that wrote something, the tree
   had no manifest and none of the desired files, and, for one that found nothing to do, the manifest it left in
   place makes the uninstall remove nothing.
   */
  lemma RoundTrip(files: Files, source: Files, desired: seq<Path>, manifest: Path, now: int)
    requires (forall p :: p in desired ==> p in source) && manifest !in desired
    ensures var installed := Install(files, source, desired, manifest, now, false);
      Uninstall(installed.files, manifest).files == files <==>
      if installed.action == Unchanged then KeepsAll(files, manifest)
      else manifest !in files && Wanted(desired) !! files.Keys
  {
    hide Install, Previous, Uninstall, KeepsAll, Wanted;
    if Install(files, source, desired, manifest, now, false).action == Unchanged {
      ManifestAfterInstall(files, source, desired, manifest, now);
      UninstallKeepsAll(files, manifest);
    } else {
      UndoneInstall(files, source, desired, manifest, now);
      RestoredExactly(files, Wanted(desired), manifest);
    }
  }

  /**
   A file that was brought up to date by hand under an older manifest: the install is UNCHANGED and keeps that
   manifest, so the uninstall is SKIPPED and the file stays.
   */
  lemma OutdatedManifestStays(manifest: Path, p: Path, c: Content, other: Content, at: int, now: int)
    requires manifest != p && c != other
    ensures var files := map[manifest := Manifest([Entry(p, Digest(other))], at), p := c];
            var source := map[p := c];
      && Install(files, source, [p], manifest, now, false) == Run(files, Unchanged)
      && Uninstall(files, manifest) == Run(files, Skipped)
  {
    var entries := [Entry(p, Digest(other))];
    var files := map[manifest := Manifest(entries, at), p := c];
    var source := map[p := c];
    assert PathsOf(entries) == {p} by {
      assert entries[0] in entries;
    }
    assert Wanted([p]) == {p};
    assert !Differs(files, source, Wanted([p]), {});
    NotListed(entries, at, 0);
    assert Owned(files, entries) == {};
    assert SkipsAt(files, entries, 0);
    assert files - {} == files;
  }

  /** When the manifest is among the files to copy, uninstalling finds it modified and leaves it behind. */
  lemma CopiedManifestStays(files: Files, source: Files, desired: seq<Path>, manifest: Path, now: int)
    requires (forall p :: p in desired ==> p in source) && manifest in desired
    requires manifest !in files && Wanted(desired) !! files.Keys
    ensures var back := Uninstall(Install(files, source, desired, manifest, now, false).files, manifest);
      back.action == Skipped && manifest in back.files && back.files != files
  {
    var installed := Install(files, source, desired, manifest, now, false).files;
    assert manifest in Wanted(desired) && !IsCopied(files, source, manifest);
    ManifestAfterInstall(files, source, desired, manifest, now);
    var entries := EntriesFor(source, desired);
    var i :| 0 <= i < |desired| && desired[i] == manifest;
    forall j: nat | j < |entries| ensures entries[j].sha != Digest(installed[manifest]) {
      NotListed(entries, now, j);
    }
    assert SkipsAt(installed, entries, i);
    SkippedKeepsManifest(installed, manifest);
  }

  /** With the manifest among the files to copy, only a tree that holds that very manifest already is restored. */
  lemma RoundTripOfManifest(files: Files, source: Files, desired: seq<Path>, manifest: Path, now: int)
    requires (forall p :: p in desired ==> p in source) && manifest in desired
    ensures var installed := Install(files, source, desired, manifest, now, false);
      Uninstall(installed.files, manifest).files == files <==>
      if installed.action == Unchanged then KeepsAll(files, manifest)
      else && manifest in files && files[manifest] == Manifest(EntriesFor(source, desired), now)
           && (Wanted(desired) - {manifest}) !! files.Keys
  {
    hide KeepsAll;
    var run := Install(files, source, desired, manifest, now, false);
    ManifestAfterInstall(files, source, desired, manifest, now);
    if run.action == Unchanged {
      UninstallKeepsAll(files, manifest);
    } else {
      var entries, installed := EntriesFor(source, desired), run.files;
      OwnedBesideManifest(files, source, desired, manifest, now);
      var back := Uninstall(installed, manifest).files;
      assert back == installed - (Wanted(desired) - {manifest});
      RestoredBesideManifest(files, source, desired, manifest, now, back);
    }
  }

  lemma OwnedBesideManifest(files: Files, source: Files, desired: seq<Path>, manifest: Path, now: int)
    requires (forall p :: p in desired ==> p in source) && manifest in desired
    requires Install(files, source, desired, manifest, now, false).action != Unchanged
    ensures var installed := Install(files, source, desired, manifest, now, false).files;
      && Owned(installed, EntriesFor(source, desired)) == Wanted(desired) - {manifest}
      && Skips(installed, EntriesFor(source, desired))
  {
    var installed := Install(files, source, desired, manifest, now, false).files;
    var entries := EntriesFor(source, desired);
    forall j: nat | j < |entries| ensures entries[j].sha != Digest(installed[manifest]) {
      NotListed(entries, now, j);
    }
    forall p | p in desired && p != manifest ensures p in Owned(installed, entries) {
      var i :| 0 <= i < |desired| && desired[i] == p;
      InstallPostcondition(files, source, desired, manifest, now, p);
      assert entries[i] in entries;
    }
    var i :| 0 <= i < |desired| && desired[i] == manifest;
    assert SkipsAt(installed, entries, i);
  }

  lemma RestoredBesideManifest(
    files: Files, source: Files, desired: seq<Path>, manifest: Path, now: int, back: Files)
    requires (forall p :: p in desired ==> p in source) && manifest in desired
    requires Install(files, source, desired, manifest, now, false).action != Unchanged
    requires back == Install(files, source, desired, manifest, now, false).files - (Wanted(desired) - {manifest})
    ensures back == files <==>
            && manifest in files && files[manifest] == Manifest(EntriesFor(source, desired), now)
            && (Wanted(desired) - {manifest}) !! files.Keys
  {
    var m := Manifest(EntriesFor(source, desired), now);
    assert manifest in back && back[manifest] == m;
    if back == files {
      forall p | p in Wanted(desired) - {manifest} ensures p !in files {
        assert p !in back;
      }
    }
    if manifest in files && files[manifest] == m && (Wanted(desired) - {manifest}) !! files.Keys {
      PathsOfEntries(source, desired);
      assert Stale(files, desired, manifest) == {};
      assert back == files;
    }
  }

  /** An entry that the real run skips is one that a dry run finds modified. */
  lemma SkipsModified(files: Files, entries: seq<Entry>)
    ensures Skips(files, entries) ==> AnyModified(files, entries)
  {
    if Skips(files, entries) {
      var i: nat :| i < |entries| && SkipsAt(files, entries, i);
      assert IsModified(files, entries[i]);
    }
  }

  /**
   A dry run of the uninstall reports what the real run does exactly when the real run skips a file too or
   none was modified: the two differ when every modified entry follows one, for the same path, that matched.
   */
  lemma DryUninstallAgrees(files: Files, manifest: Path)
    ensures DryUninstall(files, manifest).action == Uninstall(files, manifest).action <==>
            (LoadManifest(files, manifest).Some? ==>
               var entries := LoadManifest(files, manifest).value;
               Skips(files, entries) || !AnyModified(files, entries))
  {
    if LoadManifest(files, manifest).Some? {
      SkipsModified(files, LoadManifest(files, manifest).value);
    }
  }

  /** Entries that agree on the digest of every path, as an install writes them, leave no difference. */
  lemma ConsistentUninstallAgrees(files: Files, manifest: Path)
    requires LoadManifest(files, manifest).Some? ==> Consistent(LoadManifest(files, manifest).value)
    ensures DryUninstall(files, manifest).action == Uninstall(files, manifest).action
  {
    if LoadManifest(files, manifest).Some? {
      var entries := LoadManifest(files, manifest).value;
      SkipsModified(files, entries);
      if AnyModified(files, entries) {
        var i: nat :| i < |entries| && IsModified(files, entries[i]);
        SkipsAtIs(files, entries, i);
        assert SkipsAt(files, entries, i);
      }
    }
  }

  /** A manifest with two digests for one path, the first of them current: REMOVED, but SKIPPED in a dry run. */
  lemma TwoDigestsDiffer(manifest: Path, p: Path, c: Content, other: Content, at: int)
    requires manifest != p && c != other
    ensures var m := Manifest([Entry(p, Digest(c)), Entry(p, Digest(other))], at);
            var files := map[manifest := m, p := c];
      Uninstall(files, manifest).action == Removed && DryUninstall(files, manifest).action == Skipped
  {
    var entries := [Entry(p, Digest(c)), Entry(p, Digest(other))];
    var files := map[manifest := Manifest(entries, at), p := c];
    assert entries[..1] == [entries[0]];
    assert !SkipsAt(files, entries, 0) && !SkipsAt(files, entries, 1);
    assert IsModified(files, entries[1]);
  }

  // ---- The tree on disk ----

  class Tree {
    var files: Files

    /** Writes the desired files that are missing or differ. */
    method WriteDesired(source: Files, desired: seq<Path>, dryRun: bool) returns (entries: seq<Entry>, changed: bool)
      requires Wanted(desired) <= source.Keys && forall p :: p in desired ==> p in source
      modifies this
      ensures entries == EntriesFor(source, desired)
      ensures files == if dryRun then old(files) else WithCopies(old(files), source, Wanted(desired))
      ensures changed <==> AnyToCopy(old(files), source, Wanted(desired))
    {
      hide Wanted, WithCopies, AnyToCopy;
      entries, changed := [], false;
      ghost var before := files;
      NoneWanted(files, source, desired);
      for i := 0 to |desired|
        invariant Wanted(desired[..i]) <= source.Keys && entries == EntriesFor(source, desired[..i])
        invariant files == if dryRun then before else WithCopies(before, source, Wanted(desired[..i]))
        invariant changed <==> AnyToCopy(before, source, Wanted(desired[..i]))
      {
        var rel := desired[i];
        OneMoreWanted(before, source, desired, i);
        entries := entries + [Entry(rel, Digest(source[rel]))];
        if !(rel in files && Digest(files[rel]) == Digest(source[rel])) {
          changed := true;
          if !dryRun {
            files := files[rel := source[rel]];
          }
        }
      }
      assert desired[..|desired|] == desired;
    }

    /** Deletes the stale paths that exist. */
    method DeleteStale(stale: set<Path>, dryRun: bool) returns (changed: bool)
      modifies this
      ensures files == if dryRun then old(files) else old(files) - stale
      ensures changed <==> AnyIn(old(files), stale)
    {
      changed := false;
      var rest := stale;
      ghost var before := files;
      while rest != {}
        invariant rest <= stale
        invariant files == if dryRun then before else before - (stale - rest)
        invariant changed <==> AnyIn(before, stale - rest)
        decreases rest
      {
        var p :| p in rest;
        rest := rest - {p};
        assert stale - rest == (stale - (rest + {p})) + {p};
        if p in files {
          changed := true;
          if !dryRun {
            files := files - {p};
          }
        }
      }
      assert stale - rest == stale;
    }

    method CopyFiles(source: Files, desired: seq<Path>, manifest: Path, now: int, dryRun: bool) returns (action: Action)
      requires forall p :: p in desired ==> p in source
      modifies this
      ensures Run(files, action) == Install(old(files), source, desired, manifest, now, dryRun)
    {
      hide IsCopied, PathsOf, AnyToCopy, AnyIn, WithCopies;
      ghost var before := files;
      var previous := if manifest in files && files[manifest].Manifest? then PathsOf(files[manifest].entries) else {};
      var entries, written := WriteDesired(source, desired, dryRun);
      var stale := previous - Wanted(desired);
      var deleted := DeleteStale(stale, dryRun);
      StaleAsBefore(before, source, Wanted(desired), stale);
      var first := manifest !in files;
      if !written && !deleted && !first {
        NothingSynced(before, source, Wanted(desired), stale);
        return Unchanged;
      }
      if !dryRun {
        files := files[manifest := Manifest(entries, now)];
      }
      action := if first then Created else Updated;
    }

    method RemoveCopied(manifest: Path, dryRun: bool) returns (action: Action)
      modifies this
      ensures Run(files, action) ==
              if dryRun then DryUninstall(old(files), manifest) else Uninstall(old(files), manifest)
    {
      hide Skips, AnyModified, Owned;
      if !(manifest in files && files[manifest].Manifest?) {
        return Unchanged;
      }
      var entries := files[manifest].entries;
      var skipped := RemoveEntries(entries, dryRun);
      if skipped {
        return Skipped;
      }
      if !dryRun {
        files := files - {manifest};
      }
      action := Removed;
    }

    method RemoveEntries(entries: seq<Entry>, dryRun: bool) returns (skipped: bool)
      modifies this
      ensures files == if dryRun then old(files) else old(files) - Owned(old(files), entries)
      ensures skipped <==> if dryRun then AnyModified(old(files), entries) else Skips(old(files), entries)
    {
      hide SkipsAt, Owned;
      skipped := false;
      ghost var before := files;
      NothingOwned(files, entries);
      for i := 0 to |entries|
        invariant files == if dryRun then before else before - Owned(before, entries[..i])
        invariant dryRun ==> (skipped <==> exists j :: 0 <= j < i && IsModified(before, entries[j]))
        invariant !dryRun ==> (skipped <==> exists j :: 0 <= j < i && SkipsAt(before, entries, j))
      {
        OwnedOneMore(before, entries, i);
        SkipsAtIs(before, entries, i);
        var e := entries[i];
        if e.path in files {
          if Digest(files[e.path]) != e.sha {
            skipped := true;
          } else if !dryRun {
            files := files - {e.path};
          }
        }
      }
      assert entries[..|entries|] == entries;
    }
  }

  /** Entries for the same path agree on its digest, as in every manifest an install writes. */
  ghost predicate Consistent(entries: seq<Entry>) {
    forall e, f :: e in entries && f in entries && e.path == f.path ==> e.sha == f.sha
  }

  lemma InstalledIsConsistent(source: Files, desired: seq<Path>)
    requires forall p :: p in desired ==> p in source
    ensures Consistent(EntriesFor(source, desired))
  {
  }

  lemma OwnedOneMore(files: Files, entries: seq<Entry>, i: nat)
    requires i < |entries|
    ensures Owned(files, entries[..i + 1]) == Owned(files, entries[..i])
              + (if entries[i].path in files && Digest(files[entries[i].path]) == entries[i].sha
                 then {entries[i].path} else {})
  {
    assert entries[..i + 1] == entries[..i] + [entries[i]];
  }

  lemma SkipsAtIs(files: Files, entries: seq<Entry>, i: nat)
    requires i < |entries|
    ensures SkipsAt(files, entries, i) <==>
            var p := entries[i].path;
            p in files && Digest(files[p]) != entries[i].sha && p !in Owned(files, entries[..i])
    ensures Consistent(entries) ==>
              (SkipsAt(files, entries, i) <==>
               entries[i].path in files && Digest(files[entries[i].path]) != entries[i].sha)
  {
    assert entries[i] in entries;
    forall e | e in entries[..i] ensures e in entries {
    }
  }

  lemma NoneWanted(files: Files, source: Files, desired: seq<Path>)
    ensures Wanted(desired[..0]) == {}
    ensures WithCopies(files, source, {}) == files && !AnyToCopy(files, source, {})
  {
  }

  lemma OneMoreWanted(files: Files, source: Files, desired: seq<Path>, i: nat)
    requires i < |desired| && desired[i] in source && Wanted(desired[..i]) <= source.Keys
    ensures var wanted, more, p := Wanted(desired[..i]), Wanted(desired[..i + 1]), desired[i];
      && more == wanted + {p}
      && WithCopies(files, source, more) ==
         (if IsCopied(WithCopies(files, source, wanted), source, p) then WithCopies(files, source, wanted)
          else WithCopies(files, source, wanted)[p := source[p]])
      && (AnyToCopy(files, source, more) <==> AnyToCopy(files, source, wanted) || !IsCopied(files, source, p))
      && (AnyToCopy(files, source, more) <==>
            AnyToCopy(files, source, wanted) || !IsCopied(WithCopies(files, source, wanted), source, p))
  {
    assert desired[..i + 1] == desired[..i] + [desired[i]];
  }

  lemma StaleAsBefore(files: Files, source: Files, wanted: set<Path>, stale: set<Path>)
    requires wanted <= source.Keys && stale !! wanted
    ensures AnyIn(WithCopies(files, source, wanted), stale) <==> AnyIn(files, stale)
  {
    forall p | p in stale ensures p in WithCopies(files, source, wanted) <==> p in files {
    }
  }

  lemma NothingSynced(files: Files, source: Files, wanted: set<Path>, stale: set<Path>)
    requires wanted <= source.Keys && !Differs(files, source, wanted, stale)
    ensures Synced(files, source, wanted, stale) == files
  {
    assert forall p :: p in wanted ==> IsCopied(files, source, p);
  }

  lemma NothingOwned(files: Files, entries: seq<Entry>)
    ensures Owned(files, entries[..0]) == {}
  {
  }
}
