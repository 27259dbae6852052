/** `FileManager` as the core uses it: URLs reduced to path components, a
    file system that maps each existing path to what is there, the
    application-support lookup, `createDirectory(at:isExcludedFromBackup:)`
    and the move Foundation performs for a finished download. */
module Files {
  import opened Common

  type Path = seq<string>

  /** A URL: scheme and host (both empty for a file URL), the components of
      its path, and whether it carries a directory hint. */
  datatype Url = Url(scheme: string, host: string, components: Path, isDirectory: bool)

  /** `url.path(percentEncoded: false)`. */
  function PathOf(url: Url): Path {
    url.components
  }

  /** `appending(directory:)`: one more component, marked as a directory. */
  function AppendingDirectory(url: Url, component: string): Url {
    url.(components := url.components + [component], isDirectory := true)
  }

  /** `appending(component:)` with a plain name: one more component, read
      as a file. */
  function AppendingComponent(url: Url, component: string): Url {
    url.(components := url.components + [component], isDirectory := false)
  }

  /** `lastPathComponent`; an empty path gives the empty string. */
  function LastPathComponent(url: Url): string {
    if url.components == [] then "" else url.components[|url.components| - 1]
  }

  lemma LastPathComponentOfAppended(url: Url, component: string)
    ensures LastPathComponent(AppendingComponent(url, component)) == component
    ensures LastPathComponent(AppendingDirectory(url, component)) == component
  {
  }

  /** `applicationSupportDirectory(named:)`. `bundleIdentifier` is
      `Bundle.main.bundleIdentifier`; `supportDirectory` is what
      `url(for: .applicationSupportDirectory, ...)` returns or throws. */
  function ApplicationSupportDirectory(bundleIdentifier: Option<string>, supportDirectory: Result<Url>, name: string): (r: Result<Url>)
    ensures bundleIdentifier.None? ==> r == Err(NoBundleIdentifier)
    ensures bundleIdentifier.Some? && supportDirectory.Err? ==> r == Err(supportDirectory.error)
    ensures bundleIdentifier.Some? && supportDirectory.Ok? ==>
      r.Ok? && r.value.isDirectory
      && r.value.components == supportDirectory.value.components + [bundleIdentifier.value, name]
      && r.value.scheme == supportDirectory.value.scheme && r.value.host == supportDirectory.value.host
  {
    match bundleIdentifier
    case None => Err(NoBundleIdentifier)
    case Some(id) =>
      match supportDirectory
      case Err(e) => Err(e)
      case Ok(base) =>
        var r := AppendingDirectory(AppendingDirectory(base, id), name);
        assert r.components == base.components + [id] + [name];
        Ok(r)
  }

  // ---------------------------------------------------------------------------
  // The file system
  // ---------------------------------------------------------------------------

  datatype Kind = File | Directory

  /** What the file system holds: the kind of item at every existing path,
      and the paths marked excluded from backup. */
  datatype FsState = FsState(entries: map<Path, Kind>, excludedFromBackup: set<Path>)

  /** `p` and its non-empty proper prefixes. */
  function Prefixes(p: Path): set<Path> {
    {p} + set i | 0 < i < |p| :: p[..i]
  }

  /** Some proper ancestor of `p` is a file, so no directory can be created
      at `p`. */
  predicate AncestorIsFile(entries: map<Path, Kind>, p: Path) {
    exists i :: 0 < i < |p| && p[..i] in entries && entries[p[..i]] == File
  }

  /** `entries` after creating `p` with its intermediate directories. */
  function WithDirectories(entries: map<Path, Kind>, p: Path): map<Path, Kind> {
    entries + map q | q in Prefixes(p) && q !in entries :: Directory
  }

  /** `createDirectory(at:isExcludedFromBackup:)`: the outcome and the new
      file system. Nothing at the path: create it with its intermediates
      (Foundation refuses when an ancestor is a file), then mark it excluded
      from backup when asked. A directory already there: nothing to do. A
      file there: refuse. */
  function CreateDirectorySpec(s: FsState, url: Url, isExcludedFromBackup: bool): (Outcome, FsState) {
    var p := PathOf(url);
    if p !in s.entries then
      if AncestorIsFile(s.entries, p) then (Fail(IntermediateIsFile(p)), s)
      else
        (Pass, FsState(WithDirectories(s.entries, p),
                       if isExcludedFromBackup then s.excludedFromBackup + {p} else s.excludedFromBackup))
    else if s.entries[p] == Directory then (Pass, s)
    else (Fail(FileExistsAt(p)), s)
  }

  /** With nothing at the path and no file in the way, the call succeeds: a
      directory is at the path, every ancestor is a directory, whatever
      existed before is kept, and the path is added to the backup
      exclusions when that was asked, and only then. */
  lemma CreateDirectoryCreates(s: FsState, url: Url, exclude: bool)
    requires PathOf(url) !in s.entries && !AncestorIsFile(s.entries, PathOf(url))
    ensures var (o, t) := CreateDirectorySpec(s, url, exclude);
      o == Pass
      && PathOf(url) in t.entries && t.entries[PathOf(url)] == Directory
      && (forall i :: 0 < i < |PathOf(url)| ==> PathOf(url)[..i] in t.entries && t.entries[PathOf(url)[..i]] == Directory)
      && (forall q :: q in s.entries ==> q in t.entries && t.entries[q] == s.entries[q])
      && t.excludedFromBackup == (if exclude then s.excludedFromBackup + {PathOf(url)} else s.excludedFromBackup)
  {
    var p := PathOf(url);
    var t := CreateDirectorySpec(s, url, exclude).1;
    forall i | 0 < i < |p| ensures p[..i] in t.entries && t.entries[p[..i]] == Directory {
      assert p[..i] in Prefixes(p);
    }
  }

  /** The call succeeds exactly when a directory is at the path afterwards. */
  lemma CreateDirectoryOutcome(s: FsState, url: Url, exclude: bool)
    ensures var (o, t) := CreateDirectorySpec(s, url, exclude);
      o == Pass <==> PathOf(url) in t.entries && t.entries[PathOf(url)] == Directory
  {
    var p := PathOf(url);
    if p !in s.entries && !AncestorIsFile(s.entries, p) {
      CreateDirectoryCreates(s, url, exclude);
    }
  }

  /** Every proper ancestor of an existing item is a directory, as in any
      file system a process can observe. */
  predicate WellFormed(entries: map<Path, Kind>) {
    forall q, i :: q in entries && 0 < i < |q| ==> q[..i] in entries && entries[q[..i]] == Directory
  }

  /** Creating a directory keeps a well-formed file system well-formed. */
  lemma CreateDirectoryKeepsWellFormed(s: FsState, url: Url, exclude: bool)
    requires WellFormed(s.entries)
    ensures WellFormed(CreateDirectorySpec(s, url, exclude).1.entries)
  {
    var p := PathOf(url);
    if p !in s.entries && !AncestorIsFile(s.entries, p) {
      var t := WithDirectories(s.entries, p);
      forall q, i | q in t && 0 < i < |q| ensures q[..i] in t && t[q[..i]] == Directory {
        if q !in s.entries {
          assert q in Prefixes(p);
          assert q[..i] == p[..i];
          assert p[..i] in Prefixes(p);
          if p[..i] in s.entries {
            assert s.entries[p[..i]] != File;
          }
        }
      }
    }
  }

  /** With a directory already at the path, nothing changes and nothing is
      thrown. */
  lemma CreateDirectoryExisting(s: FsState, url: Url, exclude: bool)
    requires PathOf(url) in s.entries && s.entries[PathOf(url)] == Directory
    ensures CreateDirectorySpec(s, url, exclude) == (Pass, s)
  {
  }

  /** With a file at the path, or in the way, the call throws and nothing
      changes. */
  lemma CreateDirectoryRefuses(s: FsState, url: Url, exclude: bool)
    requires PathOf(url) in s.entries ==> s.entries[PathOf(url)] == File
    requires PathOf(url) !in s.entries ==> AncestorIsFile(s.entries, PathOf(url))
    ensures var (o, t) := CreateDirectorySpec(s, url, exclude); o.Fail? && t == s
  {
  }

  /** A second call with the same arguments changes nothing and succeeds
      whenever the first one did. */
  lemma CreateDirectoryIdempotent(s: FsState, url: Url, exclude: bool)
    ensures var (o, t) := CreateDirectorySpec(s, url, exclude);
      CreateDirectorySpec(t, url, exclude) == (o, t)
  {
    var p := PathOf(url);
    if p !in s.entries && !AncestorIsFile(s.entries, p) {
      CreateDirectoryCreates(s, url, exclude);
    }
  }

  /** Foundation's `moveItem(at:to:)` for a single item: the source must
      exist, the destination must not, and the destination's parent must be
      a directory (the root always is). */
  function MoveItemSpec(entries: map<Path, Kind>, from: Path, to: Path): (Outcome, map<Path, Kind>) {
    if from !in entries then (Fail(NoSuchItem(from)), entries)
    else if to in entries then (Fail(ItemAlreadyExists(to)), entries)
    else if |to| > 1 && !(to[..|to| - 1] in entries && entries[to[..|to| - 1]] == Directory) then
      (Fail(NoParentDirectory(to)), entries)
    else (Pass, (entries - {from})[to := entries[from]])
  }

  /** A move that succeeds leaves the item at the destination, of the same
      kind, and nothing at the source; one that fails changes nothing. */
  lemma MoveItemEffect(entries: map<Path, Kind>, from: Path, to: Path)
    ensures var (o, after) := MoveItemSpec(entries, from, to);
      (o == Pass ==> from in entries && to in after && after[to] == entries[from]
                     && from != to && from !in after)
      && (o.Fail? ==> after == entries)
  {
  }

  /** Moving a file keeps a well-formed file system well-formed. */
  lemma MoveItemKeepsWellFormed(entries: map<Path, Kind>, from: Path, to: Path)
    requires WellFormed(entries)
    requires from in entries ==> entries[from] == File
    ensures WellFormed(MoveItemSpec(entries, from, to).1)
  {
    var (o, after) := MoveItemSpec(entries, from, to);
    if o == Pass {
      forall q, i | q in after && 0 < i < |q| ensures q[..i] in after && after[q[..i]] == Directory {
        if q == to {
          var parent := to[..|to| - 1];
          assert parent in entries && entries[parent] == Directory;
          if i < |to| - 1 {
            assert parent[..i] == to[..i];
          }
          assert to[..i] in entries && entries[to[..i]] == Directory;
        }
        assert q[..i] != from;
      }
    }
  }

  /** The process's file system (`FileManager.default`), held as an object
      because the core changes it in place. */
  class FileSystem {
    var entries: map<Path, Kind>
    var excludedFromBackup: set<Path>

    function State(): FsState
      reads this
    {
      FsState(entries, excludedFromBackup)
    }

    constructor (entries: map<Path, Kind>)
      ensures State() == FsState(entries, {})
    {
      this.entries := entries;
      this.excludedFromBackup := {};
    }

    /** `fileExists(at:)`: something, of either kind, is at the URL's path. */
    function FileExists(url: Url): (r: bool)
      reads this
      ensures r <==> PathOf(url) in entries
    {
      PathOf(url) in entries
    }

    /** `createDirectory(at:isExcludedFromBackup:)`. */
    method CreateDirectory(url: Url, isExcludedFromBackup: bool) returns (o: Outcome)
      modifies this
      ensures (o, State()) == CreateDirectorySpec(old(State()), url, isExcludedFromBackup)
      ensures o == Pass ==> FileExists(url)
      ensures o.Fail? ==> entries == old(entries)
      ensures WellFormed(old(entries)) ==> WellFormed(entries)
    {
      CreateDirectoryOutcome(State(), url, isExcludedFromBackup);
      if WellFormed(entries) {
        CreateDirectoryKeepsWellFormed(State(), url, isExcludedFromBackup);
      }
      var p := PathOf(url);
      if p !in entries {
        if AncestorIsFile(entries, p) {
          o := Fail(IntermediateIsFile(p));
          return;
        }
        entries := WithDirectories(entries, p);
        o := Pass;
        if isExcludedFromBackup {
          excludedFromBackup := excludedFromBackup + {p};
        }
      } else if entries[p] != Directory {
        o := Fail(FileExistsAt(p));
      } else {
        o := Pass;
      }
    }

    /** `moveItem(at:to:)`. */
    method MoveItem(from: Url, to: Url) returns (o: Outcome)
      modifies this
      ensures (o, entries) == MoveItemSpec(old(entries), PathOf(from), PathOf(to))
      ensures o == Pass ==> FileExists(to) && !FileExists(from)
      ensures o.Fail? ==> entries == old(entries)
      ensures WellFormed(old(entries)) && (PathOf(from) in old(entries) ==> old(entries)[PathOf(from)] == File) ==>
        WellFormed(entries)
      ensures excludedFromBackup == old(excludedFromBackup)
    {
      MoveItemEffect(entries, PathOf(from), PathOf(to));
      if WellFormed(entries) && (PathOf(from) in entries ==> entries[PathOf(from)] == File) {
        MoveItemKeepsWellFormed(entries, PathOf(from), PathOf(to));
      }
      var r := MoveItemSpec(entries, PathOf(from), PathOf(to));
      o, entries := r.0, r.1;
    }
  }
}
