/** internal/cacheutil/versioned_dir.go over internal/fsutil/atomic.go.

    `Disk` is what survives a crash. Each system call succeeds, fails, or is cut
    short by a crash; a crash may also tear any file whose data was not synced and
    lose any temp file. A method that meets a crash stops at once, so what its contract says of a
    crashed run it says of every intermediate state.
 */
module VersionedDir {

  /** The paths Open deals with. Temp files are named apart from all others. */
  datatype Path =
    | Sidecar(name: string)
    | Temp(id: nat)
    | EntriesRoot
    | InEntries(key: string)
    | ExtraRoot(name: string)
    | InExtra(dir: string, key: string)
    | ExtraFile(name: string)

  type Values = map<string, string>

  /** `Cached` is an entry or an extra, with the token values it was written under. */
  datatype Node = Dir | File(data: string, synced: bool) | Cached(under: Values)

  type Files = map<Path, Node>

  datatype Token = Token(name: string, value: string)

  datatype Config = Config(tokens: seq<Token>, extraDirs: seq<string>, extraFiles: seq<string>)

  datatype Outcome = Ok | Failed | Crashed

  // ---------------------------------------------------------------------
  // What has to hold of the disk at every instant
  // ---------------------------------------------------------------------

  ghost function Names(c: Config): set<string> {
    set i | 0 <= i < |c.tokens| :: c.tokens[i].name
  }

  ghost predicate WellFormed(c: Config) {
    forall i, j :: 0 <= i < j < |c.tokens| ==> c.tokens[i].name != c.tokens[j].name
  }

  /** Where the cache keeps what the tokens version. */
  predicate CachePlace(c: Config, p: Path) {
    || p.InEntries?
    || (p.InExtra? && p.dir in c.extraDirs && p.dir != "")
    || (p.ExtraFile? && p.name in c.extraFiles && p.name != "")
  }

  ghost predicate SidecarIs(fs: Files, name: string, value: string) {
    Sidecar(name) in fs && fs[Sidecar(name)] == File(value, true)
  }

  /** Data written under `under` is described by the sidecars of this version. */
  ghost predicate Describes(c: Config, fs: Files, under: Values) {
    forall n :: n in Names(c) ==> n in under && SidecarIs(fs, n, under[n])
  }

  ghost predicate Tidy(fs: Files) {
    && (forall p :: p in fs && fs[p].Cached? ==> p.InEntries? || p.InExtra? || p.ExtraFile?)
    && (forall p :: p in fs && fs[p].File? && !fs[p].synced ==> p.Temp?)
    && (forall n :: Sidecar(n) in fs ==> fs[Sidecar(n)].File?)
  }

  ghost predicate CachedAt(c: Config, fs: Files, p: Path) {
    p in fs && fs[p].Cached? && CachePlace(c, p)
  }

  /** No stale entry can be mistaken for a current one. */
  ghost predicate Safe(c: Config, fs: Files) {
    Tidy(fs) && forall p :: CachedAt(c, fs, p) ==> Describes(c, fs, fs[p].under)
  }

  ghost predicate NoCache(c: Config, fs: Files) {
    forall p :: !CachedAt(c, fs, p)
  }

  ghost predicate Kept(a: Files, b: Files, p: Path) {
    (p in a <==> p in b) && (p in a ==> a[p] == b[p])
  }

  ghost predicate OnlyTemps(a: Files, b: Files) {
    forall p: Path :: !p.Temp? ==> Kept(a, b, p)
  }

  ghost predicate SidecarsKept(a: Files, b: Files) {
    forall n :: Kept(a, b, Sidecar(n))
  }

  /** Whatever is cached was cached before. */
  ghost predicate CacheShrinks(a: Files, b: Files) {
    forall p :: p in b && b[p].Cached? ==> p in a && a[p] == b[p]
  }

  /** Only temp files and what is under `root` may differ. */
  ghost predicate KeptOutside(root: Path, a: Files, b: Files) {
    forall p: Path :: !p.Temp? && !Within(root, p) ==> Kept(a, b, p)
  }

  lemma KeptOutsideTwice(root: Path, a: Files, b: Files, c: Files)
    requires KeptOutside(root, a, b) && KeptOutside(root, b, c)
    ensures KeptOutside(root, a, c)
  {
    forall p: Path | !p.Temp? && !Within(root, p) ensures Kept(a, c, p) {
      assert Kept(a, b, p) && Kept(b, c, p);
    }
  }

  /** Extras of other versions are as they were. */
  ghost predicate OthersKept(c: Config, a: Files, b: Files) {
    forall p: Path :: (p.InExtra? || p.ExtraFile?) && !CachePlace(c, p) ==> Kept(a, b, p)
  }

  lemma OthersKeptTwice(c: Config, f: Files, g: Files, h: Files)
    requires OthersKept(c, f, g) && OthersKept(c, g, h)
    ensures OthersKept(c, f, h)
  {
    forall p: Path | (p.InExtra? || p.ExtraFile?) && !CachePlace(c, p) ensures Kept(f, h, p) {
      assert Kept(f, g, p) && Kept(g, h, p);
    }
  }

  /** Only temp files and this version's sidecars may differ. */
  ghost predicate SidecarsOnly(c: Config, a: Files, b: Files) {
    forall p: Path :: !p.Temp? && (p.Sidecar? ==> p.name !in Names(c)) ==> Kept(a, b, p)
  }

  lemma SidecarsOnlyTwice(c: Config, f: Files, g: Files, h: Files)
    requires SidecarsOnly(c, f, g) && SidecarsOnly(c, g, h)
    ensures SidecarsOnly(c, f, h)
  {
    forall p: Path | !p.Temp? && (p.Sidecar? ==> p.name !in Names(c)) ensures Kept(f, h, p) {
      assert Kept(f, g, p) && Kept(g, h, p);
    }
  }

  /** Cached files may have gone; what is left and the sidecars are as before. */
  ghost predicate Lessened(a: Files, b: Files) {
    CacheShrinks(a, b) && SidecarsKept(a, b)
  }

  lemma LessenedTwice(a: Files, b: Files, c: Files)
    requires Lessened(a, b) && Lessened(b, c)
    ensures Lessened(a, c)
  {
    forall n ensures Kept(a, c, Sidecar(n)) {
      assert Kept(a, b, Sidecar(n)) && Kept(b, c, Sidecar(n));
    }
  }

  /** A crash: unsynced data may be anything, and any temp file may be gone. */
  ghost predicate Torn(a: Files, b: Files) {
    && (forall p: Path :: p in a && !p.Temp? ==> p in b)
    && forall p :: p in b ==>
         p in a && if a[p].File? && !a[p].synced then b[p].File? && !b[p].synced else b[p] == a[p]
  }

  lemma CrashTearsTemps(a: Files, b: Files)
    requires Torn(a, b) && Tidy(a)
    ensures Tidy(b) && OnlyTemps(a, b) && Lessened(a, b)
  {
    forall p: Path | !p.Temp? ensures Kept(a, b, p) {
      assert p in a <==> p in b;
    }
    forall n | Sidecar(n) in b ensures b[Sidecar(n)].File? {
      assert Kept(a, b, Sidecar(n));
    }
  }

  /** A crash at any instant leaves a safe disk safe. */
  lemma CrashKeepsSafe(c: Config, a: Files, b: Files)
    requires Torn(a, b) && Safe(c, a)
    ensures Safe(c, b)
  {
    CrashTearsTemps(a, b);
    ShrinkKeepsSafe(c, a, b);
  }

  /** Dropping cached files and touching no sidecar keeps the rest safe. */
  lemma ShrinkKeepsSafe(c: Config, a: Files, b: Files)
    requires Lessened(a, b) && Tidy(b)
    ensures Safe(c, a) ==> Safe(c, b)
  {
    if Safe(c, a) {
      forall p | CachedAt(c, b, p) ensures Describes(c, b, b[p].under) {
        assert CachedAt(c, a, p);
        forall n | n in Names(c) ensures n in b[p].under && SidecarIs(b, n, b[p].under[n]) {
          assert SidecarIs(a, n, a[p].under[n]) && Kept(a, b, Sidecar(n));
        }
      }
    }
  }

  /** The order of Open's two halves is essential: a sidecar written before the
      old entries are gone makes them look current. */
  lemma SidecarFirstIsUnsafe()
    ensures var c := Config([Token("version", "2")], [], []);
            var fs := map[Sidecar("version") := File("1", true), InEntries("e") := Cached(map["version" := "1"])];
            Safe(c, fs) && !Safe(c, fs[Sidecar("version") := File("2", true)])
  {
    var c := Config([Token("version", "2")], [], []);
    var under := map["version" := "1"];
    var fs := map[Sidecar("version") := File("1", true), InEntries("e") := Cached(under)];
    assert c.tokens[0].name in Names(c);
    assert Names(c) == {"version"};
    assert Describes(c, fs, under);
    assert CachedAt(c, fs[Sidecar("version") := File("2", true)], InEntries("e"));
    var early := fs[Sidecar("version") := File("2", true)];
    assert early[InEntries("e")] == Cached(under) && "version" in under;
    assert !SidecarIs(early, "version", "1");
  }

  // ---------------------------------------------------------------------
  // System calls
  // ---------------------------------------------------------------------

  class Disk {
    var files: Files

    constructor ()
      ensures files == map[]
    {
      files := map[];
    }

    method Crash()
      modifies this
      ensures Torn(old(files), files)
    {
      var paths := files.Keys;
      while paths != {}
        invariant paths <= files.Keys <= old(files).Keys && Torn(old(files), files)
        decreases |paths|
      {
        var p :| p in paths;
        if files[p].File? && !files[p].synced {
          var data: string := *;
          files := files[p := File(data, false)];
        }
        var lost: bool := *;
        if p.Temp? && lost {
          files := files - {p};
        }
        paths := paths - {p};
      }
    }

    /** Sets one path at once, unless it fails or crashes first or just after. */
    method Put(p: Path, node: Node) returns (o: Outcome)
      modifies this
      ensures o.Ok? ==> files == old(files)[p := node]
      ensures o.Failed? ==> files == old(files)
      ensures o.Crashed? ==> Torn(old(files), files) || Torn(old(files)[p := node], files)
    {
      if * { return Failed; }
      if * { Crash(); return Crashed; }
      files := files[p := node];
      if * { Crash(); return Crashed; }
      return Ok;
    }

    method Remove(p: Path) returns (o: Outcome)
      modifies this
      ensures o.Ok? ==> files == old(files) - {p}
      ensures o.Failed? ==> files == old(files)
      ensures o.Crashed? ==> Torn(old(files), files) || Torn(old(files) - {p}, files)
    {
      if * { return Failed; }
      if * { Crash(); return Crashed; }
      files := files - {p};
      if * { Crash(); return Crashed; }
      return Ok;
    }

    method Rename(from: Path, to: Path) returns (o: Outcome)
      requires from in files && from != to
      modifies this
      ensures var moved := old(files)[to := old(files)[from]] - {from};
              && (o.Ok? ==> files == moved)
              && (o.Failed? ==> files == old(files))
              && (o.Crashed? ==> Torn(old(files), files) || Torn(moved, files))
    {
      if * { return Failed; }
      if * { Crash(); return Crashed; }
      files := files[to := files[from]] - {from};
      if * { Crash(); return Crashed; }
      return Ok;
    }

    /** Reads a sidecar; a missing file is not an error. */
    method ReadSidecar(name: string) returns (o: Outcome, found: bool, data: string)
      requires Sidecar(name) in files ==> files[Sidecar(name)].File?
      modifies this
      ensures !o.Crashed? ==> files == old(files)
      ensures o.Crashed? ==> Torn(old(files), files)
      ensures o.Ok? ==> found == (Sidecar(name) in files) && (found ==> data == files[Sidecar(name)].data)
    {
      found, data := Sidecar(name) in files, "";
      if * { return Failed, found, data; }
      if * { Crash(); return Crashed, found, data; }
      if found { data := files[Sidecar(name)].data; }
      return Ok, found, data;
    }

    /** Removes a directory and what is below it, one file per step. */
    method RemoveAll(root: Path) returns (o: Outcome)
      requires Tidy(files) && (root.EntriesRoot? || root.ExtraRoot?)
      modifies this
      ensures Tidy(files) && Lessened(old(files), files)
      ensures KeptOutside(root, old(files), files)
      ensures o.Ok? ==> forall p :: p in files ==> !Within(root, p)
    {
      var doomed := set p | p in files && Within(root, p);
      while doomed != {}
        invariant forall p :: p in doomed <==> p in files && Within(root, p)
        invariant Tidy(files) && Lessened(old(files), files) && KeptOutside(root, old(files), files)
        decreases |doomed|
      {
        var p :| p in doomed;
        ghost var before := files;
        o := Remove(p);
        if o.Crashed? { CrashTearsTemps(if Torn(before, files) then before else before - {p}, files); }
        LessenedTwice(old(files), before, files);
        KeptOutsideTwice(root, old(files), before, files);
        if !o.Ok? { return; }
        doomed := doomed - {p};
      }
      return Ok;
    }

    /** MkdirAll of the entries directory. */
    method MkdirEntries() returns (o: Outcome)
      requires Tidy(files)
      modifies this
      ensures Tidy(files) && Lessened(old(files), files)
      ensures forall p: Path :: !p.Temp? && p != EntriesRoot ==> Kept(old(files), files, p)
      ensures o.Ok? ==> EntriesRoot in files
    {
      ghost var before := files;
      o := Put(EntriesRoot, Dir);
      if o.Crashed? { CrashTearsTemps(if Torn(before, files) then before else before[EntriesRoot := Dir], files); }
    }

    method RemoveExtraFile(name: string) returns (o: Outcome)
      requires Tidy(files)
      modifies this
      ensures Tidy(files) && Lessened(old(files), files)
      ensures forall p: Path :: !p.Temp? && p != ExtraFile(name) ==> Kept(old(files), files, p)
      ensures o.Ok? ==> ExtraFile(name) !in files
    {
      if ExtraFile(name) !in files { return Ok; }
      ghost var before := files;
      o := Remove(ExtraFile(name));
      if o.Crashed? { CrashTearsTemps(if Torn(before, files) then before else before - {ExtraFile(name)}, files); }
    }

    // -------------------------------------------------------------------
    // fsutil.WriteFileAtomic
    // -------------------------------------------------------------------

    method PutTemp(tmp: Path, node: Node) returns (o: Outcome)
      requires Tidy(files) && tmp.Temp? && node.File?
      modifies this
      ensures Tidy(files) && OnlyTemps(old(files), files)
      ensures o.Ok? ==> files == old(files)[tmp := node]
    {
      ghost var before := files;
      o := Put(tmp, node);
      if o.Crashed? { CrashTearsTemps(if Torn(before, files) then before else before[tmp := node], files); }
    }

    /** CreateTemp, Chmod, write, Sync, Close. */
    method FillTemp(tmp: Path, data: string) returns (o: Outcome)
      requires Tidy(files) && tmp.Temp?
      modifies this
      ensures Tidy(files) && OnlyTemps(old(files), files)
      ensures o.Ok? ==> tmp in files && files[tmp] == File(data, true)
    {
      o := PutTemp(tmp, File("", false));
      if !o.Ok? { return; }
      if * { Cleanup(tmp); return Failed; }   // Chmod

      var length: nat := *;                   // a failed write leaves part of the data
      var part := if 0 <= length < |data| then data[..length] else data;
      o := PutTemp(tmp, File(part, false));
      if !o.Ok? || part != data {
        if !o.Crashed? { Cleanup(tmp); }
        return if o.Ok? then Failed else o;
      }

      o := PutTemp(tmp, File(data, true));    // Sync
      if o.Failed? { Cleanup(tmp); }
      if !o.Ok? { return; }
      if * { Cleanup(tmp); return Failed; }   // Close
    }

    /** Writes a temp file, syncs it and renames it over `path`. However it ends,
        `path` holds its complete old or its complete new content, and only temp
        files besides it have changed. */
    method WriteFileAtomic(path: Path, data: string) returns (o: Outcome)
      requires Tidy(files) && path.Sidecar?
      modifies this
      ensures Tidy(files)
      ensures forall p: Path :: !p.Temp? && p != path ==> Kept(old(files), files, p)
      ensures o.Ok? ==> path in files && files[path] == File(data, true)
      ensures Kept(old(files), files, path) || (path in files && files[path] == File(data, true))
    {
      FreshTempExists(files);
      var id: nat :| Temp(id) !in files;
      o := FillTemp(Temp(id), data);
      assert Kept(old(files), files, path);
      if !o.Ok? { return; }

      ghost var before := files;
      ghost var moved := before[path := before[Temp(id)]] - {Temp(id)};
      o := Rename(Temp(id), path);
      if o.Crashed? {
        if Torn(before, files) { CrashTearsTemps(before, files); }
        else { CrashTearsTemps(moved, files); assert Kept(moved, files, path); }
      } else if o.Failed? {
        Cleanup(Temp(id));
      }
    }

    /** Best effort: whatever becomes of the temp file. */
    method Cleanup(tmp: Path)
      requires Tidy(files) && tmp.Temp?
      modifies this
      ensures Tidy(files) && OnlyTemps(old(files), files)
    {
      ghost var before := files;
      var o := Remove(tmp);
      if o.Crashed? { CrashTearsTemps(if Torn(before, files) then before else before - {tmp}, files); }
    }
  }

  lemma FreshTempExists(fs: Files)
    ensures exists id: nat :: Temp(id) !in fs
  {
    var ids := set p | p in fs && p.Temp? :: p.id;
    var id := Beyond(ids);
    assert forall k: nat :: Temp(k) in fs ==> Temp(k).id in ids;
    assert Temp(id) !in fs;
  }

  lemma {:induction false} Beyond(ids: set<nat>) returns (id: nat)
    ensures forall x :: x in ids ==> x < id
  {
    if ids == {} {
      id := 0;
    } else {
      var x :| x in ids;
      var rest := Beyond(ids - {x});
      id := if x < rest then rest else x + 1;
      forall y | y in ids ensures y < id {
        assert y == x || y in ids - {x};
      }
    }
  }

  predicate Within(root: Path, p: Path) {
    p == root || (root.EntriesRoot? && p.InEntries?) || (root.ExtraRoot? && p.InExtra? && p.dir == root.name)
  }

  // ---------------------------------------------------------------------
  // VersionedDir
  // ---------------------------------------------------------------------

  /** Every sidecar holds this version's value. */
  ghost predicate AllCurrent(c: Config, fs: Files) {
    forall i :: 0 <= i < |c.tokens| ==> SidecarIs(fs, c.tokens[i].name, c.tokens[i].value)
  }

  /** Some sidecar that is present differs from its token. */
  ghost predicate Mismatched(c: Config, fs: Files)
    requires Tidy(fs)
  {
    exists i :: 0 <= i < |c.tokens| && Sidecar(c.tokens[i].name) in fs
                && fs[Sidecar(c.tokens[i].name)].data != c.tokens[i].value
  }

  /** Every sidecar there is holds its token's value; a missing one counts as holding it. */
  ghost predicate Matches(c: Config, fs: Files) {
    forall t :: t in c.tokens && Sidecar(t.name) in fs ==>
      fs[Sidecar(t.name)].File? && fs[Sidecar(t.name)].data == t.value
  }

  lemma MatchesIff(c: Config, fs: Files)
    requires Tidy(fs)
    ensures Matches(c, fs) <==> !Mismatched(c, fs)
  {
    assert forall i :: 0 <= i < |c.tokens| ==> c.tokens[i] in c.tokens;
  }

  /** Written under this version's values, as far as it has tokens for them. */
  ghost predicate Fresh(c: Config, under: Values) {
    forall i :: 0 <= i < |c.tokens| ==> c.tokens[i].name in under && under[c.tokens[i].name] == c.tokens[i].value
  }

  /** A sidecar keeps its complete old content or has its complete new one. */
  ghost predicate OldOrNew(a: Files, b: Files, t: Token) {
    Kept(a, b, Sidecar(t.name)) || SidecarIs(b, t.name, t.value)
  }

  /** What a completed Open makes of a disk: there is an entries directory and the
      sidecars are current; a mismatch has emptied the cache and left the extras of
      other versions alone, none has left the cache as it was. */
  ghost predicate Opened(c: Config, before: Files, after: Files)
    requires Tidy(before)
  {
    && Tidy(after) && EntriesRoot in after && AllCurrent(c, after)
    && (forall n :: n !in Names(c) ==> Kept(before, after, Sidecar(n)))
    && if Mismatched(c, before) then NoCache(c, after) && CacheShrinks(before, after) && OthersKept(c, before, after)
       else forall p: Path :: !p.Temp? && !p.Sidecar? && p != EntriesRoot ==> Kept(before, after, p)
  }

  /** What an Open that failed or crashed may leave: some of the cache is gone, or
      all that had to go is and some of the sidecars are written. */
  ghost predicate CutShort(c: Config, before: Files, after: Files)
    requires Tidy(before)
  {
    && Tidy(after)
    && (Lessened(before, after) || exists ready :: ReadyThenWritten(c, before, ready, after))
  }

  ghost predicate ReadyThenWritten(c: Config, before: Files, ready: Files, after: Files)
    requires Tidy(before)
  {
    && Tidy(ready) && Lessened(before, ready) && (Mismatched(c, before) ==> NoCache(c, ready))
    && SidecarsOnly(c, ready, after)
    && forall i :: 0 <= i < |c.tokens| ==> OldOrNew(ready, after, c.tokens[i])
  }

  /** Without a mismatch either nothing is cached or every sidecar is current. */
  lemma NoMismatchMeansCurrent(c: Config, fs: Files)
    requires Safe(c, fs) && !Mismatched(c, fs)
    ensures NoCache(c, fs) || AllCurrent(c, fs)
  {
    if p :| CachedAt(c, fs, p) {
      forall i | 0 <= i < |c.tokens| ensures SidecarIs(fs, c.tokens[i].name, c.tokens[i].value) {
        assert c.tokens[i].name in Names(c);
        assert SidecarIs(fs, c.tokens[i].name, fs[p].under[c.tokens[i].name]);
      }
    }
  }

  /** When every sidecar is current, whatever is cached was written under the
      current values. */
  lemma CurrentMeansFresh(c: Config, fs: Files, p: Path)
    requires Safe(c, fs) && AllCurrent(c, fs) && CachedAt(c, fs, p)
    ensures Fresh(c, fs[p].under)
  {
    forall i | 0 <= i < |c.tokens|
      ensures c.tokens[i].name in fs[p].under && fs[p].under[c.tokens[i].name] == c.tokens[i].value
    {
      assert c.tokens[i].name in Names(c);
      assert SidecarIs(fs, c.tokens[i].name, fs[p].under[c.tokens[i].name]);
      assert SidecarIs(fs, c.tokens[i].name, c.tokens[i].value);
    }
  }

  /** Writing any of the sidecars is harmless when nothing is cached or all are current. */
  lemma SidecarsWritten(c: Config, a: Files, b: Files)
    requires Safe(c, a) && Tidy(b) && (NoCache(c, a) || AllCurrent(c, a))
    requires forall p: Path :: !p.Temp? && !p.Sidecar? ==> Kept(a, b, p)
    requires forall i :: 0 <= i < |c.tokens| ==> OldOrNew(a, b, c.tokens[i])
    ensures Safe(c, b)
  {
    forall p | CachedAt(c, b, p) ensures Describes(c, b, b[p].under) {
      assert Kept(a, b, p) && CachedAt(c, a, p);
      forall n | n in Names(c) ensures n in b[p].under && SidecarIs(b, n, b[p].under[n]) {
        var i :| 0 <= i < |c.tokens| && c.tokens[i].name == n;
        assert SidecarIs(a, n, a[p].under[n]) && SidecarIs(a, n, c.tokens[i].value);
        assert OldOrNew(a, b, c.tokens[i]);
      }
    }
  }

  method TokensMismatched(c: Config, disk: Disk) returns (o: Outcome, nuke: bool)
    requires Tidy(disk.files)
    modifies disk
    ensures Tidy(disk.files) && OnlyTemps(old(disk.files), disk.files) && Lessened(old(disk.files), disk.files)
    ensures !o.Crashed? ==> disk.files == old(disk.files)
    ensures o.Ok? ==> (nuke <==> Mismatched(c, disk.files)) && (nuke <==> !Matches(c, disk.files))
  {
    MatchesIff(c, disk.files);
    o, nuke := Ok, false;
    for k := 0 to |c.tokens|
      invariant disk.files == old(disk.files) && !nuke
      invariant forall i :: 0 <= i < k && Sidecar(c.tokens[i].name) in disk.files
                            ==> disk.files[Sidecar(c.tokens[i].name)].data == c.tokens[i].value
    {
      var data: string;
      var found: bool;
      o, found, data := disk.ReadSidecar(c.tokens[k].name);
      if o.Crashed? { CrashTearsTemps(old(disk.files), disk.files); }
      if !o.Ok? { return; }
      if found && data != c.tokens[k].value { return Ok, true; }
    }
    o := Ok;
  }

  /** Empties this version's cache without touching a sidecar; what is not yet
      removed at any instant is as it was. */
  method NukeEntries(c: Config, disk: Disk) returns (o: Outcome)
    requires Tidy(disk.files)
    modifies disk
    ensures Tidy(disk.files) && Lessened(old(disk.files), disk.files) && OthersKept(c, old(disk.files), disk.files)
    ensures o.Ok? ==> NoCache(c, disk.files) && EntriesRoot in disk.files
    ensures o.Ok? ==> forall p :: p in disk.files && disk.files[p].Cached? ==>
              && !p.InEntries? && (p.InExtra? && p.dir != "" ==> p.dir !in c.extraDirs)
              && (p.ExtraFile? && p.name != "" ==> p.name !in c.extraFiles)
  {
    o := disk.RemoveAll(EntriesRoot);
    if !o.Ok? { return; }
    ghost var was := disk.files;
    o := disk.MkdirEntries();
    LessenedTwice(old(disk.files), was, disk.files);
    OthersKeptTwice(c, old(disk.files), was, disk.files);
    if !o.Ok? { return; }
    for k := 0 to |c.extraDirs|
      invariant Tidy(disk.files) && Lessened(old(disk.files), disk.files) && EntriesRoot in disk.files
      invariant OthersKept(c, old(disk.files), disk.files)
      invariant forall p :: p in disk.files && disk.files[p].Cached?
                            ==> !p.InEntries? && (p.InExtra? && p.dir != "" ==> p.dir !in c.extraDirs[..k])
    {
      if c.extraDirs[k] == "" { continue; }
      was := disk.files;
      o := disk.RemoveAll(ExtraRoot(c.extraDirs[k]));
      assert Kept(was, disk.files, EntriesRoot);
      LessenedTwice(old(disk.files), was, disk.files);
      OthersKeptTwice(c, old(disk.files), was, disk.files);
      if !o.Ok? { return; }
    }
    for k := 0 to |c.extraFiles|
      invariant Tidy(disk.files) && Lessened(old(disk.files), disk.files) && EntriesRoot in disk.files
      invariant OthersKept(c, old(disk.files), disk.files)
      invariant forall p :: p in disk.files && disk.files[p].Cached?
                            ==> !p.InEntries? && (p.InExtra? && p.dir != "" ==> p.dir !in c.extraDirs)
                                && (p.ExtraFile? && p.name != "" ==> p.name !in c.extraFiles[..k])
    {
      if c.extraFiles[k] == "" { continue; }
      was := disk.files;
      o := disk.RemoveExtraFile(c.extraFiles[k]);
      assert Kept(was, disk.files, EntriesRoot);
      LessenedTwice(old(disk.files), was, disk.files);
      OthersKeptTwice(c, old(disk.files), was, disk.files);
      if !o.Ok? { return; }
    }
    assert c.extraFiles[..|c.extraFiles|] == c.extraFiles;
    o := Ok;
  }

  /** The first `k` sidecars are written, the others as they were, and nothing else changed. */
  ghost predicate WrittenTo(c: Config, a: Files, b: Files, k: nat)
    requires k <= |c.tokens|
  {
    && Tidy(b) && SidecarsOnly(c, a, b)
    && (forall i :: 0 <= i < k ==> SidecarIs(b, c.tokens[i].name, c.tokens[i].value))
    && (forall i :: k <= i < |c.tokens| ==> Kept(a, b, Sidecar(c.tokens[i].name)))
  }

  lemma WritingNext(c: Config, first: Files, before: Files, after: Files, k: nat)
    requires WellFormed(c) && k < |c.tokens| && WrittenTo(c, first, before, k) && Tidy(after)
    requires forall p: Path :: !p.Temp? && p != Sidecar(c.tokens[k].name) ==> Kept(before, after, p)
    requires OldOrNew(before, after, c.tokens[k])
    ensures SidecarsOnly(c, first, after)
    ensures forall i :: 0 <= i < |c.tokens| ==> OldOrNew(first, after, c.tokens[i])
    ensures SidecarIs(after, c.tokens[k].name, c.tokens[k].value) ==> WrittenTo(c, first, after, k + 1)
  {
    assert c.tokens[k].name in Names(c);
    SidecarsOnlyTwice(c, first, before, after);
    forall i | 0 <= i < |c.tokens| && i != k ensures Kept(before, after, Sidecar(c.tokens[i].name)) {
      assert c.tokens[i].name != c.tokens[k].name;
    }
    assert Kept(first, before, Sidecar(c.tokens[k].name));
  }

  method WriteSidecars(c: Config, disk: Disk) returns (o: Outcome)
    requires WellFormed(c) && Tidy(disk.files)
    modifies disk
    ensures Tidy(disk.files)
    ensures SidecarsOnly(c, old(disk.files), disk.files)
    ensures forall i :: 0 <= i < |c.tokens| ==> OldOrNew(old(disk.files), disk.files, c.tokens[i])
    ensures o.Ok? ==> AllCurrent(c, disk.files)
  {
    for k := 0 to |c.tokens|
      invariant WrittenTo(c, old(disk.files), disk.files, k)
    {
      ghost var before := disk.files;
      o := disk.WriteFileAtomic(Sidecar(c.tokens[k].name), c.tokens[k].value);
      WritingNext(c, old(disk.files), before, disk.files, k);
      if !o.Ok? { return; }
    }
    o := Ok;
  }

  /** VersionedDir.Open. However it ends a safe disk stays safe, so a crash at any
      instant is harmless; when it succeeds every sidecar is current, the cache is
      emptied exactly on a mismatch, and from a safe disk everything still cached
      was written under the current values. */
  method Open(c: Config, disk: Disk) returns (o: Outcome)
    requires WellFormed(c) && Tidy(disk.files)
    modifies disk
    ensures Tidy(disk.files)
    ensures Safe(c, old(disk.files)) ==> Safe(c, disk.files)
    ensures o.Ok? ==> Opened(c, old(disk.files), disk.files)
    ensures o.Ok? ==> forall i :: 0 <= i < |c.tokens| ==>
              Sidecar(c.tokens[i].name) in disk.files
              && disk.files[Sidecar(c.tokens[i].name)] == File(c.tokens[i].value, true)
    ensures o.Ok? && Matches(c, old(disk.files)) ==>
              forall p: Path :: !p.Temp? && !p.Sidecar? && p != EntriesRoot ==>
                (p in disk.files <==> p in old(disk.files)) && (p in disk.files ==> disk.files[p] == old(disk.files)[p])
    ensures o.Ok? && !Matches(c, old(disk.files)) ==> forall p :: p in disk.files && disk.files[p].Cached? ==>
              && !p.InEntries? && (p.InExtra? && p.dir != "" ==> p.dir !in c.extraDirs)
              && (p.ExtraFile? && p.name != "" ==> p.name !in c.extraFiles)
    ensures o.Ok? && Safe(c, old(disk.files)) ==>
              forall p :: CachedAt(c, disk.files, p) ==> Fresh(c, disk.files[p].under)
    ensures CutShort(c, old(disk.files), disk.files)
    ensures forall i :: 0 <= i < |c.tokens| ==> OldOrNew(old(disk.files), disk.files, c.tokens[i])
  {
    ghost var before := disk.files;
    MatchesIff(c, before);
    var nuke: bool;
    o, nuke := PrepareOpen(c, disk);
    ShrinkKeepsSafe(c, before, disk.files);
    if !o.Ok? { return; }
    ghost var ready := disk.files;
    o := WriteSidecars(c, disk);
    assert ReadyThenWritten(c, before, ready, disk.files);
    if Safe(c, before) {
      if !nuke { NoMismatchMeansCurrent(c, ready); }
      SidecarsWritten(c, ready, disk.files);
    }
    forall i | 0 <= i < |c.tokens| ensures OldOrNew(before, disk.files, c.tokens[i]) {
      assert OldOrNew(ready, disk.files, c.tokens[i]) && Kept(before, ready, Sidecar(c.tokens[i].name));
    }
    if o.Ok? {
      OpenEnds(c, before, ready, disk.files);
      OpenedSays(c, before, disk.files);
      if Safe(c, before) {
        forall p | CachedAt(c, disk.files, p) ensures Fresh(c, disk.files[p].under) {
          CurrentMeansFresh(c, disk.files, p);
        }
      }
    }
  }

  /** Open up to the point where it writes the sidecars. */
  method PrepareOpen(c: Config, disk: Disk) returns (o: Outcome, nuke: bool)
    requires Tidy(disk.files)
    modifies disk
    ensures Tidy(disk.files) && Lessened(old(disk.files), disk.files) && OthersKept(c, old(disk.files), disk.files)
    ensures o.Ok? ==> EntriesRoot in disk.files
    ensures o.Ok? ==> (nuke <==> Mismatched(c, old(disk.files))) && (nuke <==> Mismatched(c, disk.files))
    ensures o.Ok? && nuke ==> NoCache(c, disk.files)
    ensures o.Ok? && !nuke ==>
              forall p: Path :: !p.Temp? && p != EntriesRoot ==> Kept(old(disk.files), disk.files, p)
  {
    nuke := false;
    o := disk.MkdirEntries();
    if !o.Ok? { return; }
    ghost var made := disk.files;
    SidecarsMatchAlike(c, old(disk.files), made);
    o, nuke := TokensMismatched(c, disk);
    LessenedTwice(old(disk.files), made, disk.files);
    OthersKeptTwice(c, old(disk.files), made, disk.files);
    if o.Ok? && nuke {
      o := NukeEntries(c, disk);
      LessenedTwice(old(disk.files), made, disk.files);
      OthersKeptTwice(c, old(disk.files), made, disk.files);
      SidecarsMatchAlike(c, made, disk.files);
    }
  }

  lemma SidecarsMatchAlike(c: Config, before: Files, made: Files)
    requires Tidy(before) && Tidy(made)
    requires SidecarsKept(before, made)
    ensures Mismatched(c, before) <==> Mismatched(c, made)
  {
    assert forall i :: 0 <= i < |c.tokens| ==> Kept(before, made, Sidecar(c.tokens[i].name));
  }

  /** The last stretch of Open: the sidecars are written over what it left. */
  lemma OpenEnds(c: Config, before: Files, ready: Files, after: Files)
    requires Tidy(before) && Tidy(ready) && Tidy(after) && SidecarsKept(before, ready)
    requires EntriesRoot in ready
    requires if Mismatched(c, before)
             then NoCache(c, ready) && CacheShrinks(before, ready) && OthersKept(c, before, ready)
             else forall p: Path :: !p.Temp? && p != EntriesRoot ==> Kept(before, ready, p)
    requires SidecarsOnly(c, ready, after)
    requires AllCurrent(c, after)
    ensures Opened(c, before, after)
  {
    assert Kept(ready, after, EntriesRoot);
    forall n | n !in Names(c) ensures Kept(before, after, Sidecar(n)) {
      assert Kept(before, ready, Sidecar(n)) && Kept(ready, after, Sidecar(n));
    }
    if Mismatched(c, before) {
      forall p | p in after && after[p].Cached? ensures p in ready && ready[p] == after[p] {
        assert Kept(ready, after, p);
      }
      forall p ensures !CachedAt(c, after, p) {
        assert !CachedAt(c, ready, p);
      }
      assert OthersKept(c, ready, after);
      OthersKeptTwice(c, before, ready, after);
    } else {
      forall p: Path | !p.Temp? && !p.Sidecar? && p != EntriesRoot ensures Kept(before, after, p) {
        assert Kept(before, ready, p) && Kept(ready, after, p);
      }
    }
  }

  lemma OpenedSays(c: Config, before: Files, after: Files)
    requires Tidy(before) && Opened(c, before, after)
    ensures forall i :: 0 <= i < |c.tokens| ==>
              Sidecar(c.tokens[i].name) in after && after[Sidecar(c.tokens[i].name)] == File(c.tokens[i].value, true)
    ensures !Mismatched(c, before) ==>
              forall p: Path :: !p.Temp? && !p.Sidecar? && p != EntriesRoot ==>
                (p in after <==> p in before) && (p in after ==> after[p] == before[p])
    ensures Mismatched(c, before) ==> forall p :: p in after && after[p].Cached? ==>
              && !p.InEntries? && (p.InExtra? && p.dir != "" ==> p.dir !in c.extraDirs)
              && (p.ExtraFile? && p.name != "" ==> p.name !in c.extraFiles)
  {
    forall i | 0 <= i < |c.tokens|
      ensures Sidecar(c.tokens[i].name) in after && after[Sidecar(c.tokens[i].name)] == File(c.tokens[i].value, true)
    {
      assert SidecarIs(after, c.tokens[i].name, c.tokens[i].value);
    }
    if Mismatched(c, before) {
      forall p | p in after && after[p].Cached?
        ensures !p.InEntries? && (p.InExtra? && p.dir != "" ==> p.dir !in c.extraDirs)
        ensures p.ExtraFile? && p.name != "" ==> p.name !in c.extraFiles
      {
        assert !CachedAt(c, after, p);
      }
    } else {
      assert forall p: Path :: !p.Temp? && !p.Sidecar? && p != EntriesRoot ==> Kept(before, after, p);
    }
  }

  // ---------------------------------------------------------------------
  // Caching
  // ---------------------------------------------------------------------

  /** The value of the token called `n`. */
  function ValueOf(tokens: seq<Token>, n: string): string {
    if tokens == [] then ""
    else if tokens[|tokens| - 1].name == n then tokens[|tokens| - 1].value
    else ValueOf(tokens[..|tokens| - 1], n)
  }

  lemma {:induction false} ValueOfEach(tokens: seq<Token>, i: nat)
    requires i < |tokens| && forall k, l :: 0 <= k < l < |tokens| ==> tokens[k].name != tokens[l].name
    ensures ValueOf(tokens, tokens[i].name) == tokens[i].value
  {
    if i < |tokens| - 1 {
      ValueOfEach(tokens[..|tokens| - 1], i);
    }
  }

  function ValuesFor(names: set<string>, c: Config): Values {
    map n | n in names :: ValueOf(c.tokens, n)
  }

  lemma AddingIsSafe(c: Config, fs: Files, place: Path)
    requires WellFormed(c) && CachePlace(c, place) && Safe(c, fs) && AllCurrent(c, fs)
    ensures var added := fs[place := Cached(ValuesFor(Names(c), c))];
            Safe(c, added) && AllCurrent(c, added)
  {
    var added := fs[place := Cached(ValuesFor(Names(c), c))];
    forall i | 0 <= i < |c.tokens| ensures SidecarIs(added, c.tokens[i].name, c.tokens[i].value) {
      assert SidecarIs(fs, c.tokens[i].name, c.tokens[i].value);
      ValueOfEach(c.tokens, i);
    }
    forall p | CachedAt(c, added, p) ensures Describes(c, added, added[p].under) {
      forall n | n in Names(c) ensures n in added[p].under && SidecarIs(added, n, added[p].under[n]) {
        var i :| 0 <= i < |c.tokens| && c.tokens[i].name == n;
        ValueOfEach(c.tokens, i);
        if p != place {
          assert CachedAt(c, fs, p);
          CurrentMeansFresh(c, fs, p);
        }
      }
    }
  }

  /** Caching something after an Open stamps it with that Open's values. */
  method Cache(c: Config, disk: Disk, place: Path) returns (o: Outcome)
    requires WellFormed(c) && CachePlace(c, place) && Tidy(disk.files)
    modifies disk
    ensures Tidy(disk.files)
    ensures Safe(c, old(disk.files)) && AllCurrent(c, old(disk.files)) ==>
              Safe(c, disk.files) && AllCurrent(c, disk.files)
    ensures forall p: Path :: !p.Temp? && p != place ==> Kept(old(disk.files), disk.files, p)
    ensures Kept(old(disk.files), disk.files, place)
            || (place in disk.files && disk.files[place] == Cached(ValuesFor(Names(c), c)))
    ensures o.Ok? ==> disk.files == old(disk.files)[place := Cached(ValuesFor(Names(c), c))]
    ensures o.Failed? ==> disk.files == old(disk.files)
  {
    var names := set i | 0 <= i < |c.tokens| :: c.tokens[i].name;
    var node := Cached(ValuesFor(names, c));
    ghost var before := disk.files;
    if Safe(c, before) && AllCurrent(c, before) { AddingIsSafe(c, before, place); }
    o := disk.Put(place, node);
    if o.Crashed? {
      ghost var from := if Torn(before, disk.files) then before else before[place := node];
      CrashTearsTemps(from, disk.files);
      assert Kept(from, disk.files, place);
      if Safe(c, before) && AllCurrent(c, before) {
        CrashKeepsSafe(c, from, disk.files);
        forall i | 0 <= i < |c.tokens| ensures SidecarIs(disk.files, c.tokens[i].name, c.tokens[i].value) {
          assert SidecarIs(from, c.tokens[i].name, c.tokens[i].value);
          assert Kept(from, disk.files, Sidecar(c.tokens[i].name));
        }
      }
    }
  }
}
