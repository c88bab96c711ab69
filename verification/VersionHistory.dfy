/** Versions of a program that share one versioned directory.

    Each session opens the directory with its own tokens and extras and may then
    cache things or clear the root; any session may fail or crash anywhere. A
    history is safe if at its end nothing stale can be mistaken for current.
 */
module VersionHistory {
  import opened VersionedDir

  // ---------------------------------------------------------------------
  // Runs
  // ---------------------------------------------------------------------

  /** What a session makes of the disk its Open left: it caches, or clears the root. */
  ghost predicate Used(c: Config, made: Files, after: Files) {
    || after == map[]
    || (&& Tidy(after) && SidecarsKept(made, after)
        && forall p :: p in after && after[p].Cached? ==>
             || (p in made && made[p] == after[p])
             || (CachePlace(c, p) && after[p].under == ValuesFor(Names(c), c)))
  }

  ghost predicate OpenedThenUsed(c: Config, before: Files, made: Files, after: Files)
    requires Tidy(before)
  {
    Opened(c, before, made) && Used(c, made, after)
  }

  ghost predicate SessionRuns(c: Config, before: Files, after: Files)
    requires Tidy(before)
  {
    CutShort(c, before, after) || exists made :: OpenedThenUsed(c, before, made, after)
  }

  /** The disk can be `fs` after these sessions, the first of which found it empty. */
  ghost predicate Ran(cs: seq<Config>, fs: Files)
    decreases |cs|, 1
  {
    if cs == [] then fs == map[]
    else exists before :: RanTo(cs, before, fs)
  }

  ghost predicate RanTo(cs: seq<Config>, before: Files, fs: Files)
    requires cs != []
    decreases |cs|, 0
  {
    Tidy(before) && Ran(cs[..|cs| - 1], before) && SessionRuns(cs[|cs| - 1], before, fs)
  }

  /** One run of the program: its token values and what it would like to cache. */
  datatype Session = Session(config: Config, places: seq<Path>, clears: bool)

  ghost function Configs(sessions: seq<Session>): seq<Config> {
    seq(|sessions|, k requires 0 <= k < |sessions| => sessions[k].config)
  }

  lemma NextSession(cs: seq<Config>, c: Config, before: Files, after: Files)
    requires Tidy(before) && Ran(cs, before) && SessionRuns(c, before, after)
    ensures Ran(cs + [c], after)
  {
    assert (cs + [c])[..|cs|] == cs;
    assert RanTo(cs + [c], before, after);
  }

  /** After an Open that did not complete nothing is cached; after one that did the
      session caches its things until a call fails, and may clear the root. */
  method RunSession(session: Session, disk: Disk)
    requires WellFormed(session.config) && Tidy(disk.files)
    requires forall j :: 0 <= j < |session.places| ==> CachePlace(session.config, session.places[j])
    modifies disk
    ensures Tidy(disk.files) && SessionRuns(session.config, old(disk.files), disk.files)
  {
    var c := session.config;
    ghost var before := disk.files;
    var o := Open(c, disk);
    if !o.Ok? { return; }
    ghost var made := disk.files;
    var j := 0;
    while j < |session.places| && o.Ok?
      invariant Tidy(disk.files) && Used(c, made, disk.files) && SidecarsKept(made, disk.files)
    {
      ghost var was := disk.files;
      o := Cache(c, disk, session.places[j]);
      CachingIsUse(c, made, was, disk.files, session.places[j]);
      j := j + 1;
    }
    if session.clears && o.Ok? {
      disk.files := map[];
    }
    assert OpenedThenUsed(c, before, made, disk.files);
  }

  lemma CachingIsUse(c: Config, made: Files, was: Files, now: Files, place: Path)
    requires Used(c, made, was) && SidecarsKept(made, was) && Tidy(now) && CachePlace(c, place)
    requires forall p: Path :: !p.Temp? && p != place ==> Kept(was, now, p)
    requires Kept(was, now, place) || (place in now && now[place] == Cached(ValuesFor(Names(c), c)))
    ensures Used(c, made, now) && SidecarsKept(made, now)
  {
    forall n ensures Kept(made, now, Sidecar(n)) {
      assert Kept(made, was, Sidecar(n)) && Kept(was, now, Sidecar(n));
    }
    forall p | p in now && now[p].Cached?
      ensures (p in made && made[p] == now[p]) || (CachePlace(c, p) && now[p].under == ValuesFor(Names(c), c))
    {
      assert p != place ==> Kept(was, now, p);
    }
  }

  /** Any sessions over one disk are a run; an orderly one leaves the disk safe for
      the version that ran last. */
  method History(sessions: seq<Session>, disk: Disk)
    requires disk.files == map[] && sessions != []
    requires forall k :: 0 <= k < |sessions| ==> WellFormed(sessions[k].config)
    requires forall k, j :: 0 <= k < |sessions| && 0 <= j < |sessions[k].places|
                            ==> CachePlace(sessions[k].config, sessions[k].places[j])
    modifies disk
    ensures Ran(Configs(sessions), disk.files)
    ensures Orderly(Configs(sessions)) ==> Safe(sessions[|sessions| - 1].config, disk.files)
  {
    ghost var cs := Configs(sessions);
    assert cs[..0] == [];
    for k := 0 to |sessions|
      invariant Tidy(disk.files) && Ran(cs[..k], disk.files)
    {
      ghost var before := disk.files;
      RunSession(sessions[k], disk);
      NextSession(cs[..k], cs[k], before, disk.files);
      assert cs[..k + 1] == cs[..k] + [cs[k]];
    }
    assert cs[..|cs|] == cs;
    if Orderly(cs) { OrderlyIsSafe(cs, disk.files); }
  }

  // ---------------------------------------------------------------------
  // Orderly histories are safe
  // ---------------------------------------------------------------------

  /** The last version has no token that an earlier one lacked, and no extra that
      was dropped in between; without tokens nothing can be stale. */
  ghost predicate Orderly(ls: seq<Config>)
    requires ls != []
  {
    var last := ls[|ls| - 1];
    || Names(last) == {}
    || (&& (forall j :: 0 <= j < |ls| ==> Names(last) <= Names(ls[j]))
        && (forall j, k, p :: 0 <= j < k < |ls| && CachePlace(ls[j], p) && CachePlace(last, p) ==>
              CachePlace(ls[k], p)))
  }

  /** What is cached for version `t` is within the reach of `c`. */
  ghost predicate Carries(c: Config, t: Config, fs: Files) {
    Names(t) <= Names(c) && forall p :: CachedAt(t, fs, p) ==> CachePlace(c, p)
  }

  lemma MatchingValue(c: Config, fs: Files, n: string, value: string) returns (i: nat)
    requires Tidy(fs) && !Mismatched(c, fs) && n in Names(c) && SidecarIs(fs, n, value)
    ensures i < |c.tokens| && c.tokens[i] == Token(n, value)
  {
    i :| 0 <= i < |c.tokens| && c.tokens[i].name == n;
  }

  lemma CutShortKeepsSafe(c: Config, t: Config, before: Files, after: Files)
    requires Safe(t, before) && Carries(c, t, before) && CutShort(c, before, after)
    ensures Safe(t, after)
  {
    if Lessened(before, after) {
      ShrinkKeepsSafe(t, before, after);
    } else {
      var ready :| ReadyThenWritten(c, before, ready, after);
      ShrinkKeepsSafe(t, before, ready);
      forall p | CachedAt(t, after, p) ensures Describes(t, after, after[p].under) {
        assert Kept(ready, after, p) && CachedAt(t, ready, p) && CachedAt(t, before, p) && CachePlace(c, p);
        assert !Mismatched(c, before) by { if Mismatched(c, before) { assert CachedAt(c, ready, p); } }
        forall n | n in Names(t) ensures n in after[p].under && SidecarIs(after, n, after[p].under[n]) {
          var i := MatchingValue(c, before, n, before[p].under[n]);
          assert Kept(before, ready, Sidecar(n)) && OldOrNew(ready, after, c.tokens[i]);
        }
      }
    }
  }

  lemma OpenedKeepsSafe(c: Config, t: Config, before: Files, after: Files)
    requires Safe(t, before) && Carries(c, t, before) && Opened(c, before, after)
    ensures Safe(t, after) && Carries(c, t, after)
  {
    forall p | CachedAt(t, after, p) ensures Describes(t, after, after[p].under) && CachePlace(c, p) {
      if Mismatched(c, before) {
        assert CachedAt(t, before, p) && CachedAt(c, after, p);
        assert false;
      }
      assert Kept(before, after, p) && CachedAt(t, before, p);
      forall n | n in Names(t) ensures n in after[p].under && SidecarIs(after, n, after[p].under[n]) {
        var i := MatchingValue(c, before, n, before[p].under[n]);
        assert SidecarIs(after, n, c.tokens[i].value);
      }
    }
  }

  lemma UseKeepsSafe(c: Config, t: Config, made: Files, after: Files)
    requires WellFormed(c) && AllCurrent(c, made) && Safe(t, made) && Names(t) <= Names(c) && Used(c, made, after)
    ensures Safe(t, after)
  {
    forall p | CachedAt(t, after, p) ensures Describes(t, after, after[p].under) {
      forall n | n in Names(t) ensures n in after[p].under && SidecarIs(after, n, after[p].under[n]) {
        assert Kept(made, after, Sidecar(n));
        if p in made && made[p] == after[p] {
          assert CachedAt(t, made, p);
        } else {
          var i :| 0 <= i < |c.tokens| && c.tokens[i].name == n;
          ValueOfEach(c.tokens, i);
          assert SidecarIs(made, n, c.tokens[i].value);
        }
      }
    }
  }

  lemma SessionKeepsSafe(c: Config, t: Config, before: Files, after: Files)
    requires WellFormed(c) && Safe(t, before) && Carries(c, t, before) && SessionRuns(c, before, after)
    ensures Safe(t, after)
  {
    if CutShort(c, before, after) {
      CutShortKeepsSafe(c, t, before, after);
    } else {
      var made :| OpenedThenUsed(c, before, made, after);
      OpenedKeepsSafe(c, t, before, made);
      UseKeepsSafe(c, t, made, after);
    }
  }

  /** Everything cached lies where one of these versions caches. */
  ghost predicate Placed(cs: seq<Config>, fs: Files) {
    forall p :: p in fs && fs[p].Cached? ==> exists j :: 0 <= j < |cs| && CachePlace(cs[j], p)
  }

  lemma CutShortShrinks(c: Config, before: Files, after: Files)
    requires Tidy(before) && CutShort(c, before, after)
    ensures CacheShrinks(before, after)
  {
    if !Lessened(before, after) {
      var ready :| ReadyThenWritten(c, before, ready, after);
      forall p | p in after && after[p].Cached? ensures p in before && before[p] == after[p] {
        assert Kept(ready, after, p);
      }
    }
  }

  lemma OpenedShrinks(c: Config, before: Files, after: Files)
    requires Tidy(before) && Opened(c, before, after)
    ensures CacheShrinks(before, after)
  {
    if !Mismatched(c, before) {
      forall p | p in after && after[p].Cached? ensures p in before && before[p] == after[p] {
        assert Kept(before, after, p);
      }
    }
  }

  lemma SessionPlaces(cs: seq<Config>, c: Config, before: Files, after: Files)
    requires Tidy(before) && Placed(cs, before) && SessionRuns(c, before, after)
    ensures Tidy(after) && Placed(cs + [c], after)
  {
    forall p | p in after && after[p].Cached? ensures exists j :: 0 <= j < |cs + [c]| && CachePlace((cs + [c])[j], p) {
      if p in before && before[p].Cached? {
        var j :| 0 <= j < |cs| && CachePlace(cs[j], p);
        assert CachePlace((cs + [c])[j], p);
      } else {
        OnlyThisVersionCaches(c, before, after, p);
        assert CachePlace((cs + [c])[|cs|], p);
      }
    }
  }

  lemma OnlyThisVersionCaches(c: Config, before: Files, after: Files, p: Path)
    requires Tidy(before) && SessionRuns(c, before, after) && p in after && after[p].Cached?
    ensures (p in before && before[p].Cached?) || CachePlace(c, p)
  {
    if CutShort(c, before, after) {
      CutShortShrinks(c, before, after);
    } else {
      var made :| OpenedThenUsed(c, before, made, after);
      OpenedShrinks(c, before, made);
    }
  }

  /** Through all sessions of an orderly history the disk is safe for its last version. */
  lemma {:induction false} SafeForTheLast(cs: seq<Config>, i: nat, fs: Files)
    requires cs != [] && Orderly(cs) && (forall k :: 0 <= k < |cs| ==> WellFormed(cs[k]))
    requires i <= |cs| && Ran(cs[..i], fs)
    ensures Safe(cs[|cs| - 1], fs) && Placed(cs[..i], fs)
  {
    if 0 < i {
      assert cs[..i][..i - 1] == cs[..i - 1] && cs[..i][i - 1] == cs[i - 1];
      var before :| RanTo(cs[..i], before, fs);
      SafeForTheLast(cs, i - 1, before);
      var c, t := cs[i - 1], cs[|cs| - 1];
      assert cs[..i] == cs[..i - 1] + [c];
      SessionPlaces(cs[..i - 1], c, before, fs);
      if Names(t) != {} {
        forall p | CachedAt(t, before, p) ensures CachePlace(c, p) {
          var j :| 0 <= j < |cs[..i - 1]| && CachePlace(cs[..i - 1][j], p);
          assert CachePlace(cs[j], p);
        }
        SessionKeepsSafe(c, t, before, fs);
      }
    }
  }

  lemma OrderlyIsSafe(cs: seq<Config>, fs: Files)
    requires cs != [] && Orderly(cs) && (forall k :: 0 <= k < |cs| ==> WellFormed(cs[k])) && Ran(cs, fs)
    ensures Safe(cs[|cs| - 1], fs)
  {
    assert cs[..|cs|] == cs;
    SafeForTheLast(cs, |cs|, fs);
  }

  // ---------------------------------------------------------------------
  // Disorderly histories can go wrong
  // ---------------------------------------------------------------------

  /** The same names and extras, whatever the values. */
  ghost predicate SameLayout(a: Config, b: Config) {
    Names(a) == Names(b) && a.extraDirs == b.extraDirs && a.extraFiles == b.extraFiles
  }

  /** Versions with these layouts. */
  ghost predicate Fits(cs: seq<Config>, ls: seq<Config>) {
    |cs| == |ls| && forall k :: 0 <= k < |ls| ==> WellFormed(cs[k]) && SameLayout(cs[k], ls[k])
  }

  /** However the values change from version to version and whatever the sessions
      do, the disk ends up safe for the last. */
  ghost predicate AlwaysSafe(ls: seq<Config>)
    requires ls != []
  {
    forall cs, fs :: Fits(cs, ls) && Ran(cs, fs) ==> Safe(cs[|cs| - 1], fs)
  }

  lemma OrderlyAlike(cs: seq<Config>, ls: seq<Config>)
    requires ls != [] && Fits(cs, ls) && Orderly(ls)
    ensures Orderly(cs)
  {
    assert forall k :: 0 <= k < |ls| ==> SameLayout(cs[k], ls[k]);
    assert forall k, p :: 0 <= k < |ls| ==> (CachePlace(cs[k], p) <==> CachePlace(ls[k], p));
  }

  /** The counterexample: every token keeps the value "1" but for `m`, which is "2"
      from session `k` on; session `j` caches something at `p` and nobody else
      caches anything. */
  datatype Plot = Plot(ls: seq<Config>, m: string, j: nat, k: nat, p: Path)

  ghost predicate Works(x: Plot) {
    && x.j < x.k && x.j < |x.ls| && CachePlace(x.ls[x.j], x.p)
    && (forall i :: 0 <= i < |x.ls| ==> WellFormed(x.ls[i]))
    && (x.k < |x.ls| ==> x.m in Names(x.ls[x.k]) && !CachePlace(x.ls[x.k], x.p))
  }

  function Value(x: Plot, i: int, n: string): string {
    if n == x.m && x.k <= i then "2" else "1"
  }

  /** `c` is the version of session `i`. */
  ghost predicate IsVersion(c: Config, x: Plot, i: nat)
    requires i < |x.ls|
  {
    && WellFormed(c) && SameLayout(c, x.ls[i])
    && forall t :: 0 <= t < |c.tokens| ==> c.tokens[t].value == Value(x, i, c.tokens[t].name)
  }

  lemma MakeVersion(x: Plot, i: nat) returns (c: Config)
    requires Works(x) && i < |x.ls|
    ensures IsVersion(c, x, i)
  {
    var l := x.ls[i];
    var tokens := seq(|l.tokens|, t requires 0 <= t < |l.tokens| =>
                        Token(l.tokens[t].name, Value(x, i, l.tokens[t].name)));
    c := Config(tokens, l.extraDirs, l.extraFiles);
    assert forall t :: 0 <= t < |l.tokens| ==> c.tokens[t].name == l.tokens[t].name;
  }

  /** The names of the sidecars the first `i` sessions have written. */
  ghost function Seen(ls: seq<Config>, i: nat): set<string>
    requires i <= |ls|
  {
    if i == 0 then {} else Seen(ls, i - 1) + Names(ls[i - 1])
  }

  ghost function Stamp(x: Plot): Values
    requires x.j < |x.ls|
  {
    map n | n in Names(x.ls[x.j]) :: Value(x, x.j, n)
  }

  /** The disk with the sidecars of `seen` as session `i` leaves them. */
  ghost predicate Holds(fs: Files, x: Plot, seen: set<string>, i: int, rooted: bool, cached: bool)
    requires x.j < |x.ls|
  {
    && (forall q :: q in fs <==>
          (q.Sidecar? && q.name in seen) || (q == EntriesRoot && rooted) || (q == x.p && cached))
    && (forall n :: n in seen ==> fs[Sidecar(n)] == File(Value(x, i, n), true))
    && (rooted ==> fs[EntriesRoot] == Dir)
    && (cached ==> fs[x.p] == Cached(Stamp(x)))
  }

  lemma Build(x: Plot, seen: set<string>, i: int, rooted: bool, cached: bool) returns (fs: Files)
    requires Works(x)
    ensures Holds(fs, x, seen, i, rooted, cached) && Tidy(fs)
  {
    fs := (map q | q in (set n | n in seen :: Sidecar(n)) :: File(Value(x, i, q.name), true))
          + (if rooted then map[EntriesRoot := Dir] else map[])
          + (if cached then map[x.p := Cached(Stamp(x))] else map[]);
  }

  /** The disk after the first `i` sessions. */
  ghost predicate DiskAfter(fs: Files, x: Plot, i: nat)
    requires x.j < |x.ls| && i <= |x.ls|
  {
    Tidy(fs) && Holds(fs, x, Seen(x.ls, i), i - 1, 0 < i, x.j < i)
  }

  /** The disk as session `i` has opened it. */
  ghost predicate DiskOpened(fs: Files, x: Plot, i: nat)
    requires x.j < |x.ls| && i < |x.ls|
  {
    Tidy(fs) && Holds(fs, x, Seen(x.ls, i + 1), i, true, x.j < i)
  }

  /** Only session `k` meets a sidecar that differs from its token. */
  lemma MismatchesAt(x: Plot, i: nat, c: Config, fs: Files)
    requires Works(x) && i < |x.ls| && IsVersion(c, x, i) && DiskAfter(fs, x, i)
    requires Mismatched(c, fs)
    ensures i == x.k
  {
    var t :| 0 <= t < |c.tokens| && Sidecar(c.tokens[t].name) in fs
             && fs[Sidecar(c.tokens[t].name)].data != c.tokens[t].value;
    assert Value(x, i - 1, c.tokens[t].name) != Value(x, i, c.tokens[t].name);
  }

  lemma BecomesCurrent(x: Plot, i: nat, c: Config, fs: Files)
    requires Works(x) && i < |x.ls| && IsVersion(c, x, i) && DiskOpened(fs, x, i)
    ensures AllCurrent(c, fs)
  {
    forall t | 0 <= t < |c.tokens| ensures SidecarIs(fs, c.tokens[t].name, c.tokens[t].value) {
      assert c.tokens[t].name in Names(c);
    }
  }

  lemma SidecarsLeft(x: Plot, i: nat, before: Files, after: Files, n: string)
    requires Works(x) && i < |x.ls| && n !in Names(x.ls[i]) && DiskAfter(before, x, i) && DiskOpened(after, x, i)
    ensures Kept(before, after, Sidecar(n))
  {
    assert n in Seen(x.ls, i) <==> n in Seen(x.ls, i + 1);
  }

  lemma CacheLeft(x: Plot, i: nat, before: Files, after: Files)
    requires Works(x) && i < |x.ls| && DiskAfter(before, x, i) && DiskOpened(after, x, i)
    ensures forall p: Path :: !p.Temp? && !p.Sidecar? && p != EntriesRoot ==> Kept(before, after, p)
    ensures CacheShrinks(before, after)
  {
  }

  lemma Opens(x: Plot, i: nat, c: Config, before: Files, after: Files)
    requires Works(x) && i < |x.ls| && IsVersion(c, x, i) && DiskAfter(before, x, i) && DiskOpened(after, x, i)
    ensures Opened(c, before, after)
  {
    BecomesCurrent(x, i, c, after);
    CacheLeft(x, i, before, after);
    forall n | n !in Names(c) ensures Kept(before, after, Sidecar(n)) {
      SidecarsLeft(x, i, before, after, n);
    }
    if Mismatched(c, before) {
      MismatchesAt(x, i, c, before);
      assert forall p :: !CachedAt(c, after, p);
    }
  }

  lemma Uses(x: Plot, i: nat, c: Config, made: Files, after: Files)
    requires Works(x) && i < |x.ls| && IsVersion(c, x, i) && DiskOpened(made, x, i) && DiskAfter(after, x, i + 1)
    ensures Used(c, made, after)
  {
    if i == x.j { StampIs(x, c); }
  }

  lemma SessionHappens(x: Plot, i: nat, c: Config, before: Files) returns (after: Files)
    requires Works(x) && i < |x.ls| && IsVersion(c, x, i) && DiskAfter(before, x, i)
    ensures DiskAfter(after, x, i + 1) && SessionRuns(c, before, after)
  {
    var made := Build(x, Seen(x.ls, i + 1), i, true, x.j < i);
    after := Build(x, Seen(x.ls, i + 1), i, true, x.j < i + 1);
    Opens(x, i, c, before, made);
    Uses(x, i, c, made, after);
    assert OpenedThenUsed(c, before, made, after);
  }

  lemma StampIs(x: Plot, c: Config)
    requires Works(x) && IsVersion(c, x, x.j)
    ensures Stamp(x) == ValuesFor(Names(c), c)
  {
    forall n | n in Names(c) ensures Value(x, x.j, n) == ValueOf(c.tokens, n) {
      var t :| 0 <= t < |c.tokens| && c.tokens[t].name == n;
      ValueOfEach(c.tokens, t);
    }
  }

  ghost predicate AreVersions(cs: seq<Config>, x: Plot) {
    |cs| <= |x.ls| && forall k :: 0 <= k < |cs| ==> IsVersion(cs[k], x, k)
  }

  lemma VersionJoins(cs: seq<Config>, c: Config, x: Plot)
    requires AreVersions(cs, x) && |cs| < |x.ls| && IsVersion(c, x, |cs|)
    ensures AreVersions(cs + [c], x)
  {
  }

  lemma SessionJoins(x: Plot, earlier: seq<Config>, before: Files) returns (cs: seq<Config>, fs: Files)
    requires Works(x) && AreVersions(earlier, x) && |earlier| < |x.ls|
    requires Ran(earlier, before) && DiskAfter(before, x, |earlier|)
    ensures |cs| == |earlier| + 1 && AreVersions(cs, x) && Ran(cs, fs) && DiskAfter(fs, x, |cs|)
  {
    var c := MakeVersion(x, |earlier|);
    fs := SessionHappens(x, |earlier|, c, before);
    NextSession(earlier, c, before, fs);
    VersionJoins(earlier, c, x);
    cs := earlier + [c];
  }

  lemma PlotRuns(x: Plot) returns (cs: seq<Config>, fs: Files)
    requires Works(x)
    ensures |cs| == |x.ls| && AreVersions(cs, x) && Ran(cs, fs) && DiskAfter(fs, x, |x.ls|)
  {
    cs, fs := [], map[];
    while |cs| < |x.ls|
      invariant |cs| <= |x.ls| && AreVersions(cs, x) && Ran(cs, fs) && DiskAfter(fs, x, |cs|)
      decreases |x.ls| - |cs|
    {
      cs, fs := SessionJoins(x, cs, fs);
    }
  }

  /** In the end what session `j` cached is stale: its stamp lacks `m` or has the old value. */
  lemma HoldsStale(x: Plot, c: Config, fs: Files, seen: set<string>)
    requires Works(x) && x.m in Names(c) && x.m in seen && CachePlace(c, x.p)
    requires Holds(fs, x, seen, |x.ls| - 1, true, true)
    requires x.m !in Names(x.ls[x.j]) || x.k < |x.ls|
    ensures !Safe(c, fs)
  {
    assert CachedAt(c, fs, x.p);
    assert !Describes(c, fs, Stamp(x));
  }

  /** A history that is not orderly has one of the two plots. */
  lemma PlotExists(ls: seq<Config>) returns (x: Plot)
    requires ls != [] && !Orderly(ls) && forall i :: 0 <= i < |ls| ==> WellFormed(ls[i])
    ensures x.ls == ls && Works(x)
    ensures CachePlace(ls[|ls| - 1], x.p) && x.m in Names(ls[|ls| - 1])
    ensures x.m !in Names(ls[x.j]) || x.k < |ls|
  {
    var last := ls[|ls| - 1];
    if j, m :| 0 <= j < |ls| && m in Names(last) && m !in Names(ls[j]) {
      x := Plot(ls, m, j, |ls|, InEntries(""));
    } else {
      var j, k, p :| 0 <= j < k < |ls| && CachePlace(ls[j], p) && CachePlace(last, p) && !CachePlace(ls[k], p);
      var m :| m in Names(last);
      assert m in Names(ls[k]);
      x := Plot(ls, m, j, k, p);
    }
  }

  lemma VersionsFit(cs: seq<Config>, x: Plot)
    requires AreVersions(cs, x) && |cs| == |x.ls|
    ensures Fits(cs, x.ls)
  {
  }

  lemma EndsStale(x: Plot, cs: seq<Config>, fs: Files)
    requires Works(x) && AreVersions(cs, x) && |cs| == |x.ls| && DiskAfter(fs, x, |x.ls|)
    requires CachePlace(x.ls[|x.ls| - 1], x.p) && x.m in Names(x.ls[|x.ls| - 1])
    requires x.m !in Names(x.ls[x.j]) || x.k < |x.ls|
    ensures !Safe(cs[|cs| - 1], fs)
  {
    var c := cs[|cs| - 1];
    assert IsVersion(c, x, |x.ls| - 1);
    HoldsStale(x, c, fs, Seen(x.ls, |x.ls|));
  }

  lemma PlotSucceeds(x: Plot) returns (cs: seq<Config>, fs: Files)
    requires Works(x) && CachePlace(x.ls[|x.ls| - 1], x.p) && x.m in Names(x.ls[|x.ls| - 1])
    requires x.m !in Names(x.ls[x.j]) || x.k < |x.ls|
    ensures Fits(cs, x.ls) && Ran(cs, fs) && !Safe(cs[|cs| - 1], fs)
  {
    cs, fs := PlotRuns(x);
    VersionsFit(cs, x);
    EndsStale(x, cs, fs);
  }

  /** For every disorderly history there are values and sessions with which it goes wrong. */
  lemma DisorderlyEndsUnsafe(ls: seq<Config>) returns (cs: seq<Config>, fs: Files)
    requires ls != [] && !Orderly(ls) && forall i :: 0 <= i < |ls| ==> WellFormed(ls[i])
    ensures Fits(cs, ls) && Ran(cs, fs) && !Safe(cs[|cs| - 1], fs)
  {
    var x := PlotExists(ls);
    cs, fs := PlotSucceeds(x);
  }

  lemma OrderlyIsAlwaysSafe(ls: seq<Config>)
    requires ls != [] && Orderly(ls)
    ensures AlwaysSafe(ls)
  {
    forall cs, fs | Fits(cs, ls) && Ran(cs, fs) ensures Safe(cs[|cs| - 1], fs) {
      OrderlyAlike(cs, ls);
      OrderlyIsSafe(cs, fs);
    }
  }

  /** Whatever the values and the sessions, a history of versions with these layouts
      ends safe exactly when it is orderly: the last version has no token that an
      earlier one lacked, and no extra that was dropped in between. */
  lemma AlwaysSafeIff(ls: seq<Config>)
    requires ls != [] && forall i :: 0 <= i < |ls| ==> WellFormed(ls[i])
    ensures AlwaysSafe(ls) <==> Orderly(ls)
  {
    if Orderly(ls) {
      OrderlyIsAlwaysSafe(ls);
    } else {
      var cs, fs := DisorderlyEndsUnsafe(ls);
    }
  }

  /** With two versions only new tokens matter. */
  lemma TwoVersionsOrderlyIff(a: Config, b: Config)
    ensures Orderly([a, b]) <==> Names(b) <= Names(a)
  {
    assert [a, b][0] == a && [a, b][1] == b;
  }

  /** A token added: nothing mismatches, nothing is removed, and what was cached
      without it passes for current. */
  lemma AddedTokenIsUnsafe()
    ensures !AlwaysSafe([Config([Token("v", "1")], [], []), Config([Token("v", "1"), Token("g", "1")], [], [])])
  {
    var a, b := Config([Token("v", "1")], [], []), Config([Token("v", "1"), Token("g", "1")], [], []);
    assert b.tokens[1].name == "g" && "g" in Names(b) && "g" !in Names(a);
    TwoVersionsOrderlyIff(a, b);
    AlwaysSafeIff([a, b]);
  }

  /** An extra file or directory dropped and taken up again: the version without it
      lets the token move on and leaves what the first had cached there. */
  lemma ResumedExtraIsUnsafe()
    ensures var token := Token("n", "1");
            var without := Config([token], [], []);
            && !AlwaysSafe([Config([token], [], ["x"]), without, Config([token], [], ["x"])])
            && !AlwaysSafe([Config([token], ["x"], []), without, Config([token], ["x"], [])])
  {
    ResumedIsUnsafe(Config([Token("n", "1")], [], ["x"]), ExtraFile("x"));
    ResumedIsUnsafe(Config([Token("n", "1")], ["x"], []), InExtra("x", "e"));
  }

  lemma ResumedIsUnsafe(with: Config, place: Path)
    requires with.tokens == [Token("n", "1")] && CachePlace(with, place) && !place.InEntries?
    ensures !AlwaysSafe([with, Config(with.tokens, [], []), with])
  {
    var ls := [with, Config(with.tokens, [], []), with];
    assert with.tokens[0].name in Names(with);
    assert CachePlace(ls[0], place) && CachePlace(ls[2], place) && !CachePlace(ls[1], place);
    AlwaysSafeIff(ls);
  }
}
