/** internal/vfs: the in-memory filesystem.

    A cleaned path is an absolute flag and its components; `Render` is the string
    the source keeps as map key. "." and "/" are the paths without components.
 */
module VFS {
  import opened Options
  import opened Sorting

  /** A path component: not empty, not ".", without a separator. */
  type Name = s: string | s != "" && s != "." && '/' !in s witness "a"

  datatype Path = Path(abs: bool, comps: seq<Name>)

  datatype Entry = Entry(dir: bool, data: string, perm: nat, modTime: int)

  type Tree = map<Path, Entry>

  datatype Error = IsDirectory | NotDirectory | NotExist | NotEmpty

  datatype Result<T> = Ok(value: T) | Err(error: Error)

  const DOT := Path(false, [])

  predicate IsRoot(p: Path) { p.comps == [] }

  function Parent(p: Path): Path {
    if IsRoot(p) then p else Path(p.abs, p.comps[..|p.comps| - 1])
  }

  function Ancestor(p: Path, n: nat): Path
    requires n <= |p.comps|
  {
    Path(p.abs, p.comps[..n])
  }

  function Child(d: Path, name: Name): Path {
    Path(d.abs, d.comps + [name])
  }

  /** `q` lies strictly below `d`. */
  predicate Below(q: Path, d: Path) {
    q.abs == d.abs && d.comps < q.comps
  }

  // ---------------------------------------------------------------------
  // Paths as strings
  // ---------------------------------------------------------------------

  function Join(comps: seq<Name>): string {
    if comps == [] then ""
    else if |comps| == 1 then comps[0]
    else comps[0] + "/" + Join(comps[1..])
  }

  function Render(p: Path): string {
    if p.abs then "/" + Join(p.comps) else if p.comps == [] then "." else Join(p.comps)
  }

  function UpToSlash(s: string): string {
    if s == "" || s[0] == '/' then "" else [s[0]] + UpToSlash(s[1..])
  }

  /** relativeChild, on strings as in the source. */
  function RelativeChildOf(p: string, prefix: string): Option<string> {
    if prefix != "" && !(prefix <= p) then None
    else
      var rel := UpToSlash(p[|prefix|..]);
      if rel == "" then None else Some(rel)
  }

  /** The prefix ReadDir and Remove look for. */
  function PrefixOf(d: Path): string {
    if d == DOT then "" else Render(d) + "/"
  }

  /** What relativeChild means on components. */
  function RelativeChild(q: Path, d: Path): Option<string> {
    if Below(q, d) then Some(q.comps[|d.comps|]) else None
  }

  lemma {:induction false} UpToSlashStops(a: string, rest: string)
    requires '/' !in a && (rest == "" || rest[0] == '/')
    ensures UpToSlash(a + rest) == a
  {
    if a != "" {
      assert (a + rest)[1..] == a[1..] + rest;
      UpToSlashStops(a[1..], rest);
    } else {
      assert a + rest == rest;
    }
  }

  lemma PrefixCancels(pre: string, a: string, b: string)
    ensures pre + a <= pre + b <==> a <= b
  {
    if pre + a <= pre + b {
      assert a == (pre + a)[|pre|..] && b == (pre + b)[|pre|..];
      assert forall i :: 0 <= i < |a| ==> a[i] == (pre + a)[|pre| + i] == (pre + b)[|pre| + i] == b[i];
    }
  }

  lemma {:induction false} UpToSlashOfPrefix(s: string, t: string)
    requires s <= t && '/' in s
    ensures UpToSlash(s) == UpToSlash(t)
  {
    if s[0] != '/' {
      assert s == [s[0]] + s[1..];
      UpToSlashOfPrefix(s[1..], t[1..]);
    }
  }

  /** Two names followed by a separator or nothing agree only if they are equal. */
  lemma NamesAlign(a: Name, x: string, b: Name, y: string)
    requires y == "" || y[0] == '/'
    ensures a + ("/" + x) <= b + y <==> a == b && "/" + x <= y
  {
    if a + ("/" + x) <= b + y {
      assert '/' in a + ("/" + x) by { assert (a + ("/" + x))[|a|] == '/'; }
      UpToSlashOfPrefix(a + ("/" + x), b + y);
      UpToSlashStops(a, "/" + x);
      UpToSlashStops(b, y);
    }
    if a == b { PrefixCancels(a, "/" + x, y); }
  }

  function JoinTail(comps: seq<Name>): string
    requires comps != []
  {
    if |comps| == 1 then "" else "/" + Join(comps[1..])
  }

  lemma JoinSplits(comps: seq<Name>)
    requires comps != []
    ensures Join(comps) == comps[0] + JoinTail(comps)
    ensures JoinTail(comps) == "" || JoinTail(comps)[0] == '/'
  {
    if 1 < |comps| { Regroup(comps[0], Join(comps[1..])); }
  }

  lemma Regroup(a: string, b: string)
    ensures a + "/" + b == a + ("/" + b)
    ensures a + ("/" + b) + "/" == a + ("/" + (b + "/"))
  {
  }

  lemma RegroupAll(a: string, b: string, c: string)
    ensures a + ("/" + (b + "/" + c)) == a + ("/" + b) + "/" + c
  {
  }

  lemma ConsPrefix(d: seq<Name>, q: seq<Name>)
    requires d != [] && q != []
    ensures d < q <==> d[0] == q[0] && d[1..] < q[1..]
  {
    assert d == [d[0]] + d[1..] && q == [q[0]] + q[1..];
    if d[0] == q[0] && d[1..] < q[1..] {
      assert forall i :: 0 <= i < |d| ==> d[i] == ([d[0]] + d[1..])[i] == ([q[0]] + q[1..])[i] == q[i];
    }
  }

  lemma {:induction false} JoinPrefix(d: seq<Name>, q: seq<Name>)
    requires d != []
    ensures Join(d) + "/" <= Join(q) <==> d < q
  {
    if q != [] {
      JoinSplits(d);
      JoinSplits(q);
      ConsPrefix(d, q);
      if |d| == 1 {
        assert Join(d) + "/" == d[0] + ("/" + "");
        NamesAlign(d[0], "", q[0], JoinTail(q));
      } else {
        Regroup(d[0], Join(d[1..]));
        NamesAlign(d[0], Join(d[1..]) + "/", q[0], JoinTail(q));
        JoinPrefix(d[1..], q[1..]);
        SlashCancels(Join(d[1..]) + "/", q);
      }
    }
  }

  lemma {:induction false} JoinConcat(d: seq<Name>, r: seq<Name>)
    requires d != [] && r != []
    ensures Join(d + r) == Join(d) + "/" + Join(r)
  {
    JoinSplits(d);
    JoinSplits(d + r);
    assert (d + r)[1..] == d[1..] + r;
    if |d| == 1 {
      assert (d + r)[1..] == r;
      Regroup(d[0], Join(r));
    } else {
      JoinConcat(d[1..], r);
      RegroupAll(d[0], Join(d[1..]), Join(r));
    }
  }

  lemma SlashCancels(x: string, q: seq<Name>)
    requires q != [] && x != ""
    ensures "/" + x <= JoinTail(q) <==> x <= Join(q[1..])
  {
    PrefixCancels("/", x, Join(q[1..]));
    if |q| == 1 { assert q[1..] == []; }
  }

  lemma FirstOfJoin(comps: seq<Name>)
    requires comps != []
    ensures UpToSlash(Join(comps)) == comps[0] && Join(comps)[0] != '/'
  {
    var y := if |comps| == 1 then "" else "/" + Join(comps[1..]);
    assert Join(comps) == comps[0] + y;
    UpToSlashStops(comps[0], y);
  }

  lemma AgreesAtDot(q: Path)
    requires q != DOT
    ensures RelativeChildOf(Render(q), "") == RelativeChild(q, DOT)
  {
    assert Render(q)[0..] == Render(q);
    if !q.abs { FirstOfJoin(q.comps); }
  }

  /** A root, or a path of the other kind, is not below `d`, and its text shows it. */
  lemma AgreesElsewhere(q: Path, d: Path)
    requires !IsRoot(d) && (d.abs != q.abs || IsRoot(q))
    ensures RelativeChildOf(Render(q), PrefixOf(d)) == RelativeChild(q, d)
  {
    FirstOfJoin(d.comps);
    if !IsRoot(q) { FirstOfJoin(q.comps); }
    var prefix := PrefixOf(d);
    assert prefix[0] == if d.abs then '/' else Join(d.comps)[0];
    if d.abs == q.abs {
      assert Render(q) == (if d.abs then "/" else ".");
      assert |prefix| >= 2;
    } else {
      assert Render(q)[0] == if q.abs then '/' else if IsRoot(q) then '.' else Join(q.comps)[0];
    }
    HeadsDiffer(prefix, Render(q));
  }

  lemma HeadsDiffer(a: string, b: string)
    requires a != "" && b != "" && (a[0] != b[0] || |b| < |a|)
    ensures !(a <= b)
  {
  }

  lemma FoundBelow(prefix: string, rest: seq<Name>)
    requires rest != []
    ensures var found := RelativeChildOf(prefix + Join(rest), prefix); found.Some? && found.value == rest[0]
  {
    assert (prefix + Join(rest))[|prefix|..] == Join(rest);
    FirstOfJoin(rest);
  }

  lemma FoundUnder(q: Path, d: Path)
    requires !IsRoot(d) && d.abs == q.abs && d.comps < q.comps
    ensures var found := RelativeChildOf(Render(q), PrefixOf(d)); found.Some? && found.value == q.comps[|d.comps|]
  {
    var rest := q.comps[|d.comps|..];
    assert q.comps == d.comps + rest;
    JoinConcat(d.comps, rest);
    assert Render(q) == PrefixOf(d) + Join(rest);
    FoundBelow(PrefixOf(d), rest);
  }

  lemma AgreesAmong(q: Path, d: Path)
    requires !IsRoot(d) && d.abs == q.abs && !IsRoot(q)
    ensures RelativeChildOf(Render(q), PrefixOf(d)) == RelativeChild(q, d)
  {
    var pre := if d.abs then "/" else "";
    var prefix := PrefixOf(d);
    assert prefix == pre + (Join(d.comps) + "/") && Render(q) == pre + Join(q.comps);
    PrefixCancels(pre, Join(d.comps) + "/", Join(q.comps));
    JoinPrefix(d.comps, q.comps);
    if d.comps < q.comps { FoundUnder(q, d); }
  }

  /** The string test finds exactly the component below the directory: a name that
      merely starts with the directory's name is not taken for something in it. */
  lemma RelativeChildAgrees(q: Path, d: Path)
    requires q != d && (IsRoot(d) ==> d == DOT)
    ensures RelativeChildOf(Render(q), PrefixOf(d)) == RelativeChild(q, d)
  {
    if d == DOT { AgreesAtDot(q); }
    else if d.abs != q.abs || IsRoot(q) { AgreesElsewhere(q, d); }
    else { AgreesAmong(q, d); }
  }

  /** No cleaned path starts with "./", so Remove never sees children of ".". */
  lemma NothingUnderDot(q: Path)
    ensures !(Render(DOT) + "/" <= Render(q))
  {
    assert Render(DOT) + "/" == "./" == "." + "/";
    UpToSlashStops(".", "/");
    if q.abs || IsRoot(q) {
      HeadsDiffer("./", Render(q));
    } else {
      FirstOfJoin(q.comps);
      NotAPrefix("./", Render(q));
    }
  }

  lemma NotAPrefix(s: string, t: string)
    requires s != "" && s[|s| - 1] == '/' && UpToSlash(s) != UpToSlash(t)
    ensures !(s <= t)
  {
    if s <= t { UpToSlashOfPrefix(s, t); }
  }

  /** The prefix test of Remove finds exactly what lies below. */
  lemma PrefixMeansBelow(q: Path, d: Path)
    requires !IsRoot(d)
    ensures Render(d) + "/" <= Render(q) <==> Below(q, d)
  {
    var pre := if d.abs then "/" else "";
    assert Render(d) + "/" == pre + (Join(d.comps) + "/");
    if d.abs == q.abs && !IsRoot(q) {
      assert Render(q) == pre + Join(q.comps);
      PrefixCancels(pre, Join(d.comps) + "/", Join(q.comps));
      JoinPrefix(d.comps, q.comps);
    } else {
      PrefixElsewhere(q, d);
    }
  }

  lemma PrefixElsewhere(q: Path, d: Path)
    requires !IsRoot(d) && (d.abs != q.abs || IsRoot(q))
    ensures !(Render(d) + "/" <= Render(q))
  {
    FirstOfJoin(d.comps);
    if !IsRoot(q) { FirstOfJoin(q.comps); }
    HeadsDiffer(Render(d) + "/", Render(q));
  }

  // ---------------------------------------------------------------------
  // Operations on the map of entries
  // ---------------------------------------------------------------------

  function WriteFile(t: Tree, p: Path, data: string, perm: nat, now: int): Result<Tree> {
    if IsRoot(p) || (p in t && t[p].dir) then Err(IsDirectory)
    else if !IsRoot(Parent(p)) && !(Parent(p) in t && t[Parent(p)].dir) then Err(NotExist)
    else Ok(t[p := Entry(false, data, perm, now)])
  }

  function MkdirAll(t: Tree, p: Path, perm: nat, now: int): Result<Tree>
    decreases |p.comps|
  {
    if IsRoot(p) then Ok(t)
    else if p in t then if t[p].dir then Ok(t) else Err(NotDirectory)
    else
      match MkdirAll(t, Parent(p), perm, now)
      case Err(e) => Err(e)
      case Ok(u) => Ok(u[p := Entry(true, "", perm, now)])
  }

  function Read(t: Tree, p: Path): Result<string> {
    if p !in t then Err(NotExist) else if t[p].dir then Err(IsDirectory) else Ok(t[p].data)
  }

  /** The test Remove makes, on path texts. */
  ghost predicate HasChildren(t: Tree, p: Path) {
    exists q :: q in t && q != p && Render(p) + "/" <= Render(q)
  }

  ghost predicate SomethingBelow(t: Tree, p: Path) {
    exists q :: q in t && Below(q, p)
  }

  ghost function Remove(t: Tree, p: Path): Result<Tree> {
    if p !in t then Err(NotExist)
    else if t[p].dir && HasChildren(t, p) then Err(NotEmpty)
    else Ok(t - {p})
  }

  /** Every entry below a root hangs from an existing directory; of the roots only
      "." is ever stored. */
  ghost predicate IsTree(t: Tree) {
    && (forall p :: p in t && IsRoot(p) ==> p == DOT && t[p].dir)
    && (forall p :: p in t && 2 <= |p.comps| ==> Parent(p) in t && t[Parent(p)].dir)
  }

  lemma {:induction false} AncestorsAreDirs(t: Tree, p: Path, n: nat)
    requires IsTree(t) && p in t && 1 <= n < |p.comps|
    ensures Ancestor(p, n) in t && t[Ancestor(p, n)].dir
    decreases |p.comps|
  {
    if n == |p.comps| - 1 {
      assert Ancestor(p, n) == Parent(p);
    } else {
      AncestorsAreDirs(t, Parent(p), n);
      assert Ancestor(Parent(p), n) == Ancestor(p, n);
    }
  }

  /** In a tree whatever lies below a path lies below an existing directory, so
      nothing lies beneath a regular file. */
  lemma NothingBeneathFiles(t: Tree, q: Path, d: Path)
    requires IsTree(t) && q in t && Below(q, d) && !IsRoot(d)
    ensures d in t && t[d].dir
  {
    AncestorsAreDirs(t, q, |d.comps|);
    assert Ancestor(q, |d.comps|) == d;
  }

  lemma WriteKeepsTree(t: Tree, p: Path, data: string, perm: nat, now: int)
    requires IsTree(t) && WriteFile(t, p, data, perm, now).Ok?
    ensures IsTree(WriteFile(t, p, data, perm, now).value)
  {
    var u := WriteFile(t, p, data, perm, now).value;
    forall q: Path | q in u && 2 <= |q.comps| ensures Parent(q) in u && u[Parent(q)].dir {
      if q != p {
        assert Parent(q) in t && t[Parent(q)].dir;
      }
    }
  }

  /** Among the paths that can be stored the test overlooks what is under "." only. */
  lemma HasChildrenIff(t: Tree, p: Path)
    requires IsTree(t) && p in t
    ensures HasChildren(t, p) <==> p != DOT && SomethingBelow(t, p)
  {
    forall q ensures Render(p) + "/" <= Render(q) <==> p != DOT && Below(q, p) {
      if IsRoot(p) { NothingUnderDot(q); } else { PrefixMeansBelow(q, p); }
    }
  }

  /** A directory with something below it is refused, unless it is ".". */
  lemma RemoveRefusesIff(t: Tree, p: Path)
    requires IsTree(t) && p in t && SomethingBelow(t, p)
    ensures Remove(t, p) == Err(NotEmpty) <==> p != DOT
    ensures Remove(t, p).Ok? <==> p == DOT
  {
    HasChildrenIff(t, p);
    var q :| q in t && Below(q, p);
    if !IsRoot(p) { NothingBeneathFiles(t, q, p); }
  }

  lemma RemovesFrom(t: Tree, p: Path)
    requires IsTree(t) && p in t
    ensures Remove(t, p) == if p == DOT || !SomethingBelow(t, p) then Ok(t - {p}) else Err(NotEmpty)
  {
    HasChildrenIff(t, p);
    if SomethingBelow(t, p) { RemoveRefusesIff(t, p); }
  }

  lemma RemoveKeepsTree(t: Tree, p: Path)
    requires IsTree(t) && Remove(t, p).Ok?
    ensures IsTree(Remove(t, p).value)
  {
    var u := Remove(t, p).value;
    forall q: Path | q in u && 2 <= |q.comps| ensures Parent(q) in u && u[Parent(q)].dir {
      assert Parent(q) in t && t[Parent(q)].dir;
      assert Below(q, Parent(q));
      if Parent(q) == p {
        HasChildrenIff(t, p);
      }
    }
  }

  /** A non-root ancestor-or-self of `p` that is a regular file. */
  ghost predicate Obstructed(t: Tree, p: Path) {
    exists n :: 1 <= n <= |p.comps| && Ancestor(p, n) in t && !t[Ancestor(p, n)].dir
  }

  lemma {:induction false} MkdirAllOk(t: Tree, p: Path, perm: nat, now: int)
    requires IsTree(t) && MkdirAll(t, p, perm, now).Ok?
    ensures var u := MkdirAll(t, p, perm, now).value;
            && IsTree(u)
            && (!IsRoot(p) ==> p in u && u[p].dir)
            && (forall q :: q in t ==> q in u && u[q] == t[q])
            && (forall q :: q in u && q !in t ==> (q == p || Below(p, q)) && u[q] == Entry(true, "", perm, now))
    decreases |p.comps|
  {
    if !IsRoot(p) && p !in t {
      MkdirAllOk(t, Parent(p), perm, now);
      var v := MkdirAll(t, Parent(p), perm, now).value;
      var u := v[p := Entry(true, "", perm, now)];
      forall q: Path | q in u && 2 <= |q.comps| ensures Parent(q) in u && u[Parent(q)].dir {
        if q != p { assert Parent(q) in v && v[Parent(q)].dir; }
      }
      assert Below(p, Parent(p));
      forall q | q in u && q !in t && q != p ensures Below(p, q) {
        assert q == Parent(p) || Below(Parent(p), q);
        assert q.comps <= p.comps[..|p.comps| - 1];
      }
    }
  }

  /** In a tree MkdirAll fails exactly when a regular file is in the way. */
  lemma {:induction false} MkdirAllFailsIff(t: Tree, p: Path, perm: nat, now: int)
    requires IsTree(t)
    ensures MkdirAll(t, p, perm, now).Err? <==> Obstructed(t, p)
    ensures MkdirAll(t, p, perm, now).Err? ==> MkdirAll(t, p, perm, now).error == NotDirectory
    decreases |p.comps|
  {
    assert Ancestor(p, |p.comps|) == p;
    if p in t {
      forall n | 1 <= n < |p.comps| ensures Ancestor(p, n) in t && t[Ancestor(p, n)].dir {
        AncestorsAreDirs(t, p, n);
      }
    } else if !IsRoot(p) {
      MkdirAllFailsIff(t, Parent(p), perm, now);
      assert forall n :: 1 <= n < |p.comps| ==> Ancestor(p, n) == Ancestor(Parent(p), n);
    }
  }

  datatype Op =
    | Write(path: Path, data: string, perm: nat, now: int)
    | Mkdir(path: Path, perm: nat, now: int)
    | Delete(path: Path)

  ghost function Result1(t: Tree, op: Op): Result<Tree> {
    match op
    case Write(p, data, perm, now) => WriteFile(t, p, data, perm, now)
    case Mkdir(p, perm, now) => MkdirAll(t, p, perm, now)
    case Delete(p) => Remove(t, p)
  }

  /** Failed operations change nothing. */
  ghost function Exec(t: Tree, ops: seq<Op>): Tree {
    if ops == [] then t
    else
      var u := Exec(t, ops[..|ops| - 1]);
      var r := Result1(u, ops[|ops| - 1]);
      if r.Ok? then r.value else u
  }

  lemma StepKeepsTree(t: Tree, op: Op)
    requires IsTree(t) && Result1(t, op).Ok?
    ensures IsTree(Result1(t, op).value)
  {
    match op
    case Write(p, data, perm, now) => WriteKeepsTree(t, p, data, perm, now);
    case Mkdir(p, perm, now) => MkdirAllOk(t, p, perm, now);
    case Delete(p) => RemoveKeepsTree(t, p);
  }

  const EMPTY: Tree := map[DOT := Entry(true, "", 0x1ed, 0)]

  /** Any sequence of operations on a new filesystem leaves a tree. */
  lemma {:induction false} AlwaysATree(ops: seq<Op>)
    ensures IsTree(Exec(EMPTY, ops))
  {
    if ops != [] {
      AlwaysATree(ops[..|ops| - 1]);
      var t := Exec(EMPTY, ops[..|ops| - 1]);
      if Result1(t, ops[|ops| - 1]).Ok? { StepKeepsTree(t, ops[|ops| - 1]); }
    }
  }

  /** On a filesystem in any reachable state a write succeeds exactly when its path is
      neither a root nor a directory and its parent is a root or a directory, and it
      changes nothing but the file. */
  lemma WritesIff(before: seq<Op>, p: Path, data: string, perm: nat, now: int)
    ensures var t := Exec(EMPTY, before);
            var u := Exec(EMPTY, before + [Write(p, data, perm, now)]);
            var isDir := p.comps == [] || (p in t && t[p].dir);
            var parent := Path(p.abs, if p.comps == [] then [] else p.comps[..|p.comps| - 1]);
            var hasParent := |p.comps| <= 1 || (parent in t && t[parent].dir);
            && (WriteFile(t, p, data, perm, now).Ok? <==> !isDir && hasParent)
            && (WriteFile(t, p, data, perm, now) == Err(IsDirectory) <==> isDir)
            && (WriteFile(t, p, data, perm, now) == Err(NotExist) <==> !isDir && !hasParent)
            && u == if !isDir && hasParent then t[p := Entry(false, data, perm, now)] else t
  {
    OneMore(before, Write(p, data, perm, now));
  }

  lemma OneMore(before: seq<Op>, op: Op)
    ensures var t := Exec(EMPTY, before);
            Exec(EMPTY, before + [op]) == if Result1(t, op).Ok? then Result1(t, op).value else t
  {
    assert (before + [op])[..|before|] == before;
  }

  /** In any reachable state a path is removed exactly when it is there and, unless it is
      the dot, nothing is below it; it alone goes. */
  lemma RemovesIff(before: seq<Op>, p: Path)
    ensures var t := Exec(EMPTY, before);
            var u := Exec(EMPTY, before + [Delete(p)]);
            && (Remove(t, p).Ok? <==> p in t && (p == DOT || !SomethingBelow(t, p)))
            && (Remove(t, p) == Err(NotExist) <==> p !in t)
            && (Remove(t, p) == Err(NotEmpty) <==> p in t && p != DOT && SomethingBelow(t, p))
            && (forall q :: q in u <==> q in t && (q != p || (p != DOT && SomethingBelow(t, p))))
            && (forall q :: q in u ==> u[q] == t[q])
  {
    var t := Exec(EMPTY, before);
    AlwaysATree(before);
    OneMore(before, Delete(p));
    if p in t { RemovesFrom(t, p); }
  }

  /** A successful write is read back, and every other path reads as before. */
  lemma ReadAfterWrite(t: Tree, p: Path, data: string, perm: nat, now: int, q: Path)
    requires WriteFile(t, p, data, perm, now).Ok?
    ensures Read(WriteFile(t, p, data, perm, now).value, q) == if q == p then Ok(data) else Read(t, q)
  {
  }

  /** A file keeps its data through any operations that neither write nor remove
      it, failing ones included. */
  lemma {:induction false} WrittenStays(t: Tree, ops: seq<Op>, p: Path, data: string)
    requires IsTree(t) && Read(t, p) == Ok(data)
    requires forall k :: 0 <= k < |ops| ==>
               !(ops[k].Write? && ops[k].path == p) && !(ops[k].Delete? && ops[k].path == p)
    ensures IsTree(Exec(t, ops)) && Read(Exec(t, ops), p) == Ok(data)
  {
    if ops != [] {
      var u := Exec(t, ops[..|ops| - 1]);
      var op := ops[|ops| - 1];
      WrittenStays(t, ops[..|ops| - 1], p, data);
      if Result1(u, op).Ok? { StepKeepsTree(u, op); }
      if op.Mkdir? && Result1(u, op).Ok? { MkdirAllOk(u, op.path, op.perm, op.now); }
    }
  }

  /** What is written on a filesystem in any reachable state is what is read after
      any further operations that leave the file alone. */
  lemma WriteThenRead(before: seq<Op>, p: Path, data: string, perm: nat, now: int, after: seq<Op>)
    requires WriteFile(Exec(EMPTY, before), p, data, perm, now).Ok?
    requires forall k :: 0 <= k < |after| ==>
               !(after[k].Write? && after[k].path == p) && !(after[k].Delete? && after[k].path == p)
    ensures Read(Exec(WriteFile(Exec(EMPTY, before), p, data, perm, now).value, after), p) == Ok(data)
  {
    AlwaysATree(before);
    WriteKeepsTree(Exec(EMPTY, before), p, data, perm, now);
    WrittenStays(WriteFile(Exec(EMPTY, before), p, data, perm, now).value, after, p, data);
  }

  /** "/" is never stored, so it can be neither listed nor removed. */
  lemma SlashIsNeverStored(ops: seq<Op>)
    ensures Path(true, []) !in Exec(EMPTY, ops)
  {
    AlwaysATree(ops);
  }

  /** "." goes although there is a file in it. */
  lemma DotIsRemoved()
    ensures var a := Path(false, ["a"]);
            var t := Exec(EMPTY, [Write(a, "", 0, 0), Delete(DOT)]);
            DOT !in t && a in t && Below(a, DOT)
  {
    var a := Path(false, ["a"]);
    var ops := [Write(a, "", 0, 0), Delete(DOT)];
    assert ops[..1] == [Write(a, "", 0, 0)] && ops[..1][..0] == [];
    assert Exec(EMPTY, ops[..1]) == EMPTY[a := Entry(false, "", 0, 0)];
    assert a in Exec(EMPTY, ops[..1]) && Below(a, DOT);
    AlwaysATree(ops[..1]);
    RemoveRefusesIff(Exec(EMPTY, ops[..1]), DOT);
  }

  // ---------------------------------------------------------------------
  // Mem
  // ---------------------------------------------------------------------

  /** The names of the entries immediately inside `d`. */
  ghost predicate ListsChildren(names: seq<string>, t: Tree, d: Path) {
    && StrictlySorted(names)
    && (forall n: Name :: n in names <==> Child(d, n) in t)
    && (forall n :: n in names ==> n != "" && n != "." && '/' !in n)
  }

  class Mem {
    var files: Tree

    ghost predicate Valid()
      reads this
    {
      IsTree(files)
    }

    constructor ()
      ensures Valid() && files == EMPTY
    {
      files := EMPTY;
    }

    method ReadFile(p: Path) returns (r: Result<string>)
      ensures r == Read(files, p)
      ensures r.Ok? <==> p in files && !files[p].dir
      ensures r.Ok? ==> r.value == files[p].data
      ensures r == Err(NotExist) <==> p !in files
    {
      if p !in files { return Err(NotExist); }
      if files[p].dir { return Err(IsDirectory); }
      return Ok(files[p].data);
    }

    method Write(p: Path, data: string, perm: nat, now: int) returns (error: Option<Error>)
      requires Valid()
      modifies this
      ensures Valid()
      ensures error == Some(IsDirectory) <==> p.comps == [] || (p in old(files) && old(files)[p].dir)
      ensures error == Some(NotExist) <==>
                && 2 <= |p.comps| && !(p in old(files) && old(files)[p].dir)
                && !(Parent(p) in old(files) && old(files)[Parent(p)].dir)
      ensures error.None? || error == Some(IsDirectory) || error == Some(NotExist)
      ensures files == if error.None? then old(files)[p := Entry(false, data, perm, now)] else old(files)
      ensures match WriteFile(old(files), p, data, perm, now)
              case Ok(t) => error == None && files == t
              case Err(e) => error == Some(e) && files == old(files)
    {
      if IsRoot(p) || (p in files && files[p].dir) { return Some(IsDirectory); }
      if !IsRoot(Parent(p)) {
        if Parent(p) !in files || !files[Parent(p)].dir { return Some(NotExist); }
      }
      WriteKeepsTree(files, p, data, perm, now);
      files := files[p := Entry(false, data, perm, now)];
      return None;
    }

    method Mkdir(p: Path, perm: nat, now: int) returns (error: Option<Error>)
      requires Valid()
      modifies this
      ensures Valid()
      ensures error.Some? <==> Obstructed(old(files), p)
      ensures error.Some? ==> error == Some(NotDirectory) && files == old(files)
      ensures error.None? ==>
                && (p.comps != [] ==> p in files && files[p].dir)
                && (forall q :: q in old(files) ==> q in files && files[q] == old(files)[q])
                && (forall q :: q in files && q !in old(files) ==>
                      (q == p || Below(p, q)) && files[q] == Entry(true, "", perm, now))
      ensures match MkdirAll(old(files), p, perm, now)
              case Ok(t) => error == None && files == t
              case Err(e) => error == Some(e) && files == old(files)
      decreases |p.comps|
    {
      if MkdirAll(files, p, perm, now).Ok? { MkdirAllOk(files, p, perm, now); }
      MkdirAllFailsIff(files, p, perm, now);
      if IsRoot(p) { return None; }
      if p in files {
        if files[p].dir { return None; }
        return Some(NotDirectory);
      }
      error := Mkdir(Parent(p), perm, now);
      if error.Some? { return; }
      files := files[p := Entry(true, "", perm, now)];
    }

    method Delete(p: Path) returns (error: Option<Error>)
      requires Valid()
      modifies this
      ensures Valid()
      ensures error.None? <==> p in old(files) && (p == DOT || !SomethingBelow(old(files), p))
      ensures error == Some(NotExist) <==> p !in old(files)
      ensures error.None? || error == Some(NotExist) || error == Some(NotEmpty)
      ensures files == if error.None? then old(files) - {p} else old(files)
      ensures match Remove(old(files), p)
              case Ok(t) => error == None && files == t
              case Err(e) => error == Some(e) && files == old(files)
    {
      if p !in files { return Some(NotExist); }
      RemovesFrom(files, p);
      if files[p].dir {
        var prefix := Render(p) + "/";
        var rest := files.Keys;
        while rest != {}
          invariant rest <= files.Keys && files == old(files)
          invariant forall q :: q in files && q !in rest && q != p ==> !(prefix <= Render(q))
          decreases |rest|
        {
          var q :| q in rest;
          if q != p && prefix <= Render(q) { return Some(NotEmpty); }
          rest := rest - {q};
        }
      }
      RemoveKeepsTree(files, p);
      files := files - {p};
      return None;
    }

    /** Lists the immediate children by name, found by prefix and cut at the next
        separator; that this names entries and not mere path components is the
        tree invariant. */
    method ReadDir(d: Path) returns (r: Result<seq<string>>)
      requires Valid()
      ensures r.Ok? <==> d == DOT || (d in files && files[d].dir)
      ensures r.Err? ==> r.error == if d in files then NotDirectory else NotExist
      ensures r.Ok? ==> ListsChildren(r.value, files, d)
    {
      if d != DOT {
        if d !in files { return Err(NotExist); }
        if !files[d].dir { return Err(NotDirectory); }
      }
      var prefix := PrefixOf(d);
      var names: seq<string> := [];
      var rest := files.Keys;
      while rest != {}
        invariant rest <= files.Keys
        invariant forall i, j :: 0 <= i < j < |names| ==> names[i] != names[j]
        invariant forall n :: n in names <==> Reported(files, rest, d, n)
        decreases |rest|
      {
        var q :| q in rest;
        if q != d {
          RelativeChildAgrees(q, d);
          var rel := RelativeChildOf(Render(q), prefix);
          if rel.Some? && rel.value !in names {
            names := names + [rel.value];
          }
        }
        rest := rest - {q};
      }
      SortOfDistinct(names);
      r := Ok(Sort(names));
      ChildrenReported(files, d, r.value);
    }
  }

  /** Some visited entry shows the name `n`. */
  ghost predicate Reported(t: Tree, rest: set<Path>, d: Path, n: string) {
    exists q :: q in t && q !in rest && q != d && Below(q, d) && q.comps[|d.comps|] == n
  }

  lemma ReportedIsChild(t: Tree, d: Path, n: Name)
    requires IsTree(t) && Reported(t, {}, d, n)
    ensures Child(d, n) in t
  {
    var q :| q in t && q != d && Below(q, d) && q.comps[|d.comps|] == n;
    assert Ancestor(q, |d.comps| + 1) == Child(d, n);
    if |d.comps| + 1 < |q.comps| {
      AncestorsAreDirs(t, q, |d.comps| + 1);
    } else {
      assert q == Child(d, n);
    }
  }

  lemma ChildIsReported(t: Tree, d: Path, n: Name)
    requires Child(d, n) in t
    ensures Reported(t, {}, d, n)
  {
    var c := Child(d, n);
    assert Below(c, d) && c.comps[|d.comps|] == n && c != d;
  }

  lemma ChildrenReported(t: Tree, d: Path, names: seq<string>)
    requires IsTree(t) && StrictlySorted(names)
    requires forall n :: n in names <==> Reported(t, {}, d, n)
    ensures ListsChildren(names, t, d)
  {
    forall n: Name ensures n in names <==> Child(d, n) in t {
      if n in names { ReportedIsChild(t, d, n); }
      if Child(d, n) in t { ChildIsReported(t, d, n); }
    }
  }

  /** Without the invariant the listing would name things that are not there. */
  lemma ListingNeedsTheInvariant()
    ensures var t: Tree := map[Path(false, ["a", "b"]) := Entry(false, "", 0, 0)];
            && !IsTree(t) && Reported(t, {}, DOT, "a") && Child(DOT, "a") !in t
  {
    var p := Path(false, ["a", "b"]);
    var t: Tree := map[p := Entry(false, "", 0, 0)];
    assert Parent(p).comps == ["a"];
    assert Below(p, DOT) && p.comps[0] == "a";
  }
}
