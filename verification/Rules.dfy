/** internal/rules and internal/v2: the rules that look at whole tool sets, and
    the dispatcher that runs them.

    A message is kept as its parts rather than as formatted text. Rules other than
    the two modelled here are any function from tool sets to reports.
 */
module Rules {
  import opened Options
  import opened Sorting

  datatype Tool = Tool(name: string, file: string, line: int)

  datatype Message =
    | Duplicate(name: string, others: seq<string>)
    | StaticOnly(name: string)
    | LiveOnly(name: string)
    | Text(text: string)

  datatype Report = Report(tool: Tool, message: Message)

  datatype Finding = Finding(
    ruleID: string, severity: string, category: string,
    message: Message, toolName: string, file: string, line: int)

  datatype ProjectImpl = Collision | OtherProject(reports: seq<Tool> -> seq<Report>)

  datatype ComparisonImpl =
    | StaticVsLive
    | OtherComparison(compare: (Option<seq<Tool>>, Option<seq<Tool>>) -> seq<Report>)

  /** `perTool` says whether there is a per-tool callback, which is not modelled. */
  datatype Rule = Rule(
    id: string, severity: string, category: string, perTool: bool,
    project: Option<ProjectImpl>, comparison: Option<ComparisonImpl>)

  function Stamped(rule: Rule, r: Report): Finding {
    Finding(rule.id, rule.severity, rule.category, r.message, r.tool.name, r.tool.file, r.tool.line)
  }

  function StampedAll(rule: Rule, rs: seq<Report>): (fs: seq<Finding>)
    ensures |fs| == |rs| && forall k :: 0 <= k < |rs| ==> fs[k] == Stamped(rule, rs[k])
  {
    seq(|rs|, k requires 0 <= k < |rs| => Stamped(rule, rs[k]))
  }

  /** The finding carries the rule's identity, the tool's name and place, and the message. */
  predicate SaysOf(f: Finding, rule: Rule, tool: Tool, message: Message) {
    && f.ruleID == rule.id && f.severity == rule.severity && f.category == rule.category
    && f.toolName == tool.name && f.file == tool.file && f.line == tool.line && f.message == message
  }

  /** ProjectContext and ComparisonContext, as far as reporting goes. */
  class Context {
    const rule: Rule
    var findings: seq<Finding>

    constructor (rule: Rule)
      ensures this.rule == rule && findings == []
    {
      this.rule := rule;
      findings := [];
    }

    method ReportTool(tool: Tool, message: Message)
      modifies this
      ensures findings == old(findings) + [Stamped(rule, Report(tool, message))]
      ensures |findings| == |old(findings)| + 1 && SaysOf(findings[|old(findings)|], rule, tool, message)
    {
      findings := findings + [Finding(rule.id, rule.severity, rule.category, message, tool.name, tool.file, tool.line)];
    }
  }

  // ---------------------------------------------------------------------
  // Locations
  // ---------------------------------------------------------------------

  function Decimal(n: nat): string {
    var digit := "0123456789"[n % 10];
    if n < 10 then [digit] else Decimal(n / 10) + [digit]
  }

  function LocationOf(t: Tool): string {
    if t.file != "" then
      if t.line > 0 then t.file + ":" + Decimal(t.line) else t.file
    else "<source>"
  }

  // ---------------------------------------------------------------------
  // Duplicate names
  // ---------------------------------------------------------------------

  /** The indices below `n` of the tools called `name`, in order. */
  function Occurrences(tools: seq<Tool>, n: nat, name: string): (r: seq<nat>)
    requires n <= |tools|
    ensures forall k :: 0 <= k < |r| ==> r[k] < n && tools[r[k]].name == name
    ensures forall k, l :: 0 <= k < l < |r| ==> r[k] < r[l]
    ensures forall i: nat :: i < n && tools[i].name == name ==> i in r
  {
    if n == 0 then []
    else
      var before := Occurrences(tools, n - 1, name);
      assert forall i: nat :: i < n - 1 && tools[i].name == name ==> i in before;
      if tools[n - 1].name == name then before + [n - 1] else before
  }

  /** The locations of the tools at `idxs`, but for the one at `skip`, in that order. */
  function Elsewhere(tools: seq<Tool>, idxs: seq<nat>, skip: nat): seq<string>
  {
    if idxs == [] then []
    else
      var j := idxs[|idxs| - 1];
      Elsewhere(tools, idxs[..|idxs| - 1], skip) + if j == skip || j >= |tools| then [] else [LocationOf(tools[j])]
  }

  /** A tool whose non-empty name another tool has too. */
  ghost predicate Collides(tools: seq<Tool>, i: nat) {
    i < |tools| && tools[i].name != "" && exists j :: 0 <= j < |tools| && j != i && tools[j].name == tools[i].name
  }

  function CollisionReport(tools: seq<Tool>, i: nat): Report
    requires i < |tools|
  {
    var name := tools[i].name;
    Report(tools[i], Duplicate(name, Sort(Elsewhere(tools, Occurrences(tools, |tools|, name), i))))
  }

  /** Ascending by name and, for one name, by position. */
  predicate Before(tools: seq<Tool>, i: nat, j: nat)
    requires i < |tools| && j < |tools|
  {
    Less(tools[i].name, tools[j].name) || (tools[i].name == tools[j].name && i < j)
  }

  ghost predicate InOrder(tools: seq<Tool>, at: seq<nat>) {
    && (forall k :: 0 <= k < |at| ==> at[k] < |tools|)
    && (forall k, l :: 0 <= k < l < |at| ==> Before(tools, at[k], at[l]))
  }

  /** `fs` reports the tools at `at`: exactly the colliding ones, each once, in order. */
  ghost predicate CollisionsAt(fs: seq<Finding>, rule: Rule, tools: seq<Tool>, at: seq<nat>) {
    && |fs| == |at| && InOrder(tools, at)
    && (forall k :: 0 <= k < |at| ==> fs[k] == Stamped(rule, CollisionReport(tools, at[k])))
    && (forall i :: i in at <==> Collides(tools, i))
  }

  /** `byName` groups the first `n` tools. */
  ghost predicate Groups(byName: map<string, seq<nat>>, tools: seq<Tool>, n: nat)
    requires n <= |tools|
  {
    forall name :: Occurrences(tools, n, name) == if name in byName then byName[name] else []
  }

  function Filed(byName: map<string, seq<nat>>, name: string, i: nat): map<string, seq<nat>> {
    byName[name := (if name in byName then byName[name] else []) + [i]]
  }

  method GroupByName(tools: seq<Tool>) returns (byName: map<string, seq<nat>>)
    ensures Groups(byName, tools, |tools|)
  {
    byName := map[];
    GroupNone(tools);
    for i := 0 to |tools|
      invariant Groups(byName, tools, i)
    {
      FiledGroups(byName, tools, i);
      byName := Filed(byName, tools[i].name, i);
    }
  }

  lemma GroupNone(tools: seq<Tool>)
    ensures Groups(map[], tools, 0)
  {
  }

  lemma FiledGroups(byName: map<string, seq<nat>>, tools: seq<Tool>, i: nat)
    requires i < |tools| && Groups(byName, tools, i)
    ensures Groups(Filed(byName, tools[i].name, i), tools, i + 1)
  {
    var after := Filed(byName, tools[i].name, i);
    forall other ensures Occurrences(tools, i + 1, other) == if other in after then after[other] else [] {
      assert Occurrences(tools, i, other) == if other in byName then byName[other] else [];
    }
  }

  ghost predicate AreDuplicates(names: seq<string>, tools: seq<Tool>) {
    forall n :: n in names <==> n != "" && 1 < |Occurrences(tools, |tools|, n)|
  }

  /** The duplicated non-empty names in ascending order. */
  method DuplicateNames(byName: map<string, seq<nat>>) returns (names: seq<string>)
    ensures StrictlySorted(names)
    ensures forall n :: n in names <==> n in byName && n != "" && 1 < |byName[n]|
  {
    names := [];
    var rest := byName.Keys;
    while rest != {}
      invariant rest <= byName.Keys
      invariant forall k, l :: 0 <= k < l < |names| ==> names[k] != names[l]
      invariant forall n :: n in names <==> n in byName && n !in rest && n != "" && 1 < |byName[n]|
      decreases |rest|
    {
      var n :| n in rest;
      if n != "" && |byName[n]| > 1 {
        names := names + [n];
      }
      rest := rest - {n};
    }
    SortOfDistinct(names);
    names := Sort(names);
  }

  method OtherLocations(tools: seq<Tool>, idxs: seq<nat>, i: nat) returns (others: seq<string>)
    requires forall k :: 0 <= k < |idxs| ==> idxs[k] < |tools|
    ensures others == Sort(Elsewhere(tools, idxs, i))
  {
    others := [];
    for k := 0 to |idxs|
      invariant others == Elsewhere(tools, idxs[..k], i)
    {
      assert idxs[..k + 1][..k] == idxs[..k];
      if idxs[k] == i { continue; }
      others := others + [LocationOf(tools[idxs[k]])];
    }
    assert idxs[..|idxs|] == idxs;
    others := Sort(others);
  }

  /** More than one occurrence is what makes each of them collide. */
  lemma CollidesIff(tools: seq<Tool>, i: nat)
    requires i < |tools|
    ensures Collides(tools, i) <==> tools[i].name != "" && 1 < |Occurrences(tools, |tools|, tools[i].name)|
  {
    var occ := Occurrences(tools, |tools|, tools[i].name);
    assert i in occ;
    if 1 < |occ| {
      var j := if occ[0] == i then occ[1] else occ[0];
      assert j in occ && j != i;
    }
    if j: nat :| j < |tools| && j != i && tools[j].name == tools[i].name {
      assert j in occ;
      var k :| 0 <= k < |occ| && occ[k] == i;
      var l :| 0 <= l < |occ| && occ[l] == j;
      assert k != l;
    }
  }

  /** The findings so far cover the names before `names[n]` and the first `m`
      occurrences of that one. */
  ghost predicate CoveredTo(tools: seq<Tool>, names: seq<string>, n: nat, m: nat, at: seq<nat>) {
    && n <= |names| && (n < |names| ==> m <= |Occurrences(tools, |tools|, names[n])|)
    && InOrder(tools, at)
    && (forall i: nat :: i in at <==> Covered(tools, names, n, m, i))
  }

  ghost predicate Covered(tools: seq<Tool>, names: seq<string>, n: nat, m: nat, i: nat)
    requires n <= |names| && (n < |names| ==> m <= |Occurrences(tools, |tools|, names[n])|)
  {
    i < |tools| && (tools[i].name in names[..n] || (n < |names| && i in Occurrences(tools, |tools|, names[n])[..m]))
  }

  lemma CoveredBefore(tools: seq<Tool>, names: seq<string>, n: nat, m: nat, i: nat)
    requires StrictlySorted(names) && n < |names|
    requires m < |Occurrences(tools, |tools|, names[n])| && Covered(tools, names, n, m, i)
    ensures Before(tools, i, Occurrences(tools, |tools|, names[n])[m])
  {
    var occ := Occurrences(tools, |tools|, names[n]);
    assert occ[m] in occ;
    if tools[i].name in names[..n] {
      var p :| 0 <= p < n && names[..n][p] == tools[i].name;
      assert Less(names[p], names[n]);
    } else {
      var p :| 0 <= p < m && occ[..m][p] == i;
      assert occ[p] in occ;
    }
  }

  lemma CoverOrder(tools: seq<Tool>, names: seq<string>, n: nat, m: nat, at: seq<nat>)
    requires StrictlySorted(names) && n < |names|
    requires m < |Occurrences(tools, |tools|, names[n])| && CoveredTo(tools, names, n, m, at)
    ensures InOrder(tools, at + [Occurrences(tools, |tools|, names[n])[m]])
  {
    var i := Occurrences(tools, |tools|, names[n])[m];
    assert i in Occurrences(tools, |tools|, names[n]);
    var after := at + [i];
    forall k, l | 0 <= k < l < |after| ensures Before(tools, after[k], after[l]) {
      if l == |at| {
        assert at[k] in at;
        CoveredBefore(tools, names, n, m, at[k]);
      }
    }
  }

  lemma CoversNext(tools: seq<Tool>, names: seq<string>, n: nat, m: nat, i: nat)
    requires n < |names| && m < |Occurrences(tools, |tools|, names[n])|
    ensures Covered(tools, names, n, m + 1, i)
            <==> Covered(tools, names, n, m, i) || i == Occurrences(tools, |tools|, names[n])[m]
  {
    var occ := Occurrences(tools, |tools|, names[n]);
    assert occ[m] in occ;
    assert occ[..m + 1] == occ[..m] + [occ[m]];
  }

  lemma CoverOne(tools: seq<Tool>, names: seq<string>, n: nat, m: nat, at: seq<nat>)
    requires StrictlySorted(names) && n < |names|
    requires m < |Occurrences(tools, |tools|, names[n])|
    requires CoveredTo(tools, names, n, m, at)
    ensures CoveredTo(tools, names, n, m + 1, at + [Occurrences(tools, |tools|, names[n])[m]])
  {
    var after := at + [Occurrences(tools, |tools|, names[n])[m]];
    CoverOrder(tools, names, n, m, at);
    forall i: nat ensures i in after <==> Covered(tools, names, n, m + 1, i) {
      CoversNext(tools, names, n, m, i);
    }
  }

  lemma CoverName(tools: seq<Tool>, names: seq<string>, n: nat, at: seq<nat>)
    requires n < |names| && CoveredTo(tools, names, n, |Occurrences(tools, |tools|, names[n])|, at)
    ensures CoveredTo(tools, names, n + 1, 0, at)
  {
    var occ := Occurrences(tools, |tools|, names[n]);
    assert occ[..|occ|] == occ;
    assert names[..n + 1] == names[..n] + [names[n]];
    forall i: nat ensures i in at <==> Covered(tools, names, n + 1, 0, i) {
      assert i in at <==> Covered(tools, names, n, |occ|, i);
      assert n + 1 < |names| ==> i !in Occurrences(tools, |tools|, names[n + 1])[..0];
    }
  }

  ghost predicate ReportedAt(fs: seq<Finding>, rule: Rule, tools: seq<Tool>, at: seq<nat>) {
    && |fs| == |at|
    && (forall k :: 0 <= k < |at| ==> at[k] < |tools|)
    && (forall k :: 0 <= k < |at| ==> fs[k] == Stamped(rule, CollisionReport(tools, at[k])))
  }

  lemma ReportedNext(fs: seq<Finding>, rule: Rule, tools: seq<Tool>, at: seq<nat>, i: nat)
    requires ReportedAt(fs, rule, tools, at) && i < |tools|
    ensures ReportedAt(fs + [Stamped(rule, CollisionReport(tools, i))], rule, tools, at + [i])
  {
    var f := Stamped(rule, CollisionReport(tools, i));
    var fs', at' := fs + [f], at + [i];
    forall k | 0 <= k < |at'| ensures at'[k] < |tools| && fs'[k] == Stamped(rule, CollisionReport(tools, at'[k])) {
      if k == |at| {
        assert at'[k] == i && fs'[k] == f;
      } else {
        assert at'[k] == at[k] && fs'[k] == fs[k];
      }
    }
  }

  method ReportCollision(c: Context, tools: seq<Tool>, idxs: seq<nat>, i: nat)
    requires i < |tools| && idxs == Occurrences(tools, |tools|, tools[i].name)
    modifies c
    ensures c.findings == old(c.findings) + [Stamped(c.rule, CollisionReport(tools, i))]
  {
    var others := OtherLocations(tools, idxs, i);
    c.ReportTool(tools[i], Duplicate(tools[i].name, others));
  }

  /** The rule's loop over the tools of one name. */
  method ReportName(c: Context, tools: seq<Tool>, ghost names: seq<string>, ghost n: nat, idxs: seq<nat>,
                    ghost before: seq<nat>)
    returns (ghost at: seq<nat>)
    requires StrictlySorted(names) && n < |names| && idxs == Occurrences(tools, |tools|, names[n])
    requires CoveredTo(tools, names, n, 0, before) && ReportedAt(c.findings, c.rule, tools, before)
    modifies c
    ensures CoveredTo(tools, names, n + 1, 0, at) && ReportedAt(c.findings, c.rule, tools, at)
  {
    at := before;
    for m := 0 to |idxs|
      invariant CoveredTo(tools, names, n, m, at) && ReportedAt(c.findings, c.rule, tools, at)
    {
      CoverOne(tools, names, n, m, at);
      ReportedNext(c.findings, c.rule, tools, at, idxs[m]);
      ReportCollision(c, tools, idxs, idxs[m]);
      at := at + [idxs[m]];
    }
    CoverName(tools, names, n, at);
  }

  /** The rule's callback. */
  method CollisionRule(c: Context, tools: seq<Tool>) returns (ghost at: seq<nat>)
    requires c.findings == []
    modifies c
    ensures CollisionsAt(c.findings, c.rule, tools, at)
  {
    var byName := GroupByName(tools);
    var names := DuplicateNames(byName);
    DuplicatesFound(byName, tools, names);
    at := [];
    CoveredNone(tools, names);
    for n := 0 to |names|
      invariant CoveredTo(tools, names, n, 0, at) && ReportedAt(c.findings, c.rule, tools, at)
    {
      assert names[n] in names;
      at := ReportName(c, tools, names, n, byName[names[n]], at);
    }
    CoveredAll(tools, names, at);
  }

  lemma DuplicatesFound(byName: map<string, seq<nat>>, tools: seq<Tool>, names: seq<string>)
    requires Groups(byName, tools, |tools|)
    requires forall n :: n in names <==> n in byName && n != "" && 1 < |byName[n]|
    ensures AreDuplicates(names, tools)
    ensures forall n :: n in names ==> n in byName && byName[n] == Occurrences(tools, |tools|, n)
  {
    forall n ensures n in names <==> n != "" && 1 < |Occurrences(tools, |tools|, n)| {
      assert Occurrences(tools, |tools|, n) == if n in byName then byName[n] else [];
    }
    forall n | n in names ensures n in byName && byName[n] == Occurrences(tools, |tools|, n) {
      assert Occurrences(tools, |tools|, n) == if n in byName then byName[n] else [];
    }
  }

  lemma CoveredNone(tools: seq<Tool>, names: seq<string>)
    ensures CoveredTo(tools, names, 0, 0, [])
  {
  }

  lemma CoveredAll(tools: seq<Tool>, names: seq<string>, at: seq<nat>)
    requires CoveredTo(tools, names, |names|, 0, at) && AreDuplicates(names, tools)
    ensures forall i :: i in at <==> Collides(tools, i)
  {
    assert names[..|names|] == names;
    forall i: nat ensures i in at <==> Collides(tools, i) {
      if i < |tools| { CollidesIff(tools, i); }
      assert i in at <==> Covered(tools, names, |names|, 0, i);
    }
  }

  ghost predicate NamesDistinct(tools: seq<Tool>) {
    forall i, j :: 0 <= i < j < |tools| && tools[i].name != "" ==> tools[i].name != tools[j].name
  }

  /** No finding means that the non-empty names are pairwise distinct, and conversely. */
  lemma NoCollisionsIff(fs: seq<Finding>, rule: Rule, tools: seq<Tool>, at: seq<nat>)
    requires CollisionsAt(fs, rule, tools, at)
    ensures fs == [] <==> NamesDistinct(tools)
  {
    if fs != [] {
      assert at[0] in at;
    } else {
      forall i, j | 0 <= i < j < |tools| && tools[i].name != "" ensures tools[i].name != tools[j].name {
        assert !Collides(tools, i);
      }
    }
  }

  // ---------------------------------------------------------------------
  // What a collision finding says
  // ---------------------------------------------------------------------

  function Digit(c: char): nat { if '0' <= c <= '9' then (c - '0') as nat else 0 }

  function Value(digits: string): nat {
    if digits == "" then 0 else 10 * Value(digits[..|digits| - 1]) + Digit(digits[|digits| - 1])
  }

  /** A line number is written in digits that read back as it. */
  lemma {:induction false} DecimalReadsBack(n: nat)
    ensures Value(Decimal(n)) == n && Decimal(n) != ""
    ensures forall k :: 0 <= k < |Decimal(n)| ==> '0' <= Decimal(n)[k] <= '9'
  {
    assert Digit("0123456789"[n % 10]) == n % 10;
    if n < 10 {
      assert Decimal(n)[..0] == "";
    } else {
      DecimalReadsBack(n / 10);
      assert Decimal(n)[..|Decimal(n)| - 1] == Decimal(n / 10);
    }
  }

  /** `where` tells where the tool is: its file and line, its file alone without a line,
      or that its source is unknown. */
  predicate Locates(where: string, t: Tool) {
    if t.file == "" then where == "<source>"
    else if t.line <= 0 then where == t.file
    else |where| > |t.file| && where[..|t.file| + 1] == t.file + ":" && Value(where[|t.file| + 1..]) == t.line
  }

  lemma LocationLocates(t: Tool)
    ensures Locates(LocationOf(t), t)
  {
    if t.file != "" && t.line > 0 {
      DecimalReadsBack(t.line);
      assert LocationOf(t)[|t.file| + 1..] == Decimal(t.line);
    }
  }

  lemma {:induction false} ElsewhereHas(tools: seq<Tool>, idxs: seq<nat>, skip: nat, where: string)
    requires forall k :: 0 <= k < |idxs| ==> idxs[k] < |tools|
    ensures where in Elsewhere(tools, idxs, skip) <==>
              exists k :: 0 <= k < |idxs| && idxs[k] != skip && LocationOf(tools[idxs[k]]) == where
  {
    if idxs != [] {
      var last := |idxs| - 1;
      ElsewhereHas(tools, idxs[..last], skip, where);
      assert forall k :: 0 <= k < last ==> idxs[..last][k] == idxs[k];
    }
  }

  lemma {:induction false} ElsewhereCounts(tools: seq<Tool>, idxs: seq<nat>, skip: nat)
    requires forall k :: 0 <= k < |idxs| ==> idxs[k] < |tools|
    requires forall k, l :: 0 <= k < l < |idxs| ==> idxs[k] < idxs[l]
    ensures |Elsewhere(tools, idxs, skip)| == |idxs| - if skip in idxs then 1 else 0
  {
    if idxs != [] {
      var last := |idxs| - 1;
      ElsewhereCounts(tools, idxs[..last], skip);
      assert idxs == idxs[..last] + [idxs[last]];
      assert skip == idxs[last] ==> skip !in idxs[..last];
    }
  }

  ghost predicate IsOther(tools: seq<Tool>, i: nat, j: nat)
    requires i < |tools|
  {
    j < |tools| && j != i && tools[j].name == tools[i].name
  }

  ghost predicate PlaceListed(others: seq<string>, t: Tool) {
    exists where :: where in others && Locates(where, t)
  }

  ghost predicate PlaceOfOther(where: string, tools: seq<Tool>, i: nat)
    requires i < |tools|
  {
    exists j: nat :: IsOther(tools, i, j) && Locates(where, tools[j])
  }

  /** `others` are the places of all tools of the `i`th one's name but itself. */
  ghost predicate PlacesOfOthers(others: seq<string>, tools: seq<Tool>, i: nat)
    requires i < |tools|
  {
    && (forall j: nat :: IsOther(tools, i, j) ==> PlaceListed(others, tools[j]))
    && (forall where :: where in others ==> PlaceOfOther(where, tools, i))
  }

  lemma ElsewhereIsOthers(tools: seq<Tool>, i: nat)
    requires i < |tools|
    ensures PlacesOfOthers(Elsewhere(tools, Occurrences(tools, |tools|, tools[i].name), i), tools, i)
  {
    var idxs := Occurrences(tools, |tools|, tools[i].name);
    var others := Elsewhere(tools, idxs, i);
    forall j: nat | IsOther(tools, i, j) ensures PlaceListed(others, tools[j]) {
      LocationLocates(tools[j]);
      ElsewhereHas(tools, idxs, i, LocationOf(tools[j]));
      assert j in idxs;
    }
    forall where | where in others ensures PlaceOfOther(where, tools, i) {
      ElsewhereHas(tools, idxs, i, where);
      var l :| 0 <= l < |idxs| && idxs[l] != i && LocationOf(tools[idxs[l]]) == where;
      LocationLocates(tools[idxs[l]]);
      assert IsOther(tools, i, idxs[l]);
    }
  }

  lemma SortedAlike(s: seq<string>)
    ensures |Sort(s)| == |s| && forall x :: x in Sort(s) <==> x in s
  {
    assert |Sort(s)| == |multiset(Sort(s))| == |s|;
    forall x ensures x in Sort(s) <==> x in s {
      assert x in multiset(Sort(s)) <==> x in multiset(s);
    }
  }

  /** A finding names its tool and lists the places of all others of its name and of
      nothing else, one entry each, in ascending order. */
  lemma CollisionSays(fs: seq<Finding>, rule: Rule, tools: seq<Tool>, at: seq<nat>, k: nat)
    requires CollisionsAt(fs, rule, tools, at) && k < |fs|
    ensures var i := at[k];
            var message := fs[k].message;
            && i < |tools| && SaysOf(fs[k], rule, tools[i], message)
            && message.Duplicate? && message.name == tools[i].name
            && |message.others| == |Occurrences(tools, |tools|, tools[i].name)| - 1
            && Sorted(message.others) && PlacesOfOthers(message.others, tools, i)
  {
    var i := at[k];
    var idxs := Occurrences(tools, |tools|, tools[i].name);
    var others := Elsewhere(tools, idxs, i);
    assert i in idxs;
    ElsewhereCounts(tools, idxs, i);
    ElsewhereIsOthers(tools, i);
    SortedAlike(others);
    OthersAlike(others, Sort(others), tools, i);
  }

  lemma OthersAlike(a: seq<string>, b: seq<string>, tools: seq<Tool>, i: nat)
    requires i < |tools| && PlacesOfOthers(a, tools, i) && forall x :: x in b <==> x in a
    ensures PlacesOfOthers(b, tools, i)
  {
    forall j: nat | IsOther(tools, i, j) ensures PlaceListed(b, tools[j]) {
      assert PlaceListed(a, tools[j]);
      var where :| where in a && Locates(where, tools[j]);
      assert where in b;
    }
  }

  // ---------------------------------------------------------------------
  // Static against live
  // ---------------------------------------------------------------------

  ghost predicate Named(tools: seq<Tool>, name: string) {
    exists i :: 0 <= i < |tools| && tools[i].name == name
  }

  predicate IsFirst(tools: seq<Tool>, i: nat, name: string) {
    i < |tools| && tools[i].name == name && forall j :: 0 <= j < i ==> tools[j].name != name
  }

  /** indexByName. */
  method IndexByName(tools: seq<Tool>) returns (index: map<string, nat>)
    ensures forall n :: n in index <==> Named(tools, n)
    ensures forall n :: n in index ==> IsFirst(tools, index[n], n)
  {
    index := map[];
    for i := 0 to |tools|
      invariant forall n :: n in index ==> index[n] < i && IsFirst(tools, index[n], n)
      invariant forall j :: 0 <= j < i ==> tools[j].name in index
    {
      if tools[i].name in index { continue; }
      index := index[tools[i].name := i];
    }
    forall n | n in index ensures Named(tools, n) {
      assert tools[index[n]].name == n;
    }
  }

  /** The names in one index and not in the other, ascending. */
  method OnlyIn(a: map<string, nat>, b: map<string, nat>) returns (names: seq<string>)
    ensures StrictlySorted(names)
    ensures forall n :: n in names <==> n in a && n !in b
  {
    names := [];
    var rest := a.Keys;
    while rest != {}
      invariant rest <= a.Keys
      invariant forall k, l :: 0 <= k < l < |names| ==> names[k] != names[l]
      invariant forall n :: n in names <==> n in a && n !in rest && n !in b
      decreases |rest|
    {
      var n :| n in rest;
      if n !in b {
        names := names + [n];
      }
      rest := rest - {n};
    }
    SortOfDistinct(names);
    names := Sort(names);
  }

  datatype Side = Static | Live

  function DriftMessage(side: Side, name: string): Message {
    match side
    case Static => StaticOnly(name)
    case Live => LiveOnly(name)
  }

  /** `f` reports the first tool called `name` in `tools`. */
  ghost predicate DriftFinding(f: Finding, rule: Rule, tools: seq<Tool>, side: Side, name: string) {
    exists i :: 0 <= i < |tools| && IsFirst(tools, i, name)
                && f == Stamped(rule, Report(tools[i], DriftMessage(side, name)))
  }

  /** One finding for each name `here` that is not `there`, in ascending order. */
  ghost predicate DriftSide(fs: seq<Finding>, rule: Rule, here: seq<Tool>, there: seq<Tool>, side: Side,
                            names: seq<string>) {
    && StrictlySorted(names)
    && (forall n :: n in names <==> Named(here, n) && !Named(there, n))
    && |fs| == |names|
    && (forall k :: 0 <= k < |fs| ==> DriftFinding(fs[k], rule, here, side, names[k]))
  }

  /** Static-only findings first, then live-only ones. */
  ghost predicate Drift(fs: seq<Finding>, rule: Rule, static_: seq<Tool>, live: seq<Tool>,
                        staticOnly: seq<string>, liveOnly: seq<string>) {
    && |fs| == |staticOnly| + |liveOnly|
    && DriftSide(fs[..|staticOnly|], rule, static_, live, Static, staticOnly)
    && DriftSide(fs[|staticOnly|..], rule, live, static_, Live, liveOnly)
  }

  method ReportNames(c: Context, tools: seq<Tool>, index: map<string, nat>, names: seq<string>, side: Side)
    requires forall n :: n in names ==> n in index && IsFirst(tools, index[n], n)
    modifies c
    ensures |c.findings| == |old(c.findings)| + |names| && old(c.findings) <= c.findings
    ensures forall k :: 0 <= k < |names| ==>
              DriftFinding(c.findings[|old(c.findings)| + k], c.rule, tools, side, names[k])
  {
    for k := 0 to |names|
      invariant |c.findings| == |old(c.findings)| + k && old(c.findings) <= c.findings
      invariant forall j :: 0 <= j < k ==>
                  DriftFinding(c.findings[|old(c.findings)| + j], c.rule, tools, side, names[j])
    {
      var name := names[k];
      assert name in names;
      c.ReportTool(tools[index[name]], DriftMessage(side, name));
    }
  }

  /** The rule's callback; a missing set on either side is not compared. */
  method StaticVsLiveRule(c: Context, staticSet: Option<seq<Tool>>, liveSet: Option<seq<Tool>>)
    returns (ghost staticOnly: seq<string>, ghost liveOnly: seq<string>)
    requires c.findings == []
    modifies c
    ensures if staticSet.None? || liveSet.None? then c.findings == []
            else Drift(c.findings, c.rule, staticSet.value, liveSet.value, staticOnly, liveOnly)
  {
    staticOnly, liveOnly := [], [];
    if staticSet.None? || liveSet.None? { return; }
    var staticByName := IndexByName(staticSet.value);
    var liveByName := IndexByName(liveSet.value);
    var onlyStatic := OnlyIn(staticByName, liveByName);
    ReportNames(c, staticSet.value, staticByName, onlyStatic, Static);
    ghost var first := c.findings;
    assert DriftSide(first, c.rule, staticSet.value, liveSet.value, Static, onlyStatic);
    var onlyLive := OnlyIn(liveByName, staticByName);
    ReportNames(c, liveSet.value, liveByName, onlyLive, Live);
    assert c.findings[..|onlyStatic|] == first;
    assert DriftSide(c.findings[|onlyStatic|..], c.rule, liveSet.value, staticSet.value, Live, onlyLive);
    staticOnly, liveOnly := onlyStatic, onlyLive;
  }

  /** No finding means that both sides use the same names, and conversely. */
  lemma NoDriftIff(fs: seq<Finding>, rule: Rule, static_: seq<Tool>, live: seq<Tool>,
                   staticOnly: seq<string>, liveOnly: seq<string>)
    requires Drift(fs, rule, static_, live, staticOnly, liveOnly)
    ensures fs == [] <==> forall n :: Named(static_, n) <==> Named(live, n)
  {
    if fs == [] {
      forall n ensures Named(static_, n) <==> Named(live, n) {
        assert n !in staticOnly && n !in liveOnly;
      }
    } else if staticOnly != [] {
      assert staticOnly[0] in staticOnly;
    } else {
      assert liveOnly[0] in liveOnly;
    }
  }

  /** Each finding says which side alone has the name, and carries the first tool of it
      on that side. */
  lemma DriftSays(fs: seq<Finding>, rule: Rule, static_: seq<Tool>, live: seq<Tool>,
                  staticOnly: seq<string>, liveOnly: seq<string>, k: nat)
    requires Drift(fs, rule, static_, live, staticOnly, liveOnly) && k < |fs|
    ensures k < |staticOnly| ==>
              && !Named(live, staticOnly[k])
              && exists i :: 0 <= i < |static_| && IsFirst(static_, i, staticOnly[k])
                             && SaysOf(fs[k], rule, static_[i], StaticOnly(staticOnly[k]))
    ensures |staticOnly| <= k ==>
              var name := liveOnly[k - |staticOnly|];
              && !Named(static_, name)
              && exists i :: 0 <= i < |live| && IsFirst(live, i, name)
                             && SaysOf(fs[k], rule, live[i], LiveOnly(name))
  {
    if k < |staticOnly| {
      var name := staticOnly[k];
      assert fs[..|staticOnly|][k] == fs[k] && name in staticOnly;
      assert DriftFinding(fs[..|staticOnly|][k], rule, static_, Static, name);
      var i :| 0 <= i < |static_| && IsFirst(static_, i, name)
               && fs[k] == Stamped(rule, Report(static_[i], DriftMessage(Static, name)));
      assert SaysOf(fs[k], rule, static_[i], StaticOnly(name));
    } else {
      var l := k - |staticOnly|;
      var name := liveOnly[l];
      assert fs[|staticOnly|..][l] == fs[k] && name in liveOnly;
      assert DriftFinding(fs[|staticOnly|..][l], rule, live, Live, name);
      var i :| 0 <= i < |live| && IsFirst(live, i, name)
               && fs[k] == Stamped(rule, Report(live[i], DriftMessage(Live, name)));
      assert SaysOf(fs[k], rule, live[i], LiveOnly(name));
    }
  }

  // ---------------------------------------------------------------------
  // The registry and the dispatcher
  // ---------------------------------------------------------------------

  ghost predicate UniqueIDs(rules: seq<Rule>) {
    forall i, j :: 0 <= i < j < |rules| ==> rules[i].id != rules[j].id
  }

  datatype Panic = NilRule | EmptyID | NoCallback | DuplicateID

  ghost predicate Taken(rules: seq<Rule>, id: string) {
    exists k :: 0 <= k < |rules| && rules[k].id == id
  }

  /** What Register panics with, in the order it looks. */
  ghost function Refusal(rules: seq<Rule>, r: Option<Rule>): Option<Panic> {
    match r
    case None => Some(NilRule)
    case Some(rule) =>
      if rule.id == "" then Some(EmptyID)
      else if !rule.perTool && rule.project.None? && rule.comparison.None? then Some(NoCallback)
      else if Taken(rules, rule.id) then Some(DuplicateID)
      else None
  }

  class Registry {
    var rules: seq<Rule>

    constructor ()
      ensures rules == []
    {
      rules := [];
    }

    /** None stands for a nil rule. A panic changes nothing, and ids stay unique. */
    method Register(r: Option<Rule>) returns (panic: Option<Panic>)
      requires UniqueIDs(rules)
      modifies this
      ensures UniqueIDs(rules)
      ensures panic == Refusal(old(rules), r)
      ensures panic == Some(NilRule) <==> r.None?
      ensures panic == Some(EmptyID) <==> r.Some? && r.value.id == ""
      ensures panic == Some(NoCallback) <==>
                && r.Some? && r.value.id != ""
                && !r.value.perTool && r.value.project.None? && r.value.comparison.None?
      ensures panic == Some(DuplicateID) <==>
                && r.Some? && r.value.id != ""
                && (r.value.perTool || r.value.project.Some? || r.value.comparison.Some?)
                && exists k :: 0 <= k < |old(rules)| && old(rules)[k].id == r.value.id
      ensures rules == if panic.Some? then old(rules) else old(rules) + [r.value]
    {
      if r.None? { return Some(NilRule); }
      var rule := r.value;
      if rule.id == "" { return Some(EmptyID); }
      if !rule.perTool && rule.project.None? && rule.comparison.None? { return Some(NoCallback); }
      for k := 0 to |rules|
        invariant forall j :: 0 <= j < k ==> rules[j].id != rule.id
        invariant rules == old(rules)
      {
        if rules[k].id == rule.id { return Some(DuplicateID); }
      }
      rules := rules + [rule];
      return None;
    }
  }

  function Concat(segments: seq<seq<Finding>>): seq<Finding> {
    if segments == [] then [] else Concat(segments[..|segments| - 1]) + segments[|segments| - 1]
  }

  /** The findings of one rule among all of them. */
  function Own(fs: seq<Finding>, id: string): seq<Finding> {
    if fs == [] then []
    else Own(fs[..|fs| - 1], id) + if fs[|fs| - 1].ruleID == id then [fs[|fs| - 1]] else []
  }

  ghost predicate From(fs: seq<Finding>, id: string) {
    forall k :: 0 <= k < |fs| ==> fs[k].ruleID == id
  }

  lemma {:induction false} OwnConcat(a: seq<Finding>, b: seq<Finding>, id: string)
    ensures Own(a + b, id) == Own(a, id) + Own(b, id)
  {
    if b == [] {
      assert a + b == a;
    } else {
      assert (a + b)[..|a + b| - 1] == a + b[..|b| - 1];
      OwnConcat(a, b[..|b| - 1], id);
    }
  }

  lemma {:induction false} OwnSegment(fs: seq<Finding>, from: string, id: string)
    requires From(fs, from)
    ensures Own(fs, id) == if from == id then fs else []
  {
    if fs != [] {
      OwnSegment(fs[..|fs| - 1], from, id);
      assert fs == fs[..|fs| - 1] + [fs[|fs| - 1]];
    }
  }

  /** Adding a segment adds it to the findings of its rule and of no other. */
  lemma OwnNext(segments: seq<seq<Finding>>, last: seq<Finding>, from: string, id: string)
    requires From(last, from)
    ensures Own(Concat(segments + [last]), id) == Own(Concat(segments), id) + if from == id then last else []
  {
    assert (segments + [last])[..|segments|] == segments;
    OwnConcat(Concat(segments), last, id);
    OwnSegment(last, from, id);
  }

  /** With unique ids every rule's findings can be told apart in the result. */
  lemma {:induction false} OwnFindings(segments: seq<seq<Finding>>, rules: seq<Rule>, k: nat)
    requires |segments| == |rules| && UniqueIDs(rules) && k < |rules|
    requires forall j :: 0 <= j < |rules| ==> From(segments[j], rules[j].id)
    ensures Own(Concat(segments), rules[k].id) == segments[k]
  {
    var last := |segments| - 1;
    var front, earlier := segments[..last], rules[..last];
    assert segments == front + [segments[last]];
    assert forall j :: 0 <= j < last ==> From(front[j], earlier[j].id);
    OwnNext(front, segments[last], rules[last].id, rules[k].id);
    if k == last {
      assert forall j :: 0 <= j < last ==> earlier[j].id != rules[k].id;
      NoneOwned(front, earlier, rules[k].id);
    } else {
      assert UniqueIDs(earlier);
      OwnFindings(front, earlier, k);
    }
  }

  lemma {:induction false} NoneOwned(segments: seq<seq<Finding>>, rules: seq<Rule>, id: string)
    requires |segments| == |rules|
    requires forall j :: 0 <= j < |rules| ==> From(segments[j], rules[j].id) && rules[j].id != id
    ensures Own(Concat(segments), id) == []
  {
    if segments != [] {
      var last := |segments| - 1;
      NoneOwned(segments[..last], rules[..last], id);
      OwnConcat(Concat(segments[..last]), segments[last], id);
      OwnSegment(segments[last], rules[last].id, id);
    }
  }

  /** What one rule contributes in the project phase. */
  ghost predicate ProjectSegment(fs: seq<Finding>, rule: Rule, tools: seq<Tool>) {
    match rule.project
    case None => fs == []
    case Some(Collision) => exists at :: CollisionsAt(fs, rule, tools, at)
    case Some(OtherProject(reports)) => fs == StampedAll(rule, reports(tools))
  }

  ghost predicate ComparisonSegment(fs: seq<Finding>, rule: Rule,
                                    staticSet: Option<seq<Tool>>, liveSet: Option<seq<Tool>>) {
    match rule.comparison
    case None => fs == []
    case Some(StaticVsLive) =>
      if staticSet.None? || liveSet.None? then fs == []
      else exists staticOnly, liveOnly :: Drift(fs, rule, staticSet.value, liveSet.value, staticOnly, liveOnly)
    case Some(OtherComparison(compare)) => fs == StampedAll(rule, compare(staticSet, liveSet))
  }

  lemma ProjectSegmentFrom(fs: seq<Finding>, rule: Rule, tools: seq<Tool>)
    requires ProjectSegment(fs, rule, tools)
    ensures From(fs, rule.id)
  {
    if rule.project == Some(Collision) {
      var at :| CollisionsAt(fs, rule, tools, at);
    }
  }

  lemma ComparisonSegmentFrom(fs: seq<Finding>, rule: Rule, staticSet: Option<seq<Tool>>, liveSet: Option<seq<Tool>>)
    requires ComparisonSegment(fs, rule, staticSet, liveSet)
    ensures From(fs, rule.id)
  {
    if rule.comparison == Some(StaticVsLive) && staticSet.Some? && liveSet.Some? {
      var so, lo :| Drift(fs, rule, staticSet.value, liveSet.value, so, lo);
      forall k | 0 <= k < |fs| ensures fs[k].ruleID == rule.id {
        if k < |so| {
          assert DriftFinding(fs[..|so|][k], rule, staticSet.value, Static, so[k]);
        } else {
          assert DriftFinding(fs[|so|..][k - |so|], rule, liveSet.value, Live, lo[k - |so|]);
        }
      }
    }
  }

  /** One rule over a fresh context. */
  method ApplyProject(rule: Rule, tools: seq<Tool>) returns (fs: seq<Finding>)
    ensures ProjectSegment(fs, rule, tools)
  {
    var c := new Context(rule);
    match rule.project {
      case None =>
      case Some(Collision) =>
        ghost var at := CollisionRule(c, tools);
      case Some(OtherProject(reports)) =>
        c.findings := StampedAll(rule, reports(tools));
    }
    fs := c.findings;
  }

  method ApplyComparison(rule: Rule, staticSet: Option<seq<Tool>>, liveSet: Option<seq<Tool>>)
    returns (fs: seq<Finding>)
    ensures ComparisonSegment(fs, rule, staticSet, liveSet)
  {
    var c := new Context(rule);
    match rule.comparison {
      case None =>
      case Some(StaticVsLive) =>
        ghost var so, lo := StaticVsLiveRule(c, staticSet, liveSet);
      case Some(OtherComparison(compare)) =>
        c.findings := StampedAll(rule, compare(staticSet, liveSet));
    }
    fs := c.findings;
  }

  /** Runs the project-scope rules in order. Among the findings, those under a
      rule's id are exactly what that rule contributes. */
  method RunProject(rules: seq<Rule>, tools: seq<Tool>)
    returns (findings: seq<Finding>, ghost segments: seq<seq<Finding>>)
    requires UniqueIDs(rules)
    ensures |segments| == |rules| && findings == Concat(segments)
    ensures forall k :: 0 <= k < |rules| ==> ProjectSegment(segments[k], rules[k], tools)
    ensures forall k :: 0 <= k < |rules| ==> ProjectSegment(Own(findings, rules[k].id), rules[k], tools)
  {
    findings := [];
    segments := [];
    for k := 0 to |rules|
      invariant |segments| == k && findings == Concat(segments)
      invariant forall j :: 0 <= j < k ==> ProjectSegment(segments[j], rules[j], tools)
    {
      var own := ApplyProject(rules[k], tools);
      findings := findings + own;
      assert (segments + [own])[..k] == segments;
      segments := segments + [own];
    }
    ProjectOwn(segments, rules, tools);
  }

  lemma ProjectOwn(segments: seq<seq<Finding>>, rules: seq<Rule>, tools: seq<Tool>)
    requires UniqueIDs(rules) && |segments| == |rules|
    requires forall j :: 0 <= j < |rules| ==> ProjectSegment(segments[j], rules[j], tools)
    ensures forall k :: 0 <= k < |rules| ==> Own(Concat(segments), rules[k].id) == segments[k]
  {
    forall j | 0 <= j < |rules| ensures From(segments[j], rules[j].id) {
      ProjectSegmentFrom(segments[j], rules[j], tools);
    }
    forall k | 0 <= k < |rules| ensures Own(Concat(segments), rules[k].id) == segments[k] {
      OwnFindings(segments, rules, k);
    }
  }

  lemma BeforeIsStrict(tools: seq<Tool>, i: nat, j: nat)
    requires i < |tools| && j < |tools|
    ensures !(Before(tools, i, j) && Before(tools, j, i)) && !Before(tools, i, i)
  {
    LessIsTotal(tools[i].name, tools[j].name);
    LessIsTotal(tools[i].name, tools[i].name);
  }

  lemma FirstsAgree(tools: seq<Tool>, a: seq<nat>, b: seq<nat>)
    requires InOrder(tools, a) && InOrder(tools, b) && a != [] && b != [] && forall i :: i in a <==> i in b
    ensures a[0] == b[0]
  {
    assert a[0] in b && b[0] in a;
    var k :| 0 <= k < |b| && b[k] == a[0];
    var l :| 0 <= l < |a| && a[l] == b[0];
    BeforeIsStrict(tools, a[0], b[0]);
  }

  lemma RestHas(tools: seq<Tool>, a: seq<nat>, i: nat)
    requires InOrder(tools, a) && a != []
    ensures i in a[1..] <==> i in a && i != a[0]
  {
    BeforeIsStrict(tools, a[0], a[0]);
    assert a == [a[0]] + a[1..];
  }

  /** An order by name and position is determined by its elements. */
  lemma {:induction false} OrderIsUnique(tools: seq<Tool>, a: seq<nat>, b: seq<nat>)
    requires InOrder(tools, a) && InOrder(tools, b) && forall i :: i in a <==> i in b
    ensures a == b
  {
    assert a != [] ==> a[0] in b;
    assert b != [] ==> b[0] in a;
    if a != [] {
      FirstsAgree(tools, a, b);
      forall i ensures i in a[1..] <==> i in b[1..] {
        RestHas(tools, a, i);
        RestHas(tools, b, i);
      }
      OrderIsUnique(tools, a[1..], b[1..]);
      assert a == [a[0]] + a[1..] && b == [b[0]] + b[1..];
    }
  }

  /** The tools determine the collision findings, whatever order the map yields. */
  lemma CollisionsAreDetermined(fs: seq<Finding>, gs: seq<Finding>, rule: Rule, tools: seq<Tool>,
                                a: seq<nat>, b: seq<nat>)
    requires CollisionsAt(fs, rule, tools, a) && CollisionsAt(gs, rule, tools, b)
    ensures fs == gs
  {
    OrderIsUnique(tools, a, b);
  }

  lemma SideIsDetermined(fs: seq<Finding>, gs: seq<Finding>, rule: Rule, here: seq<Tool>, there: seq<Tool>, side: Side,
                         a: seq<string>, b: seq<string>)
    requires DriftSide(fs, rule, here, there, side, a) && DriftSide(gs, rule, here, there, side, b)
    ensures fs == gs && a == b
  {
    StrictlySortedIsUnique(a, b);
    forall k | 0 <= k < |fs| ensures fs[k] == gs[k] {
      assert DriftFinding(fs[k], rule, here, side, a[k]) && DriftFinding(gs[k], rule, here, side, a[k]);
      var i :| 0 <= i < |here| && IsFirst(here, i, a[k])
               && fs[k] == Stamped(rule, Report(here[i], DriftMessage(side, a[k])));
      var j :| 0 <= j < |here| && IsFirst(here, j, a[k])
               && gs[k] == Stamped(rule, Report(here[j], DriftMessage(side, a[k])));
    }
  }

  /** The two sets determine the drift findings, whatever order the maps yield. */
  lemma DriftIsDetermined(fs: seq<Finding>, gs: seq<Finding>, rule: Rule, static_: seq<Tool>, live: seq<Tool>,
                          sa: seq<string>, la: seq<string>, sb: seq<string>, lb: seq<string>)
    requires Drift(fs, rule, static_, live, sa, la) && Drift(gs, rule, static_, live, sb, lb)
    ensures fs == gs
  {
    SideIsDetermined(fs[..|sa|], gs[..|sb|], rule, static_, live, Static, sa, sb);
    SideIsDetermined(fs[|sa|..], gs[|sb|..], rule, live, static_, Live, la, lb);
    assert fs == fs[..|sa|] + fs[|sa|..] && gs == gs[..|sb|] + gs[|sb|..];
  }

  lemma SegmentIsDetermined(fs: seq<Finding>, gs: seq<Finding>, rule: Rule, tools: seq<Tool>)
    requires ProjectSegment(fs, rule, tools) && ProjectSegment(gs, rule, tools)
    ensures fs == gs
  {
    if rule.project == Some(Collision) {
      var a :| CollisionsAt(fs, rule, tools, a);
      var b :| CollisionsAt(gs, rule, tools, b);
      CollisionsAreDetermined(fs, gs, rule, tools, a, b);
    }
  }

  lemma ComparisonIsDetermined(fs: seq<Finding>, gs: seq<Finding>, rule: Rule,
                               staticSet: Option<seq<Tool>>, liveSet: Option<seq<Tool>>)
    requires ComparisonSegment(fs, rule, staticSet, liveSet) && ComparisonSegment(gs, rule, staticSet, liveSet)
    ensures fs == gs
  {
    if rule.comparison == Some(StaticVsLive) && staticSet.Some? && liveSet.Some? {
      var sa, la :| Drift(fs, rule, staticSet.value, liveSet.value, sa, la);
      var sb, lb :| Drift(gs, rule, staticSet.value, liveSet.value, sb, lb);
      DriftIsDetermined(fs, gs, rule, staticSet.value, liveSet.value, sa, la, sb, lb);
    }
  }

  /** Running the same rules over the same sets twice gives the same findings. */
  lemma FindingsAreStable(rules: seq<Rule>, tools: seq<Tool>, staticSet: Option<seq<Tool>>, liveSet: Option<seq<Tool>>,
                          p: seq<seq<Finding>>, q: seq<seq<Finding>>, c: seq<seq<Finding>>, d: seq<seq<Finding>>)
    requires |p| == |q| == |c| == |d| == |rules|
    requires forall k :: 0 <= k < |rules| ==>
               ProjectSegment(p[k], rules[k], tools) && ProjectSegment(q[k], rules[k], tools)
    requires forall k :: 0 <= k < |rules| ==>
               && ComparisonSegment(c[k], rules[k], staticSet, liveSet)
               && ComparisonSegment(d[k], rules[k], staticSet, liveSet)
    ensures Concat(p) == Concat(q) && Concat(c) == Concat(d)
  {
    forall k | 0 <= k < |rules| ensures p[k] == q[k] && c[k] == d[k] {
      SegmentIsDetermined(p[k], q[k], rules[k], tools);
      ComparisonIsDetermined(c[k], d[k], rules[k], staticSet, liveSet);
    }
    assert p == q && c == d;
  }

  /** Runs the comparison-scope rules in order, with the same guarantee as RunProject. */
  method RunComparison(rules: seq<Rule>, staticSet: Option<seq<Tool>>, liveSet: Option<seq<Tool>>)
    returns (findings: seq<Finding>, ghost segments: seq<seq<Finding>>)
    requires UniqueIDs(rules)
    ensures |segments| == |rules| && findings == Concat(segments)
    ensures forall k :: 0 <= k < |rules| ==> ComparisonSegment(segments[k], rules[k], staticSet, liveSet)
    ensures forall k :: 0 <= k < |rules| ==> ComparisonSegment(Own(findings, rules[k].id), rules[k], staticSet, liveSet)
  {
    findings := [];
    segments := [];
    for k := 0 to |rules|
      invariant |segments| == k && findings == Concat(segments)
      invariant forall j :: 0 <= j < k ==> ComparisonSegment(segments[j], rules[j], staticSet, liveSet)
    {
      var own := ApplyComparison(rules[k], staticSet, liveSet);
      findings := findings + own;
      assert (segments + [own])[..k] == segments;
      segments := segments + [own];
    }
    ComparisonOwn(segments, rules, staticSet, liveSet);
  }

  lemma ComparisonOwn(segments: seq<seq<Finding>>, rules: seq<Rule>,
                      staticSet: Option<seq<Tool>>, liveSet: Option<seq<Tool>>)
    requires UniqueIDs(rules) && |segments| == |rules|
    requires forall j :: 0 <= j < |rules| ==> ComparisonSegment(segments[j], rules[j], staticSet, liveSet)
    ensures forall k :: 0 <= k < |rules| ==> Own(Concat(segments), rules[k].id) == segments[k]
  {
    forall j | 0 <= j < |rules| ensures From(segments[j], rules[j].id) {
      ComparisonSegmentFrom(segments[j], rules[j], staticSet, liveSet);
    }
    forall k | 0 <= k < |rules| ensures Own(Concat(segments), rules[k].id) == segments[k] {
      OwnFindings(segments, rules, k);
    }
  }
}
