/** export_bundle: the archive it writes is accepted by its own inspection and extracts to the exported trees. */
module BundleExport {
  import opened Options
  import opened BundleTree
  import opened BundleInspection

  const MANIFEST_NAME := "RotoWeave-DEPLOYMENT.json"

  /** One tree to export; the digest and the archive meet its files in orders of their own. */
  datatype Source = Source(id: string, kind: Kind, walk: seq<Entry>, packed: seq<Entry>)

  /** The manifest entry of a source. */
  function Describe(s: Source, rules: Rules): Component {
    var summary := TreeSummary(s.walk, rules.fileDigest);
    Component(s.id, s.kind, true, Prefix(s),
              if s.kind == Asset && s.id in rules.targets then Some(rules.targets[s.id]) else None,
              summary.fileCount, summary.bytes, summary.text)
  }

  function Prefix(s: Source): Name {
    match s.kind
    case Asset => "payload/assets/" + s.id
    case Environment => "payload/environment/" + s.id
    case Toolchain => "payload/toolchains"
    case Unknown => ""
  }

  function Root(s: Source): Name { Prefix(s) + "/" }

  function Components(sources: seq<Source>, rules: Rules): seq<Component> {
    seq(|sources|, k requires 0 <= k < |sources| => Describe(sources[k], rules))
  }

  /** The trees one after the other, each under its prefix. */
  function Payload(sources: seq<Source>): seq<Entry> {
    if sources == [] then [] else Prefixed(sources[0].packed, Root(sources[0])) + Payload(sources[1..])
  }

  function Archive(sources: seq<Source>, manifest: Bytes): seq<Entry> {
    [Entry(MANIFEST_NAME, manifest)] + Payload(sources)
  }

  predicate Lower(name: Name) {
    forall k | 0 <= k < |name| :: name[k] < 128 as char && !('A' <= name[k] <= 'Z')
  }

  /** str.casefold leaves ASCII text without capitals alone. */
  ghost predicate FoldsCase(fold: Name -> Name) {
    forall name | Lower(name) :: fold(name) == name
  }

  /** Both orders list the files of one tree, under an identifier that the role knows. */
  ghost predicate SourceOk(s: Source, rules: Rules) {
    && DistinctNames(s.walk) && multiset(s.packed) == multiset(s.walk)
    && LegalId(s.id) && s.id in rules.allowed && s.kind != Unknown
  }

  /** Every asset of the role and no identifier twice; there is one toolchain tree at most. */
  ghost predicate SourcesOk(sources: seq<Source>, rules: Rules) {
    && (forall k | 0 <= k < |sources| :: SourceOk(sources[k], rules))
    && (forall j, k | 0 <= j < k < |sources| ::
          sources[j].id != sources[k].id && !(sources[j].kind == Toolchain == sources[k].kind))
    && (forall id | id in rules.required ::
          exists k | 0 <= k < |sources| :: sources[k].id == id && sources[k].kind == Asset)
  }

  // ---------------------------------------------------------------- prefixes

  lemma RootIsPrefix(s: Source, rules: Rules)
    requires s.kind != Unknown
    ensures PrefixOf(Describe(s, rules)) == Root(s) && ExpectedPrefix(Describe(s, rules)) == Some(Prefix(s))
  {}

  lemma RootLetters(s: Source, rules: Rules)
    requires s.kind != Unknown
    ensures |Root(s)| > 8 && Root(s)[0] == 'p' && Root(s)[8] == Letter(s.kind)
  {
    RootIsPrefix(s, rules);
    KindLetter(Describe(s, rules), Root(s));
  }

  lemma TailsAgree(head: Name, a: Name, b: Name)
    requires head + a + "/" == head + b + "/"
    ensures a == b
  {
    var p, q := head + a + "/", head + b + "/";
    assert |a| == |b|;
    assert a == p[|head|..|head| + |a|] && b == q[|head|..|head| + |b|];
  }

  lemma SameRoot(s: Source, t: Source, rules: Rules)
    requires s.kind != Unknown && t.kind != Unknown && Root(s) == Root(t)
    ensures s.kind == t.kind && (s.kind != Toolchain ==> s.id == t.id)
  {
    RootLetters(s, rules);
    RootLetters(t, rules);
    assert s.kind == t.kind;
    match s.kind
    case Asset => TailsAgree("payload/assets/", s.id, t.id);
    case Environment => TailsAgree("payload/environment/", s.id, t.id);
    case _ =>
  }

  /** Different sources have no name in common. */
  lemma RootsApart(sources: seq<Source>, rules: Rules, j: nat, k: nat, name: Name)
    requires SourcesOk(sources, rules) && j < |sources| && k < |sources| && j != k
    ensures !(StartsWith(name, Root(sources[j])) && StartsWith(name, Root(sources[k])))
    ensures Root(sources[j]) != Root(sources[k])
  {
    var s, t := sources[j], sources[k];
    assert SourceOk(s, rules) && SourceOk(t, rules);
    if Root(s) == Root(t) { SameRoot(s, t, rules); }
    if StartsWith(name, Root(s)) && StartsWith(name, Root(t)) {
      RootIsPrefix(s, rules);
      RootIsPrefix(t, rules);
      PrefixFree(Describe(s, rules), Describe(t, rules), name);
    }
  }

  lemma RootIsLower(s: Source)
    requires LegalId(s.id)
    ensures Lower(Root(s))
  {
    assert forall k | 0 <= k < |s.id| :: IdFirst(s.id[k]) || s.id[k] == '-';
  }

  // ---------------------------------------------------------------- what lies under a prefix

  lemma {:induction false} MatchingAppends(a: seq<Entry>, b: seq<Entry>, prefix: Name)
    ensures Matching(a + b, prefix) == Matching(a, prefix) + Matching(b, prefix)
  {
    hide StartsWith;
    if a == [] {
      assert a + b == b;
    } else {
      var first := if StartsWith(a[0].name, prefix) then [a[0]] else [];
      MatchingAppends(a[1..], b, prefix);
      assert (a + b)[0] == a[0] && (a + b)[1..] == a[1..] + b;
      assert Matching(a + b, prefix) == first + Matching(a[1..] + b, prefix);
      Associates(first, Matching(a[1..], prefix), Matching(b, prefix));
    }
  }

  lemma Associates(a: seq<Entry>, b: seq<Entry>, c: seq<Entry>)
    ensures a + (b + c) == (a + b) + c
  {}

  lemma {:induction false} MatchingAll(s: seq<Entry>, prefix: Name)
    requires forall e | e in s :: StartsWith(e.name, prefix)
    ensures Matching(s, prefix) == s
  {
    if s != [] {
      assert s[0] in s && forall e | e in s[1..] :: e in s;
      MatchingAll(s[1..], prefix);
    }
  }

  lemma {:induction false} MatchingNone(s: seq<Entry>, prefix: Name)
    requires forall e | e in s :: !StartsWith(e.name, prefix)
    ensures Matching(s, prefix) == []
  {
    if s != [] {
      assert s[0] in s && forall e | e in s[1..] :: e in s;
      MatchingNone(s[1..], prefix);
    }
  }

  lemma PrefixedStarts(s: seq<Entry>, prefix: Name)
    ensures forall e | e in Prefixed(s, prefix) :: StartsWith(e.name, prefix)
  {
    forall k | 0 <= k < |s| ensures StartsWith(Prefixed(s, prefix)[k].name, prefix) {
      assert (prefix + s[k].name)[..|prefix|] == prefix;
    }
  }

  lemma PrefixedDistinct(s: seq<Entry>, prefix: Name)
    requires DistinctNames(s)
    ensures DistinctNames(Prefixed(s, prefix))
  {
    forall i, j | 0 <= i < j < |s| ensures prefix + s[i].name != prefix + s[j].name {
      assert (prefix + s[i].name)[|prefix|..] == s[i].name && (prefix + s[j].name)[|prefix|..] == s[j].name;
    }
  }

  lemma CountedTwice(q: seq<Entry>, i: nat, j: nat)
    requires i < j < |q| && q[i] == q[j]
    ensures multiset(q)[q[i]] >= 2
  {
    assert q == q[..i] + [q[i]] + q[i + 1..j] + [q[j]] + q[j + 1..];
  }

  lemma NamedOnce(p: seq<Entry>, e: Entry, f: Entry)
    requires DistinctNames(p) && e in p && f in p && e.name == f.name
    ensures e == f
  {
    var i :| 0 <= i < |p| && p[i] == e;
    var j :| 0 <= j < |p| && p[j] == f;
  }

  lemma PermutedDistinct(p: seq<Entry>, q: seq<Entry>)
    requires DistinctNames(p) && multiset(p) == multiset(q)
    ensures DistinctNames(q)
  {
    forall i, j | 0 <= i < j < |q| ensures q[i].name != q[j].name {
      assert q[i] in multiset(p) && q[j] in multiset(p);
      OccursOnce(p, q[i]);
      if q[i].name == q[j].name {
        NamedOnce(p, q[i], q[j]);
        CountedTwice(q, i, j);
      }
    }
  }

  lemma PrefixedPermutes(p: seq<Entry>, q: seq<Entry>, prefix: Name)
    requires DistinctNames(p) && multiset(p) == multiset(q)
    ensures multiset(Prefixed(p, prefix)) == multiset(Prefixed(q, prefix))
  {
    PermutedDistinct(p, q);
    PrefixedDistinct(p, prefix);
    PrefixedDistinct(q, prefix);
    forall e ensures multiset(Prefixed(p, prefix))[e] == multiset(Prefixed(q, prefix))[e] {
      OccursOnce(Prefixed(p, prefix), e);
      OccursOnce(Prefixed(q, prefix), e);
      PrefixedMember(p, q, prefix, e);
      PrefixedMember(q, p, prefix, e);
    }
  }

  lemma PrefixedMember(p: seq<Entry>, q: seq<Entry>, prefix: Name, e: Entry)
    requires multiset(p) == multiset(q)
    ensures e in Prefixed(p, prefix) ==> e in Prefixed(q, prefix)
  {
    if e in Prefixed(p, prefix) {
      var k :| 0 <= k < |p| && Prefixed(p, prefix)[k] == e;
      assert p[k] in multiset(q);
      var m :| 0 <= m < |q| && q[m] == p[k];
      assert Prefixed(q, prefix)[m] == e;
    }
  }

  /** Where a payload member comes from. */
  lemma {:induction false} PayloadMember(sources: seq<Source>, e: Entry) returns (k: nat)
    requires e in Payload(sources)
    ensures k < |sources| && e in Prefixed(sources[k].packed, Root(sources[k]))
  {
    if e in Prefixed(sources[0].packed, Root(sources[0])) {
      k := 0;
    } else {
      var rest := PayloadMember(sources[1..], e);
      k := rest + 1;
    }
  }

  lemma TailSources(sources: seq<Source>, rules: Rules)
    requires sources != [] && Apart(sources, rules)
    ensures Apart(sources[1..], rules)
  {
    assert forall k | 0 <= k < |sources[1..]| :: sources[1..][k] == sources[k + 1];
    forall j: nat, k: nat, name: Name | j < |sources[1..]| && k < |sources[1..]| && j != k
      ensures !(StartsWith(name, Root(sources[1..][j])) && StartsWith(name, Root(sources[1..][k])))
    {
      assert !(StartsWith(name, Root(sources[j + 1])) && StartsWith(name, Root(sources[k + 1])));
    }
  }

  /** What the payload needs of the sources, also of the last few of them. */
  ghost predicate Apart(sources: seq<Source>, rules: Rules) {
    && (forall k | 0 <= k < |sources| :: SourceOk(sources[k], rules))
    && (forall j: nat, k: nat, name: Name | j < |sources| && k < |sources| && j != k ::
          !(StartsWith(name, Root(sources[j])) && StartsWith(name, Root(sources[k]))))
  }

  lemma {:induction false} PayloadMatching(sources: seq<Source>, rules: Rules, k: nat)
    requires Apart(sources, rules) && k < |sources|
    ensures Matching(Payload(sources), Root(sources[k])) == Prefixed(sources[k].packed, Root(sources[k]))
  {
    hide SourceOk, Root, Prefixed, StartsWith;
    var first, rest := Prefixed(sources[0].packed, Root(sources[0])), Payload(sources[1..]);
    PrefixedStarts(sources[0].packed, Root(sources[0]));
    MatchingAppends(first, rest, Root(sources[k]));
    TailSources(sources, rules);
    if k == 0 {
      MatchingAll(first, Root(sources[0]));
      forall e | e in rest ensures !StartsWith(e.name, Root(sources[0])) {
        var m := PayloadMember(sources[1..], e);
        PrefixedStarts(sources[m + 1].packed, Root(sources[m + 1]));
      }
      MatchingNone(rest, Root(sources[0]));
    } else {
      PayloadMatching(sources[1..], rules, k - 1);
      MatchingNone(first, Root(sources[k]));
    }
  }

  lemma ConcatDistinct(a: seq<Entry>, b: seq<Entry>)
    requires DistinctNames(a) && DistinctNames(b) && forall e, f | e in a && f in b :: e.name != f.name
    ensures DistinctNames(a + b)
  {}

  lemma {:induction false} PayloadDistinct(sources: seq<Source>, rules: Rules)
    requires Apart(sources, rules)
    ensures DistinctNames(Payload(sources))
  {
    hide Root, Prefixed, StartsWith;
    if sources != [] {
      var first, rest := Prefixed(sources[0].packed, Root(sources[0])), Payload(sources[1..]);
      TailSources(sources, rules);
      PayloadDistinct(sources[1..], rules);
      PermutedDistinct(sources[0].walk, sources[0].packed);
      PrefixedDistinct(sources[0].packed, Root(sources[0]));
      PrefixedStarts(sources[0].packed, Root(sources[0]));
      forall e, f | e in first && f in rest ensures e.name != f.name {
        var m := PayloadMember(sources[1..], f);
        PrefixedStarts(sources[m + 1].packed, Root(sources[m + 1]));
      }
      ConcatDistinct(first, rest);
    }
  }

  lemma PayloadNames(sources: seq<Source>, rules: Rules, e: Entry)
    requires Apart(sources, rules) && e in Payload(sources)
    ensures e.name != MANIFEST_NAME && !StartsWith(e.name, MANIFEST_NAME)
    ensures exists k | 0 <= k < |sources| :: StartsWith(e.name, Root(sources[k]))
  {
    hide Root, Prefixed, Payload, LegalId, DistinctNames;
    var k := PayloadMember(sources, e);
    assert SourceOk(sources[k], rules);
    PrefixedStarts(sources[k].packed, Root(sources[k]));
    RootLetters(sources[k], rules);
    NotManifest(e.name, Root(sources[k]));
  }

  lemma NotManifest(name: Name, root: Name)
    requires StartsWith(name, root) && root != "" && root[0] == 'p'
    ensures name != MANIFEST_NAME && !StartsWith(name, MANIFEST_NAME)
  {
    assert name[0] == root[0] != MANIFEST_NAME[0];
  }

  lemma ApartSources(sources: seq<Source>, rules: Rules)
    requires SourcesOk(sources, rules)
    ensures Apart(sources, rules)
  {
    forall j: nat, k: nat, name: Name | j < |sources| && k < |sources| && j != k
      ensures !(StartsWith(name, Root(sources[j])) && StartsWith(name, Root(sources[k])))
    {
      RootsApart(sources, rules, j, k, name);
    }
  }

  /** Under each prefix the whole archive holds exactly that component, and it extracts to the exported tree. */
  lemma ExportPacks(sources: seq<Source>, rules: Rules, manifest: Bytes, k: nat)
    requires SourcesOk(sources, rules) && k < |sources|
    ensures Packs(Archive(sources, manifest), Root(sources[k]), sources[k].walk)
    ensures Extract(Archive(sources, manifest), Root(sources[k])) == TreeOf(sources[k].walk)
    ensures ArchiveSummary(Archive(sources, manifest), Root(sources[k]), rules.fileDigest)
         == TreeSummary(sources[k].walk, rules.fileDigest)
  {
    ApartSources(sources, rules);
    PayloadMatching(sources, rules, k);
    ArchiveDistinct(sources, rules, manifest);
    var head := [Entry(MANIFEST_NAME, manifest)];
    MatchingAppends(head, Payload(sources), Root(sources[k]));
    assert SourceOk(sources[k], rules);
    RootLetters(sources[k], rules);
    MatchingNone(head, Root(sources[k]));
    PrefixedPermutes(sources[k].walk, sources[k].packed, Root(sources[k]));
    ExportRoundTrip(TreeOf(sources[k].walk), sources[k].walk, Archive(sources, manifest), Root(sources[k]),
                    rules.fileDigest);
  }

  lemma ArchiveDistinct(sources: seq<Source>, rules: Rules, manifest: Bytes)
    requires Apart(sources, rules)
    ensures DistinctNames(Archive(sources, manifest))
  {
    PayloadDistinct(sources, rules);
    forall e | e in Payload(sources) ensures e.name != MANIFEST_NAME { PayloadNames(sources, rules, e); }
    ConcatDistinct([Entry(MANIFEST_NAME, manifest)], Payload(sources));
  }

  /** What export_bundle writes meets every condition of a full inspection. */
  lemma ExportAccepted(sources: seq<Source>, rules: Rules, manifest: Bytes)
    requires SourcesOk(sources, rules) && FoldsCase(rules.fold)
    ensures Accepted(Archive(sources, manifest), MANIFEST_NAME, Components(sources, rules), rules)
    ensures ManifestName(MANIFEST_NAME)
  {
    hide SourceOk, Describe, Root, PrefixOf, LegalId;
    var files, components := Archive(sources, manifest), Components(sources, rules);
    forall k | 0 <= k < |components| ensures ComponentOk(files, components[k], rules) {
      DescribedOk(sources, rules, manifest, k);
    }
    forall j, k | 0 <= j < k < |components|
      ensures rules.fold(PrefixOf(components[j])) != rules.fold(PrefixOf(components[k]))
    {
      FoldedRoot(sources[j], rules);
      FoldedRoot(sources[k], rules);
      RootsApart(sources, rules, j, k, "");
    }
    forall e | e in files ensures Claimed(components, MANIFEST_NAME, e.name) {
      if e in Payload(sources) {
        ApartSources(sources, rules);
        PayloadNames(sources, rules, e);
        var k :| 0 <= k < |sources| && StartsWith(e.name, Root(sources[k]));
        SourceRoot(sources[k], rules);
        assert StartsWith(e.name, PrefixOf(components[k]));
      }
    }
    IdsDescribed(sources, rules);
  }

  lemma SourceRoot(s: Source, rules: Rules)
    requires SourceOk(s, rules)
    ensures PrefixOf(Describe(s, rules)) == Root(s)
  {
    RootIsPrefix(s, rules);
  }

  lemma FoldedRoot(s: Source, rules: Rules)
    requires SourceOk(s, rules) && FoldsCase(rules.fold)
    ensures rules.fold(PrefixOf(Describe(s, rules))) == Root(s)
  {
    RootIsPrefix(s, rules);
    RootIsLower(s);
  }

  lemma DescribedOk(sources: seq<Source>, rules: Rules, manifest: Bytes, k: nat)
    requires SourcesOk(sources, rules) && k < |sources|
    ensures ComponentOk(Archive(sources, manifest), Describe(sources[k], rules), rules)
  {
    hide Root, PrefixOf, TreeSummary, ArchiveSummary, Archive;
    assert SourceOk(sources[k], rules);
    RootIsPrefix(sources[k], rules);
    ExportPacks(sources, rules, manifest, k);
  }

  lemma IdsDescribed(sources: seq<Source>, rules: Rules)
    requires SourcesOk(sources, rules)
    ensures IdsAllowed(Components(sources, rules), rules)
  {
    hide LegalId, TreeSummary, Prefix;
    var components := Components(sources, rules);
    forall k | 0 <= k < |components| ensures LegalId(components[k].id) && components[k].id in rules.allowed {
      assert SourceOk(sources[k], rules);
    }
    forall id | id in rules.required
      ensures exists k | 0 <= k < |components| :: components[k].id == id && components[k].kind == Asset
    {
      var k :| 0 <= k < |sources| && sources[k].id == id && sources[k].kind == Asset;
      assert components[k].id == id;
    }
  }

  // ---------------------------------------------------------------- the export

  /**
   Describe every tree, write the manifest and the trees, inspect the result: the inspection of the components never
   refuses.  ValidateMembers, which it runs first, is about names and sizes and may.
   */
  method ExportBundle(sources: seq<Source>, manifest: Bytes, rules: Rules)
    returns (archive: seq<Entry>, components: seq<Component>, accepted: bool)
    requires SourcesOk(sources, rules) && FoldsCase(rules.fold)
    ensures accepted && Accepted(archive, MANIFEST_NAME, components, rules) && DistinctNames(archive)
    ensures |components| == |sources|
    ensures forall k | 0 <= k < |sources| ::
              components[k].id == sources[k].id && components[k].kind == sources[k].kind
              && Extract(archive, PrefixOf(components[k])) == TreeOf(sources[k].walk)
    ensures Matching(archive, MANIFEST_NAME) == [Entry(MANIFEST_NAME, manifest)]
  {
    hide SourceOk, Describe, Root, PrefixOf, Prefixed, Accepted, FoldsCase;
    components := [];
    for index := 0 to |sources|
      invariant components == Components(sources[..index], rules)
    {
      assert sources[..index + 1] == sources[..index] + [sources[index]];
      components := components + [Describe(sources[index], rules)];
    }
    assert sources[..|sources|] == sources;
    archive := [Entry(MANIFEST_NAME, manifest)];
    for index := 0 to |sources|
      invariant archive + Payload(sources[index..]) == Archive(sources, manifest)
    {
      var more := Prefixed(sources[index].packed, Root(sources[index]));
      assert sources[index..][0] == sources[index] && sources[index..][1..] == sources[index + 1..];
      assert (archive + more) + Payload(sources[index + 1..]) == archive + (more + Payload(sources[index + 1..]));
      archive := archive + more;
    }
    assert archive == Archive(sources, manifest);
    ExportAccepted(sources, rules, manifest);
    ApartSources(sources, rules);
    ArchiveDistinct(sources, rules, manifest);
    accepted := InspectBundle(archive, MANIFEST_NAME, components, rules);
    forall k | 0 <= k < |sources|
      ensures components[k].id == sources[k].id && components[k].kind == sources[k].kind
              && Extract(archive, PrefixOf(components[k])) == TreeOf(sources[k].walk)
    {
      Exported(sources, rules, manifest, k);
    }
    ManifestAlone(sources, rules, manifest);
  }

  lemma Exported(sources: seq<Source>, rules: Rules, manifest: Bytes, k: nat)
    requires SourcesOk(sources, rules) && k < |sources|
    ensures var c := Components(sources, rules)[k];
            && c.id == sources[k].id && c.kind == sources[k].kind
            && Extract(Archive(sources, manifest), PrefixOf(c)) == TreeOf(sources[k].walk)
  {
    SourceRoot(sources[k], rules);
    ExportPacks(sources, rules, manifest, k);
  }

  lemma ManifestAlone(sources: seq<Source>, rules: Rules, manifest: Bytes)
    requires SourcesOk(sources, rules)
    ensures Matching(Archive(sources, manifest), MANIFEST_NAME) == [Entry(MANIFEST_NAME, manifest)]
  {
    var head := [Entry(MANIFEST_NAME, manifest)];
    ApartSources(sources, rules);
    forall e | e in Payload(sources) ensures !StartsWith(e.name, MANIFEST_NAME) {
      PayloadNames(sources, rules, e);
    }
    MatchingAppends(head, Payload(sources), MANIFEST_NAME);
    MatchingAll(head, MANIFEST_NAME);
    MatchingNone(Payload(sources), MANIFEST_NAME);
  }

  // ---------------------------------------------------------------- the roles of the product

  datatype Role = Client | Server | All

  const SERVER_RUNTIMES := "server-runtimes"
  const HOST_TOOLCHAINS := "host-toolchains"

  function RoleAssets(role: Role): seq<string> {
    if role == Client then [] else [SERVER_RUNTIMES]
  }

  function RoleEnvironments(role: Role): seq<string> {
    match role
    case Client => ["client-python", "client-node"]
    case Server => ["server-python", "server-node"]
    case All => ["client-python", "client-node", "server-python", "server-node"]
  }

  /** What inspect_bundle takes from the role. */
  function RoleRules(role: Role, targets: map<string, string>, fold: Name -> Name, fileDigest: Bytes -> string): Rules {
    var required := set c | c in RoleAssets(role);
    Rules(required, required + (set c | c in RoleEnvironments(role)) + {HOST_TOOLCHAINS}, targets, fold, fileDigest)
  }

  function Entries(role: Role, includeEnvironment: bool): seq<(string, Kind)> {
    Tagged(RoleAssets(role), Asset)
    + if includeEnvironment then Tagged(RoleEnvironments(role), Environment) + [(HOST_TOOLCHAINS, Toolchain)] else []
  }

  function Tagged(ids: seq<string>, kind: Kind): seq<(string, Kind)> {
    seq(|ids|, k requires 0 <= k < |ids| => (ids[k], kind))
  }

  /** Who exports what: the client no asset, both others the runtimes; nothing else without the environment. */
  lemma RoleTables()
    ensures RoleAssets(Client) == [] && RoleAssets(Server) == RoleAssets(All) == ["server-runtimes"]
    ensures forall role | role == Client || role == Server || role == All ::
              && |Entries(role, false)| == |RoleAssets(role)|
              && |Entries(role, true)| == |RoleAssets(role)| + |RoleEnvironments(role)| + 1
  {}

  /** Whatever trees a role exports, with or without the environment, meet what the export needs. */
  lemma RoleSourcesOk(role: Role, includeEnvironment: bool, sources: seq<Source>, rules: Rules)
    requires rules == RoleRules(role, rules.targets, rules.fold, rules.fileDigest)
    requires |sources| == |Entries(role, includeEnvironment)|
    requires forall k | 0 <= k < |sources| ::
               && (sources[k].id, sources[k].kind) == Entries(role, includeEnvironment)[k]
               && DistinctNames(sources[k].walk) && multiset(sources[k].packed) == multiset(sources[k].walk)
    ensures SourcesOk(sources, rules)
  {
    hide DistinctNames, LegalId;
    var entries := Entries(role, includeEnvironment);
    LegalIds();
    forall k | 0 <= k < |sources| ensures SourceOk(sources[k], rules) {
      assert entries[k] == (sources[k].id, sources[k].kind);
      EntryKnown(role, includeEnvironment, k);
    }
    EntriesApart(role, includeEnvironment);
    if role != Client { assert entries[0] == (SERVER_RUNTIMES, Asset); }
  }

  lemma LegalIds()
    ensures LegalId("client-python") && LegalId("client-node") && LegalId("server-python") && LegalId("server-node")
    ensures LegalId(SERVER_RUNTIMES) && LegalId(HOST_TOOLCHAINS)
  {}

  lemma EntryKnown(role: Role, includeEnvironment: bool, k: nat)
    requires k < |Entries(role, includeEnvironment)|
    ensures var (id, kind) := Entries(role, includeEnvironment)[k];
            kind != Unknown && LegalId(id)
            && (id in RoleAssets(role) || id in RoleEnvironments(role) || id == HOST_TOOLCHAINS)
  {
    hide LegalId;
    LegalIds();
  }

  lemma EntriesApart(role: Role, includeEnvironment: bool)
    ensures var entries := Entries(role, includeEnvironment);
            forall j, k | 0 <= j < k < |entries| ::
              entries[j].0 != entries[k].0 && !(entries[j].1 == Toolchain == entries[k].1)
  {}
}
