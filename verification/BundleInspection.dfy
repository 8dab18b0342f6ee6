/** inspect_bundle: which archives are accepted, and why an accepted one is a partition. */
module BundleInspection {
  import opened Options
  import opened BundleTree

  datatype Kind = Asset | Environment | Toolchain | Unknown

  /** A manifest entry; `archivePrefix` is taken without trailing slashes. */
  datatype Component = Component(
    id: string, kind: Kind, algorithmOk: bool, archivePrefix: Name, relativePath: Option<string>,
    fileCount: int, bytes: int, text: string)

  predicate IdFirst(c: char) { 'a' <= c <= 'z' || '0' <= c <= '9' }

  predicate LegalId(id: string) {
    |id| > 0 && IdFirst(id[0]) && forall k | 0 < k < |id| :: IdFirst(id[k]) || id[k] == '-'
  }

  /** [a-z0-9][a-z0-9-]* */
  lemma LegalIdExactly(id: string)
    ensures LegalId(id) <==>
            && id != "" && id[0] != '-'
            && forall c | c in id :: c == '-' || ('0' <= c && c <= '9') || ('a' <= c && c <= 'z')
  {
    forall k | 0 <= k < |id| ensures id[k] in id {}
  }

  function ExpectedPrefix(c: Component): Option<Name> {
    match c.kind
    case Asset => Some("payload/assets/" + c.id)
    case Environment => Some("payload/environment/" + c.id)
    case Toolchain => Some("payload/toolchains")
    case Unknown => None
  }

  /**
   What the role and the installed product prescribe: identifiers, target directories, case folding and the file digest.
   */
  datatype Rules = Rules(required: set<string>, allowed: set<string>, targets: map<string, string>,
                         fold: Name -> Name, fileDigest: Bytes -> string)

  function PrefixOf(c: Component): Name { c.archivePrefix + "/" }

  predicate Declares(c: Component, found: Summary) {
    found.fileCount == c.fileCount && found.bytes == c.bytes && found.text == c.text
  }

  /** Checks on one entry that need no other entry. */
  predicate ComponentOk(files: seq<Entry>, c: Component, rules: Rules) {
    && c.algorithmOk
    && ExpectedPrefix(c) == Some(c.archivePrefix)
    && (if c.kind == Asset then c.relativePath == (if c.id in rules.targets then Some(rules.targets[c.id]) else None)
        else c.relativePath == None)
    && Declares(c, ArchiveSummary(files, PrefixOf(c), rules.fileDigest))
  }

  predicate IdsAllowed(components: seq<Component>, rules: Rules) {
    && (forall k | 0 <= k < |components| :: LegalId(components[k].id) && components[k].id in rules.allowed)
    && (forall j, k | 0 <= j < k < |components| :: components[j].id != components[k].id)
    && (forall id | id in rules.required ::
          exists k | 0 <= k < |components| :: components[k].id == id && components[k].kind == Asset)
  }

  predicate Claimed(components: seq<Component>, manifestName: Name, name: Name) {
    name == manifestName || exists k | 0 <= k < |components| :: StartsWith(name, PrefixOf(components[k]))
  }

  ghost predicate PrefixesDiffer(components: seq<Component>, fold: Name -> Name) {
    forall j, k | 0 <= j < k < |components| :: fold(PrefixOf(components[j])) != fold(PrefixOf(components[k]))
  }

  ghost predicate PrefixSeen(components: seq<Component>, fold: Name -> Name, p: Name) {
    exists k | 0 <= k < |components| :: fold(PrefixOf(components[k])) == p
  }

  /** The verdict of a full inspection, stated over the whole archive. */
  ghost predicate Accepted(files: seq<Entry>, manifestName: Name, components: seq<Component>, rules: Rules)
  {
    && IdsAllowed(components, rules)
    && (forall k | 0 <= k < |components| :: ComponentOk(files, components[k], rules))
    && PrefixesDiffer(components, rules.fold)
    && (forall e | e in files :: Claimed(components, manifestName, e.name))
  }

  predicate ManifestName(name: Name) {
    name == "RotoWeave-DEPLOYMENT.json" || name == "AIFrameTools-DEPLOYMENT.json"
  }

  function NamesOf(s: seq<Entry>): set<Name> { set e | e in s :: e.name }

  lemma ComponentDeclares(files: seq<Entry>, c: Component, rules: Rules)
    requires ComponentOk(files, c, rules)
    ensures Declares(c, ArchiveSummary(files, PrefixOf(c), rules.fileDigest))
  {}

  /** The body of the loop over the manifest: format, path, target, counts, digest. */
  method InspectComponent(files: seq<Entry>, c: Component, rules: Rules) returns (ok: bool)
    ensures ok <==> ComponentOk(files, c, rules)
  {
    hide ArchiveSummary;
    if !c.algorithmOk { return false; }
    var expected: Name;
    match c.kind {
      case Asset => expected := "payload/assets/" + c.id;
      case Environment => expected := "payload/environment/" + c.id;
      case Toolchain => expected := "payload/toolchains";
      case Unknown => return false;
    }
    if c.archivePrefix != expected { return false; }
    if c.kind.Asset? {
      if c.id in rules.targets && c.relativePath != Some(rules.targets[c.id]) { return false; }
      if c.id !in rules.targets && c.relativePath.Some? { return false; }
    } else if c.relativePath.Some? {
      return false;
    }
    var found := ArchiveSummary(files, c.archivePrefix + "/", rules.fileDigest);
    if found.fileCount != c.fileCount || found.bytes != c.bytes { return false; }
    ok := found.text == c.text;
  }

  /** The checks on the identifiers of the manifest: form, repetition, role, required assets. */
  method InspectIds(components: seq<Component>, rules: Rules) returns (ok: bool)
    ensures ok <==> IdsAllowed(components, rules)
  {
    hide LegalId;
    if exists k | 0 <= k < |components| :: !LegalId(components[k].id) { return false; }
    if exists j, k | 0 <= j < k < |components| :: components[j].id == components[k].id { return false; }
    if exists k | 0 <= k < |components| :: components[k].id !in rules.allowed { return false; }
    if exists id | id in rules.required ::
        forall k | 0 <= k < |components| && components[k].id == id :: !components[k].kind.Asset? { return false; }
    ok := true;
  }

  /** The loop over the manifest: collects claimed names and folded prefixes, then looks for undeclared members. */
  method InspectBundle(files: seq<Entry>, manifestName: Name, components: seq<Component>, rules: Rules)
    returns (accepted: bool)
    ensures accepted <==> Accepted(files, manifestName, components, rules)
    ensures accepted ==> forall k | 0 <= k < |components| ::
                (var found := ArchiveSummary(files, PrefixOf(components[k]), rules.fileDigest);
                 && found.fileCount == components[k].fileCount && found.bytes == components[k].bytes
                 && found.text == components[k].text)
  {
    hide ComponentOk, Matching, PrefixOf, ArchiveSummary, IdsAllowed;
    var named := InspectIds(components, rules);
    if !named { return false; }
    var claimed := {manifestName};
    var prefixes: set<Name> := {};
    var index := 0;
    while index < |components|
      invariant 0 <= index <= |components|
      invariant forall k | 0 <= k < index :: ComponentOk(files, components[k], rules)
      invariant PrefixesDiffer(components[..index], rules.fold)
      invariant forall p :: p in prefixes <==> PrefixSeen(components[..index], rules.fold, p)
      invariant forall e | e in files :: e.name in claimed <==> Claimed(components[..index], manifestName, e.name)
    {
      var c := components[index];
      var ok := InspectComponent(files, c, rules);
      if !ok { return false; }
      PrefixesNext(components, index, rules.fold);
      if rules.fold(PrefixOf(c)) in prefixes {
        PrefixesShrink(components, index + 1, rules.fold);
        return false;
      }
      prefixes := prefixes + {rules.fold(PrefixOf(c))};
      MatchingStarts(files, PrefixOf(c));
      var names := NamesOf(Matching(files, PrefixOf(c)));
      forall e | e in files
        ensures e.name in claimed + names <==> Claimed(components[..index + 1], manifestName, e.name)
      {
        ClaimedNext(components, index, manifestName, e.name);
        assert e.name in names <==> StartsWith(e.name, PrefixOf(c));
      }
      claimed := claimed + names;
      index := index + 1;
    }
    assert components[..index] == components;
    forall k | 0 <= k < |components| ensures Declares(components[k], ArchiveSummary(files, PrefixOf(components[k]),
                                                                                    rules.fileDigest)) {
      ComponentDeclares(files, components[k], rules);
    }
    accepted := forall e | e in files :: e.name in claimed;
  }

  lemma PrefixesNext(components: seq<Component>, index: nat, fold: Name -> Name)
    requires index < |components|
    ensures PrefixesDiffer(components[..index + 1], fold)
       <==> PrefixesDiffer(components[..index], fold)
            && !PrefixSeen(components[..index], fold, fold(PrefixOf(components[index])))
    ensures forall p ::
              PrefixSeen(components[..index + 1], fold, p) <==>
              (PrefixSeen(components[..index], fold, p) || p == fold(PrefixOf(components[index])))
  {
    hide PrefixOf;
    var more, fewer := components[..index + 1], components[..index];
    assert forall k | 0 <= k < index :: more[k] == fewer[k];
    assert more[index] == components[index];
    forall p
      ensures PrefixSeen(more, fold, p) <==> (PrefixSeen(fewer, fold, p) || p == fold(PrefixOf(components[index])))
    {
      if PrefixSeen(fewer, fold, p) {
        var k :| 0 <= k < index && fold(PrefixOf(fewer[k])) == p;
        assert fold(PrefixOf(more[k])) == p;
      }
      if PrefixSeen(more, fold, p) {
        var k :| 0 <= k <= index && fold(PrefixOf(more[k])) == p;
        assert k < index ==> fold(PrefixOf(fewer[k])) == p;
      }
    }
  }

  lemma PrefixesShrink(components: seq<Component>, index: nat, fold: Name -> Name)
    requires index <= |components|
    ensures PrefixesDiffer(components, fold) ==> PrefixesDiffer(components[..index], fold)
  {}

  lemma ClaimedNext(components: seq<Component>, index: nat, manifestName: Name, name: Name)
    requires index < |components|
    ensures Claimed(components[..index + 1], manifestName, name)
       <==> Claimed(components[..index], manifestName, name) || StartsWith(name, PrefixOf(components[index]))
  {
    var more, fewer := components[..index + 1], components[..index];
    assert forall k | 0 <= k < index :: more[k] == fewer[k];
    assert more[index] == components[index];
  }

  // ---------------------------------------------------------------- the partition

  lemma SlashSplits(c: string, d: string, name: Name)
    requires '/' !in c && '/' !in d && StartsWith(name, c + "/") && StartsWith(name, d + "/")
    ensures c == d
  {
    assert name[|c|] == (c + "/")[|c|] == '/';
    assert name[|d|] == (d + "/")[|d|] == '/';
    assert forall k | 0 <= k < |c| :: name[k] == (c + "/")[k] == c[k];
    assert forall k | 0 <= k < |d| :: name[k] == (d + "/")[k] == d[k];
    assert |c| == |d|;
  }

  lemma LegalIdHasNoSlash(id: string)
    requires LegalId(id)
    ensures '/' !in id
  {}

  lemma StartsWithRest(name: Name, head: Name, tail: Name)
    requires StartsWith(name, head + tail)
    ensures StartsWith(name, head) && StartsWith(name[|head|..], tail)
  {
    assert name[..|head|] == (head + tail)[..|head|] == head;
    assert name[|head|..][..|tail|] == (head + tail)[|head|..] == tail;
  }

  /** No name starts with the prefixes of two components unless the prefixes are the same. */
  lemma PrefixFree(c: Component, d: Component, name: Name)
    requires LegalId(c.id) && LegalId(d.id)
    requires ExpectedPrefix(c) == Some(c.archivePrefix) && ExpectedPrefix(d) == Some(d.archivePrefix)
    requires StartsWith(name, PrefixOf(c)) && StartsWith(name, PrefixOf(d))
    ensures PrefixOf(c) == PrefixOf(d)
  {
    LegalIdHasNoSlash(c.id);
    LegalIdHasNoSlash(d.id);
    KindLetter(c, name);
    KindLetter(d, name);
    assert c.kind == d.kind;
    if c.kind != Toolchain {
      var head := if c.kind == Asset then "payload/assets/" else "payload/environment/";
      assert PrefixOf(c) == head + (c.id + "/") && PrefixOf(d) == head + (d.id + "/");
      StartsWithRest(name, head, c.id + "/");
      StartsWithRest(name, head, d.id + "/");
      SlashSplits(c.id, d.id, name[|head|..]);
    }
  }

  function Letter(kind: Kind): char {
    match kind
    case Asset => 'a'
    case Environment => 'e'
    case Toolchain => 't'
    case Unknown => '?'
  }

  lemma KindLetter(c: Component, name: Name)
    requires ExpectedPrefix(c) == Some(c.archivePrefix) && StartsWith(name, PrefixOf(c))
    ensures |name| > 8 && name[0] == 'p' && name[8] == Letter(c.kind)
  {
    assert name[0] == PrefixOf(c)[0] && name[8] == PrefixOf(c)[8];
  }

  /** Every member of an accepted bundle is the manifest or belongs to exactly one declared component. */
  lemma AcceptedIsPartition(files: seq<Entry>, manifestName: Name, components: seq<Component>, rules: Rules, name: Name)
    requires Accepted(files, manifestName, components, rules)
    requires ManifestName(manifestName) && exists e :: e in files && e.name == name
    ensures name == manifestName ==> forall k | 0 <= k < |components| :: !StartsWith(name, PrefixOf(components[k]))
    ensures name != manifestName ==> exists k | 0 <= k < |components| :: StartsWith(name, PrefixOf(components[k]))
    ensures forall j, k | 0 <= j < |components| && 0 <= k < |components| ::
              StartsWith(name, PrefixOf(components[j])) && StartsWith(name, PrefixOf(components[k])) ==> j == k
  {
    assert Claimed(components, manifestName, name);
    forall j, k | 0 <= j < |components| && 0 <= k < |components|
                  && StartsWith(name, PrefixOf(components[j])) && StartsWith(name, PrefixOf(components[k]))
      ensures j == k
    {
      assert ComponentOk(files, components[j], rules) && ComponentOk(files, components[k], rules);
      PrefixFree(components[j], components[k], name);
      assert rules.fold(PrefixOf(components[j])) == rules.fold(PrefixOf(components[k]));
    }
    forall k | 0 <= k < |components| && StartsWith(name, PrefixOf(components[k])) ensures name[0] == 'p' {
      assert ComponentOk(files, components[k], rules);
      KindLetter(components[k], name);
    }
  }

  function DeclaredBytes(components: seq<Component>): int {
    if components == [] then 0 else components[0].bytes + DeclaredBytes(components[1..])
  }

  function MatchedBytes(files: seq<Entry>, components: seq<Component>): nat {
    if components == [] then 0
    else TotalBytes(Matching(files, PrefixOf(components[0]))) + MatchedBytes(files, components[1..])
  }

  function BytesNamed(files: seq<Entry>, name: Name): nat {
    if files == [] then 0 else (if files[0].name == name then |files[0].content| else 0) + BytesNamed(files[1..], name)
  }

  /** How many of the components claim a name. */
  function Claims(components: seq<Component>, name: Name): nat {
    if components == [] then 0
    else (if StartsWith(name, PrefixOf(components[0])) then 1 else 0) + Claims(components[1..], name)
  }

  lemma {:induction false} MatchedBytesStep(files: seq<Entry>, components: seq<Component>)
    requires files != []
    ensures MatchedBytes(files, components) == Claims(components, files[0].name) * |files[0].content|
                                               + MatchedBytes(files[1..], components)
  {
    hide PrefixOf, StartsWith, Matching, TotalBytes;
    if components != [] {
      MatchedBytesStep(files, components[1..]);
      MatchingStep(files, PrefixOf(components[0]));
      var b, rest := |files[0].content|, Claims(components[1..], files[0].name);
      assert (rest + 1) * b == rest * b + b;
    }
  }

  lemma MatchingStep(files: seq<Entry>, prefix: Name)
    requires files != []
    ensures TotalBytes(Matching(files, prefix))
         == (if StartsWith(files[0].name, prefix) then |files[0].content| else 0)
            + TotalBytes(Matching(files[1..], prefix))
  {
    var rest := Matching(files[1..], prefix);
    assert ([files[0]] + rest)[1..] == rest;
    assert [] + rest == rest;
  }

  lemma {:induction false} MatchedBytesEmpty(components: seq<Component>)
    ensures MatchedBytes([], components) == 0
  {
    if components != [] { MatchedBytesEmpty(components[1..]); }
  }

  lemma {:induction false} ClaimsNone(components: seq<Component>, name: Name)
    requires forall k | 0 <= k < |components| :: !StartsWith(name, PrefixOf(components[k]))
    ensures Claims(components, name) == 0
  {
    if components != [] { ClaimsNone(components[1..], name); }
  }

  lemma {:induction false} ClaimsOnce(components: seq<Component>, name: Name, k: nat)
    requires k < |components| && StartsWith(name, PrefixOf(components[k]))
    requires forall j | 0 <= j < |components| && j != k :: !StartsWith(name, PrefixOf(components[j]))
    ensures Claims(components, name) == 1
  {
    if k == 0 { ClaimsNone(components[1..], name); } else { ClaimsOnce(components[1..], name, k - 1); }
  }

  lemma {:induction false} BytesAddUp(files: seq<Entry>, manifestName: Name, components: seq<Component>)
    requires forall e | e in files :: Claims(components, e.name) == if e.name == manifestName then 0 else 1
    ensures TotalBytes(files) == BytesNamed(files, manifestName) + MatchedBytes(files, components)
  {
    hide Claims, MatchedBytes;
    if files == [] {
      MatchedBytesEmpty(components);
    } else {
      assert files[0] in files && forall e | e in files[1..] :: e in files;
      MatchedBytesStep(files, components);
      BytesAddUp(files[1..], manifestName, components);
    }
  }

  lemma {:induction false} DeclaredIsMatched(files: seq<Entry>, components: seq<Component>, rules: Rules)
    requires forall k | 0 <= k < |components| :: ComponentOk(files, components[k], rules)
    ensures DeclaredBytes(components) == MatchedBytes(files, components)
  {
    if components != [] {
      assert ComponentOk(files, components[0], rules);
      assert forall k | 0 <= k < |components[1..]| :: components[1..][k] == components[k + 1];
      DeclaredIsMatched(files, components[1..], rules);
    }
  }

  /** The declared component sizes and the manifest add up to every byte in the archive. */
  lemma AcceptedAccountsForEveryByte(files: seq<Entry>, manifestName: Name, components: seq<Component>, rules: Rules)
    requires Accepted(files, manifestName, components, rules)
    requires ManifestName(manifestName)
    ensures TotalBytes(files) == BytesNamed(files, manifestName) + DeclaredBytes(components)
  {
    forall e | e in files ensures Claims(components, e.name) == if e.name == manifestName then 0 else 1 {
      AcceptedIsPartition(files, manifestName, components, rules, e.name);
      if e.name == manifestName {
        ClaimsNone(components, e.name);
      } else {
        var k :| 0 <= k < |components| && StartsWith(e.name, PrefixOf(components[k]));
        ClaimsOnce(components, e.name, k);
      }
    }
    BytesAddUp(files, manifestName, components);
    DeclaredIsMatched(files, components, rules);
  }

  // ---------------------------------------------------------------- the digest decides the content

  /** Two archives with the same digested text under a prefix extract to the same tree there. */
  lemma SameTextSameTree(a: seq<Entry>, b: seq<Entry>, prefix: Name, fileDigest: Bytes -> string)
    requires DistinctNames(a) && DistinctNames(b) && HexDigest(fileDigest) && NoCollision(a, b, fileDigest)
    requires (forall e | e in a :: '\0' !in e.name) && (forall e | e in b :: '\0' !in e.name)
    requires ArchiveSummary(a, prefix, fileDigest).text == ArchiveSummary(b, prefix, fileDigest).text
    ensures Extract(a, prefix) == Extract(b, prefix)
  {
    hide ArchiveSummary, TreeSummary;
    var walk := Strip(Matching(b, prefix), prefix);
    MatchingStarts(b, prefix);
    MatchingDistinct(b, prefix);
    StripDistinct(Matching(b, prefix), prefix);
    InspectAgreesWithExtract(b, prefix, walk, fileDigest);
    SuffixesNoNul(b, prefix);
    SummaryDeterminesTree(Extract(b, prefix), walk, a, prefix, fileDigest);
  }

  /** Of all archives without colliding files that one manifest lets pass, each component extracts to one tree. */
  lemma ManifestDeterminesTrees(a: seq<Entry>, b: seq<Entry>, nameA: Name, nameB: Name, components: seq<Component>,
                                rules: Rules, k: nat)
    requires Accepted(a, nameA, components, rules) && Accepted(b, nameB, components, rules) && k < |components|
    requires DistinctNames(a) && DistinctNames(b) && HexDigest(rules.fileDigest) && NoCollision(a, b, rules.fileDigest)
    requires (forall e | e in a :: '\0' !in e.name) && (forall e | e in b :: '\0' !in e.name)
    ensures Extract(a, PrefixOf(components[k])) == Extract(b, PrefixOf(components[k]))
  {
    hide ComponentOk, PrefixOf, ArchiveSummary, Extract;
    ComponentDeclares(a, components[k], rules);
    ComponentDeclares(b, components[k], rules);
    SameTextSameTree(a, b, PrefixOf(components[k]), rules.fileDigest);
  }
}
