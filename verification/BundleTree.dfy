/**
 The tree digest of deployment bundles, computed three ways: from a directory, from an archive, and
 from what the archive extracts to.
 */
module BundleTree {
  import Decimal

  type Bytes = seq<bv8>
  type Name = string

  /** A regular file or archive member under its slash-separated name. */
  datatype Entry = Entry(name: Name, content: Bytes)

  type Tree = map<Name, Bytes>

  // ---------------------------------------------------------------- the order of names

  /** Code point order, as Python compares strings. */
  predicate Less(a: Name, b: Name) {
    if b == "" then false
    else if a == "" then true
    else a[0] < b[0] || (a[0] == b[0] && Less(a[1..], b[1..]))
  }

  lemma {:induction false} LessTotal(a: Name, b: Name)
    ensures !(Less(a, b) && Less(b, a))
    ensures a != b <==> Less(a, b) || Less(b, a)
  {
    if a != "" && b != "" {
      LessTotal(a[1..], b[1..]);
      assert a == [a[0]] + a[1..] && b == [b[0]] + b[1..];
    }
  }

  lemma {:induction false} LessTransitive(a: Name, b: Name, c: Name)
    requires Less(a, b) && Less(b, c)
    ensures Less(a, c)
  {
    if a != "" && a[0] == b[0] == c[0] { LessTransitive(a[1..], b[1..], c[1..]); }
  }

  /** A common prefix does not change the order. */
  lemma {:induction false} PrefixKeepsOrder(prefix: Name, a: Name, b: Name)
    ensures Less(prefix + a, prefix + b) <==> Less(a, b)
  {
    if prefix == "" {
      assert prefix + a == a && prefix + b == b;
    } else {
      PrefixKeepsOrder(prefix[1..], a, b);
      assert (prefix + a)[1..] == prefix[1..] + a;
      assert (prefix + b)[1..] == prefix[1..] + b;
    }
  }

  // ---------------------------------------------------------------- sorting

  predicate Sorted(s: seq<Entry>) {
    forall i, j | 0 <= i < j < |s| :: Less(s[i].name, s[j].name)
  }

  predicate DistinctNames(s: seq<Entry>) {
    forall i, j | 0 <= i < j < |s| :: s[i].name != s[j].name
  }

  function Insert(e: Entry, s: seq<Entry>): seq<Entry> {
    if s == [] || Less(e.name, s[0].name) then [e] + s else [s[0]] + Insert(e, s[1..])
  }

  function Sort(s: seq<Entry>): seq<Entry> {
    if s == [] then [] else Insert(s[0], Sort(s[1..]))
  }

  lemma {:induction false} InsertSorted(e: Entry, s: seq<Entry>)
    requires Sorted(s) && forall x | x in s :: x.name != e.name
    ensures Sorted(Insert(e, s)) && multiset(Insert(e, s)) == multiset(s) + multiset{e}
  {
    if s == [] {
    } else if Less(e.name, s[0].name) {
      forall k | 0 <= k < |s| ensures Less(e.name, s[k].name) {
        if k > 0 { LessTransitive(e.name, s[0].name, s[k].name); }
      }
    } else {
      assert s == [s[0]] + s[1..];
      LessTotal(e.name, s[0].name);
      assert s[0] in s;
      InsertSorted(e, s[1..]);
      var r := Insert(e, s[1..]);
      forall k | 0 <= k < |r| ensures Less(s[0].name, r[k].name) {
        assert r[k] in multiset(r);
        if r[k] != e {
          assert r[k] in s[1..];
          var m :| 0 <= m < |s[1..]| && s[1..][m] == r[k];
          assert s[m + 1] == r[k];
        }
      }
    }
  }

  lemma {:induction false} SortSorted(s: seq<Entry>)
    requires DistinctNames(s)
    ensures Sorted(Sort(s)) && multiset(Sort(s)) == multiset(s)
  {
    if s != [] {
      SortSorted(s[1..]);
      assert s == [s[0]] + s[1..];
      forall x | x in Sort(s[1..]) ensures x.name != s[0].name {
        assert x in multiset(Sort(s[1..]));
        assert x in s[1..];
        var k :| 0 <= k < |s[1..]| && s[1..][k] == x;
        assert s[k + 1] == x;
      }
      InsertSorted(s[0], Sort(s[1..]));
    }
  }

  lemma SameFirst(p: seq<Entry>, q: seq<Entry>)
    requires Sorted(p) && Sorted(q) && p != [] && q != [] && p[0] in q && q[0] in p
    ensures p[0] == q[0]
  {
    var i :| 0 <= i < |q| && q[i] == p[0];
    var j :| 0 <= j < |p| && p[j] == q[0];
    LessTotal(p[0].name, q[0].name);
  }

  /** A sorted listing is determined by its members. */
  lemma {:induction false} SortedUnique(p: seq<Entry>, q: seq<Entry>)
    requires Sorted(p) && Sorted(q) && multiset(p) == multiset(q)
    ensures p == q
  {
    assert |p| == |multiset(p)| == |q|;
    if p != [] {
      assert p[0] in multiset(q) && q[0] in multiset(p);
      SameFirst(p, q);
      assert p == [p[0]] + p[1..] && q == [q[0]] + q[1..];
      assert multiset(p[1..]) == multiset(p) - multiset{p[0]};
      assert multiset(q[1..]) == multiset(q) - multiset{q[0]};
      SortedUnique(p[1..], q[1..]);
    }
  }

  /** The sorted listing does not depend on the order in which the entries are met. */
  lemma SortOrderFree(p: seq<Entry>, q: seq<Entry>)
    requires DistinctNames(p) && DistinctNames(q) && multiset(p) == multiset(q)
    ensures Sort(p) == Sort(q)
  {
    SortSorted(p);
    SortSorted(q);
    SortedUnique(Sort(p), Sort(q));
  }

  // ---------------------------------------------------------------- the digested text

  function Line(e: Entry, fileDigest: Bytes -> string): string {
    e.name + ['\0'] + Decimal.Print(|e.content|) + ['\0'] + fileDigest(e.content) + ['\n']
  }

  function Text(s: seq<Entry>, fileDigest: Bytes -> string): string {
    if s == [] then "" else Line(s[0], fileDigest) + Text(s[1..], fileDigest)
  }

  function TotalBytes(s: seq<Entry>): nat {
    if s == [] then 0 else |s[0].content| + TotalBytes(s[1..])
  }

  /** What a manifest declares about a component; the digest is represented by the text it digests. */
  datatype Summary = Summary(fileCount: nat, bytes: nat, text: string)

  /** tree_summary over a directory whose walk meets the files in this order. */
  function TreeSummary(walk: seq<Entry>, fileDigest: Bytes -> string): Summary {
    Summary(|walk|, TotalBytes(walk), Text(Sort(walk), fileDigest))
  }

  // ---------------------------------------------------------------- archives

  predicate StartsWith(name: Name, prefix: Name) {
    |prefix| <= |name| && name[..|prefix|] == prefix
  }

  function Matching(archive: seq<Entry>, prefix: Name): seq<Entry> {
    if archive == [] then []
    else (if StartsWith(archive[0].name, prefix) then [archive[0]] else []) + Matching(archive[1..], prefix)
  }

  /** name[len(prefix):] */
  function Cut(name: Name, prefix: Name): Name {
    if |prefix| <= |name| then name[|prefix|..] else ""
  }

  function Strip(s: seq<Entry>, prefix: Name): seq<Entry> {
    seq(|s|, i requires 0 <= i < |s| => Entry(Cut(s[i].name, prefix), s[i].content))
  }

  lemma {:induction false} MatchingStarts(archive: seq<Entry>, prefix: Name)
    ensures forall e :: e in Matching(archive, prefix) <==> e in archive && StartsWith(e.name, prefix)
  {
    if archive != [] {
      MatchingStarts(archive[1..], prefix);
      assert forall e :: e in archive <==> e == archive[0] || e in archive[1..];
    }
  }

  lemma {:induction false} MatchingDistinct(archive: seq<Entry>, prefix: Name)
    requires DistinctNames(archive)
    ensures DistinctNames(Matching(archive, prefix))
  {
    if archive != [] {
      MatchingDistinct(archive[1..], prefix);
      MatchingStarts(archive[1..], prefix);
      var rest := Matching(archive[1..], prefix);
      forall k | 0 <= k < |rest| ensures rest[k].name != archive[0].name {
        assert rest[k] in archive[1..];
        var m :| 0 <= m < |archive[1..]| && archive[1..][m] == rest[k];
        assert archive[m + 1] == rest[k];
      }
    }
  }

  /** inspect_bundle: members are sorted by full name, the prefix is cut off each line. */
  function ArchiveSummary(archive: seq<Entry>, prefix: Name, fileDigest: Bytes -> string): Summary {
    var sorted := Sort(Matching(archive, prefix));
    Summary(|Matching(archive, prefix)|, TotalBytes(Matching(archive, prefix)), Text(Strip(sorted, prefix), fileDigest))
  }

  /** _extract_component: one file per member under the prefix. */
  function Extract(archive: seq<Entry>, prefix: Name): Tree {
    TreeOf(Strip(Matching(archive, prefix), prefix))
  }

  function TreeOf(s: seq<Entry>): Tree {
    if s == [] then map[] else TreeOf(s[1..])[s[0].name := s[0].content]
  }

  /** `walk` meets every file of the tree once. */
  ghost predicate Walks(walk: seq<Entry>, tree: Tree) {
    DistinctNames(walk) && TreeOf(walk) == tree
  }

  lemma {:induction false} TreeOfMembers(s: seq<Entry>)
    requires DistinctNames(s)
    ensures forall e :: e in s <==> e.name in TreeOf(s) && TreeOf(s)[e.name] == e.content
  {
    if s != [] {
      TreeOfMembers(s[1..]);
      assert forall e :: e in s <==> e == s[0] || e in s[1..];
      forall e | e in s[1..] ensures e.name != s[0].name {
        var k :| 0 <= k < |s[1..]| && s[1..][k] == e;
        assert s[k + 1] == e;
      }
    }
  }

  lemma {:induction false} OccursOnce(s: seq<Entry>, e: Entry)
    requires DistinctNames(s)
    ensures multiset(s)[e] == if e in s then 1 else 0
  {
    if s != [] {
      OccursOnce(s[1..], e);
      assert s == [s[0]] + s[1..];
      forall k | 0 <= k < |s[1..]| ensures s[1..][k] != s[0] { assert s[k + 1].name != s[0].name; }
    }
  }

  /** All walks of one tree are permutations of each other. */
  lemma WalksPermute(p: seq<Entry>, q: seq<Entry>)
    requires DistinctNames(p) && DistinctNames(q) && TreeOf(p) == TreeOf(q)
    ensures multiset(p) == multiset(q)
  {
    TreeOfMembers(p);
    TreeOfMembers(q);
    forall e ensures multiset(p)[e] == multiset(q)[e] {
      OccursOnce(p, e);
      OccursOnce(q, e);
    }
  }

  lemma {:induction false} TotalBytesInsert(e: Entry, s: seq<Entry>)
    ensures TotalBytes(Insert(e, s)) == |e.content| + TotalBytes(s) && |Insert(e, s)| == |s| + 1
  {
    if s == [] || Less(e.name, s[0].name) {
      assert ([e] + s)[1..] == s;
    } else {
      TotalBytesInsert(e, s[1..]);
      assert ([s[0]] + Insert(e, s[1..]))[1..] == Insert(e, s[1..]);
    }
  }

  lemma {:induction false} TotalBytesSort(s: seq<Entry>)
    ensures TotalBytes(Sort(s)) == TotalBytes(s) && |Sort(s)| == |s|
  {
    if s != [] {
      TotalBytesSort(s[1..]);
      TotalBytesInsert(s[0], Sort(s[1..]));
    }
  }

  lemma {:induction false} TotalBytesStrip(s: seq<Entry>, prefix: Name)
    ensures TotalBytes(Strip(s, prefix)) == TotalBytes(s)
  {
    if s != [] {
      TotalBytesStrip(s[1..], prefix);
      assert Strip(s, prefix)[1..] == Strip(s[1..], prefix);
    }
  }

  lemma CutLess(a: Name, b: Name, prefix: Name)
    requires StartsWith(a, prefix) && StartsWith(b, prefix)
    ensures Less(a, b) <==> Less(a[|prefix|..], b[|prefix|..])
  {
    PrefixKeepsOrder(prefix, a[|prefix|..], b[|prefix|..]);
    assert a == prefix + a[|prefix|..] && b == prefix + b[|prefix|..];
  }

  lemma StripDistinct(s: seq<Entry>, prefix: Name)
    requires DistinctNames(s) && forall e | e in s :: StartsWith(e.name, prefix)
    ensures DistinctNames(Strip(s, prefix))
  {
    forall i, j | 0 <= i < j < |s| ensures Strip(s, prefix)[i].name != Strip(s, prefix)[j].name {
      assert s[i] in s && s[j] in s;
      assert s[i].name == prefix + s[i].name[|prefix|..] && s[j].name == prefix + s[j].name[|prefix|..];
    }
  }

  lemma {:induction false} StripInsert(e: Entry, s: seq<Entry>, prefix: Name)
    requires StartsWith(e.name, prefix) && forall x | x in s :: StartsWith(x.name, prefix)
    ensures forall x | x in Insert(e, s) :: StartsWith(x.name, prefix)
    ensures Strip(Insert(e, s), prefix) == Insert(Entry(Cut(e.name, prefix), e.content), Strip(s, prefix))
  {
    hide Less;
    if s != [] {
      assert s[0] in s;
      CutLess(e.name, s[0].name, prefix);
      assert forall x | x in s[1..] :: x in s;
      if Less(e.name, s[0].name) {
      } else {
        StripInsert(e, s[1..], prefix);
        assert Strip(s, prefix)[1..] == Strip(s[1..], prefix);
        assert Strip(Insert(e, s), prefix) == [Strip(s, prefix)[0]] + Strip(Insert(e, s[1..]), prefix);
      }
    }
  }

  /** Cutting a common prefix commutes with sorting. */
  lemma {:induction false} StripSort(s: seq<Entry>, prefix: Name)
    requires forall e | e in s :: StartsWith(e.name, prefix)
    ensures forall e | e in Sort(s) :: StartsWith(e.name, prefix)
    ensures Strip(Sort(s), prefix) == Sort(Strip(s, prefix))
  {
    if s != [] {
      assert s[0] in s && forall x | x in s[1..] :: x in s;
      StripSort(s[1..], prefix);
      StripInsert(s[0], Sort(s[1..]), prefix);
      assert Strip(s, prefix)[1..] == Strip(s[1..], prefix);
    }
  }

  /**
   For any archive, the digest inspected in place is the tree digest of what it extracts to, however the walk goes.
   */
  lemma InspectAgreesWithExtract(archive: seq<Entry>, prefix: Name, walk: seq<Entry>, fileDigest: Bytes -> string)
    requires DistinctNames(archive) && Walks(walk, Extract(archive, prefix))
    ensures TreeSummary(walk, fileDigest) == ArchiveSummary(archive, prefix, fileDigest)
  {
    MatchingStarts(archive, prefix);
    MatchingDistinct(archive, prefix);
    var members := Matching(archive, prefix);
    var cut := Strip(members, prefix);
    StripDistinct(members, prefix);
    WalksPermute(walk, cut);
    SortOrderFree(walk, cut);
    StripSort(members, prefix);
    TotalBytesSort(walk);
    TotalBytesSort(cut);
    TotalBytesStrip(members, prefix);
  }

  function Prefixed(s: seq<Entry>, prefix: Name): seq<Entry> {
    seq(|s|, i requires 0 <= i < |s| => Entry(prefix + s[i].name, s[i].content))
  }

  /**
   What _zip_tree writes under a prefix, in whatever order its casefold sort puts it, among the members of the whole
   archive.
   */
  ghost predicate Packs(archive: seq<Entry>, prefix: Name, walk: seq<Entry>) {
    DistinctNames(archive) && multiset(Matching(archive, prefix)) == multiset(Prefixed(walk, prefix))
  }

  lemma PermutedTree(p: seq<Entry>, q: seq<Entry>)
    requires DistinctNames(p) && DistinctNames(q) && forall e :: e in p <==> e in q
    ensures TreeOf(p) == TreeOf(q)
  {
    TreeOfMembers(p);
    TreeOfMembers(q);
    forall n ensures n in TreeOf(p) <==> n in TreeOf(q) {
      if n in TreeOf(p) { assert Entry(n, TreeOf(p)[n]) in q; }
      if n in TreeOf(q) { assert Entry(n, TreeOf(q)[n]) in p; }
    }
    forall n | n in TreeOf(p) ensures TreeOf(p)[n] == TreeOf(q)[n] { assert Entry(n, TreeOf(p)[n]) in q; }
  }

  /** Export then extract gives back the same files, and all three summaries agree. */
  lemma ExportRoundTrip(tree: Tree, walk: seq<Entry>, archive: seq<Entry>, prefix: Name, fileDigest: Bytes -> string)
    requires Walks(walk, tree) && Packs(archive, prefix, walk)
    ensures Extract(archive, prefix) == tree
    ensures ArchiveSummary(archive, prefix, fileDigest) == TreeSummary(walk, fileDigest)
  {
    MatchingStarts(archive, prefix);
    MatchingDistinct(archive, prefix);
    var members := Matching(archive, prefix);
    var cut := Strip(members, prefix);
    StripDistinct(members, prefix);
    forall e ensures e in cut <==> e in walk { CutMember(members, walk, prefix, e); }
    PermutedTree(cut, walk);
    InspectAgreesWithExtract(archive, prefix, walk, fileDigest);
  }

  lemma CutMember(members: seq<Entry>, walk: seq<Entry>, prefix: Name, e: Entry)
    requires multiset(members) == multiset(Prefixed(walk, prefix))
    requires forall m | m in members :: StartsWith(m.name, prefix)
    ensures e in Strip(members, prefix) <==> e in walk
  {
    var packed, cut := Prefixed(walk, prefix), Strip(members, prefix);
    var full := Entry(prefix + e.name, e.content);
    assert full in members <==> full in multiset(members);
    assert full in packed <==> full in multiset(packed);
    if e in cut {
      var k :| 0 <= k < |cut| && cut[k] == e;
      assert members[k] in members;
      assert members[k] == full;
      var m :| 0 <= m < |packed| && packed[m] == full;
      assert packed[m].name[|prefix|..] == walk[m].name;
      assert walk[m] == e;
    }
    if e in walk {
      var m :| 0 <= m < |walk| && walk[m] == e;
      assert packed[m] == full;
      var k :| 0 <= k < |members| && members[k] == full;
      assert full.name[|prefix|..] == e.name;
      assert cut[k] == e;
    }
  }

  // ---------------------------------------------------------------- the text determines the tree

  /** 64 hexadecimal characters, as far as the argument needs them. */
  ghost predicate HexDigest(fileDigest: Bytes -> string) {
    forall c :: |fileDigest(c)| == 64
  }

  /** None of these files collides with one of those. */
  ghost predicate NoCollision(p: seq<Entry>, q: seq<Entry>, fileDigest: Bytes -> string) {
    forall e, f | e in p && f in q :: fileDigest(e.content) == fileDigest(f.content) ==> e.content == f.content
  }

  predicate NoNul(s: seq<Entry>) {
    forall k | 0 <= k < |s| :: '\0' !in s[k].name
  }

  lemma NulAt(a: string, x: string)
    requires '\0' !in a
    ensures (a + ['\0'] + x)[|a|] == '\0' && forall k | 0 <= k < |a| :: (a + ['\0'] + x)[k] != '\0'
  {}

  lemma FirstNulSplits(a: string, b: string, x: string, y: string)
    requires a + ['\0'] + x == b + ['\0'] + y && '\0' !in a && '\0' !in b
    ensures a == b && x == y
  {
    var p, q := a + ['\0'] + x, b + ['\0'] + y;
    NulAt(a, x);
    NulAt(b, y);
    assert |a| == |b|;
    assert a == p[..|a|] && b == q[..|b|];
    assert x == p[|a| + 1..] && y == q[|b| + 1..];
  }

  lemma DigitsHaveNoNul(n: nat)
    ensures '\0' !in Decimal.Print(n)
  {
    Decimal.ParsePrint(n);
  }

  lemma LineSplits(e: Entry, f: Entry, x: string, y: string, fileDigest: Bytes -> string)
    requires HexDigest(fileDigest) && '\0' !in e.name && '\0' !in f.name
    requires fileDigest(e.content) == fileDigest(f.content) ==> e.content == f.content
    requires Line(e, fileDigest) + x == Line(f, fileDigest) + y
    ensures e == f && x == y
  {
    var m, n := Decimal.Print(|e.content|), Decimal.Print(|f.content|);
    var d, g := fileDigest(e.content), fileDigest(f.content);
    var tailE, tailF := m + ['\0'] + (d + ['\n'] + x), n + ['\0'] + (g + ['\n'] + y);
    assert Line(e, fileDigest) + x == e.name + ['\0'] + tailE;
    assert Line(f, fileDigest) + y == f.name + ['\0'] + tailF;
    FirstNulSplits(e.name, f.name, tailE, tailF);
    DigitsHaveNoNul(|e.content|);
    DigitsHaveNoNul(|f.content|);
    FirstNulSplits(m, n, d + ['\n'] + x, g + ['\n'] + y);
    DigestSplits(d, g, x, y);
  }

  lemma DigestSplits(d: string, g: string, x: string, y: string)
    requires |d| == 64 && |g| == 64 && d + ['\n'] + x == g + ['\n'] + y
    ensures d == g && x == y
  {
    assert d == (d + ['\n'] + x)[..64] && g == (g + ['\n'] + y)[..64];
    assert x == (d + ['\n'] + x)[65..] && y == (g + ['\n'] + y)[65..];
  }

  /** Two listings with the same digested text are the same files with the same bytes. */
  lemma {:induction false} TextInjective(p: seq<Entry>, q: seq<Entry>, fileDigest: Bytes -> string)
    requires HexDigest(fileDigest) && NoCollision(p, q, fileDigest) && NoNul(p) && NoNul(q)
    requires Text(p, fileDigest) == Text(q, fileDigest)
    ensures p == q
  {
    TextEmpty(p, fileDigest);
    TextEmpty(q, fileDigest);
    if p != [] {
      assert p[0] in p && q[0] in q;
      LineSplits(p[0], q[0], Text(p[1..], fileDigest), Text(q[1..], fileDigest), fileDigest);
      TextInjective(p[1..], q[1..], fileDigest);
      assert p == [p[0]] + p[1..] && q == [q[0]] + q[1..];
    }
  }

  lemma TextEmpty(s: seq<Entry>, fileDigest: Bytes -> string)
    ensures Text(s, fileDigest) == "" <==> s == []
  {}

  lemma SortMembers(s: seq<Entry>)
    requires DistinctNames(s)
    ensures forall e :: e in Sort(s) <==> e in s
  {
    SortSorted(s);
    forall e ensures e in Sort(s) <==> e in s {
      assert e in Sort(s) <==> e in multiset(Sort(s));
      assert e in s <==> e in multiset(s);
    }
  }

  /** Equal digested texts mean equal trees. */
  lemma EqualTextsEqualTrees(p: seq<Entry>, q: seq<Entry>, fileDigest: Bytes -> string)
    requires HexDigest(fileDigest) && NoCollision(p, q, fileDigest) && DistinctNames(p) && DistinctNames(q)
    requires (forall e | e in p :: '\0' !in e.name) && (forall e | e in q :: '\0' !in e.name)
    requires Text(Sort(p), fileDigest) == Text(Sort(q), fileDigest)
    ensures TreeOf(p) == TreeOf(q)
  {
    SortMembers(p);
    SortMembers(q);
    SortedNoNul(p);
    SortedNoNul(q);
    TextInjective(Sort(p), Sort(q), fileDigest);
    PermutedTree(p, q);
  }

  lemma CutMembers(archive: seq<Entry>, prefix: Name, e: Entry)
    requires e in Strip(Matching(archive, prefix), prefix)
    ensures exists m :: m in archive && m.content == e.content && m.name == prefix + e.name
  {
    MatchingStarts(archive, prefix);
    var members := Matching(archive, prefix);
    var k :| 0 <= k < |members| && Strip(members, prefix)[k] == e;
    assert members[k] in members;
  }

  lemma SuffixesNoNul(archive: seq<Entry>, prefix: Name)
    requires forall e | e in archive :: '\0' !in e.name
    ensures forall e | e in Strip(Matching(archive, prefix), prefix) ::
              '\0' !in e.name && exists m :: m in archive && m.content == e.content
  {
    forall e | e in Strip(Matching(archive, prefix), prefix)
      ensures '\0' !in e.name && exists m :: m in archive && m.content == e.content
    {
      CutMembers(archive, prefix, e);
      var m :| m in archive && m.content == e.content && m.name == prefix + e.name;
      forall k | 0 <= k < |e.name| ensures e.name[k] != '\0' {
        assert m.name[|prefix| + k] == e.name[k];
        assert m.name[|prefix| + k] in m.name;
      }
    }
  }

  /** A component that passes inspection against an exported summary extracts to exactly the exported tree. */
  lemma SummaryDeterminesTree(tree: Tree, walk: seq<Entry>, archive: seq<Entry>, prefix: Name,
                              fileDigest: Bytes -> string)
    requires HexDigest(fileDigest) && Walks(walk, tree) && DistinctNames(archive)
             && NoCollision(archive, walk, fileDigest)
    requires (forall e | e in walk :: '\0' !in e.name) && (forall e | e in archive :: '\0' !in e.name)
    requires ArchiveSummary(archive, prefix, fileDigest).text == TreeSummary(walk, fileDigest).text
    ensures Extract(archive, prefix) == tree
  {
    MatchingStarts(archive, prefix);
    MatchingDistinct(archive, prefix);
    var members := Matching(archive, prefix);
    var cut := Strip(members, prefix);
    StripDistinct(members, prefix);
    StripSort(members, prefix);
    SuffixesNoNul(archive, prefix);
    assert NoCollision(cut, walk, fileDigest);
    EqualTextsEqualTrees(cut, walk, fileDigest);
  }

  lemma SortedNoNul(s: seq<Entry>)
    requires DistinctNames(s) && forall e | e in s :: '\0' !in e.name
    ensures NoNul(Sort(s))
  {
    SortMembers(s);
    assert forall k | 0 <= k < |Sort(s)| :: Sort(s)[k] in s;
  }
}
