/** Names of archive members: which ones pass validation, and where extraction puts them. */
module MemberPaths {
  import opened Options
  import opened Splitting
  import opened BundleTree

  const MAX_ENTRIES := 500000
  const MAX_RATIO := 200
  const RATIO_FLOOR := 10 * 1024 * 1024

  /** One record of the archive's directory. */
  datatype Member = Member(name: Name, content: Bytes, isLink: bool, compressedSize: nat)

  /** Directory entries end in a slash. */
  predicate DirectoryMember(m: Member) { m.name != "" && m.name[|m.name| - 1] == '/' }

  predicate Letter(c: char) { 'A' <= c <= 'Z' || 'a' <= c <= 'z' }

  /** ^[A-Za-z]: */
  predicate DriveLike(s: string) { |s| >= 2 && Letter(s[0]) && s[1] == ':' }

  predicate PlainPart(part: string) { part != "" && part != "." && part != ".." }

  predicate SafeName(name: Name) {
    && '\\' !in name && name != "" && name[0] != '/' && !DriveLike(name)
    && forall k | 0 <= k < |Split(name)| :: PlainPart(Split(name)[k])
  }

  /** name.rstrip("/") */
  function Trim(name: Name): Name {
    if name != "" && name[|name| - 1] == '/' then Trim(name[..|name| - 1]) else name
  }

  function Normalized(m: Member): Name { if DirectoryMember(m) then Trim(m.name) else m.name }

  predicate Inflated(m: Member) {
    |m.content| > RATIO_FLOOR && m.compressedSize != 0 && |m.content| > MAX_RATIO * m.compressedSize
  }

  predicate MemberOk(m: Member) { SafeName(Normalized(m)) && !m.isLink && !Inflated(m) }

  ghost predicate FoldedDistinct(members: seq<Member>, fold: Name -> Name) {
    forall j, k | 0 <= j < k < |members| :: fold(Normalized(members[j])) != fold(Normalized(members[k]))
  }

  /** The validation loop: safe names, no two equal up to letter case, no links, no inflated members. */
  method ValidateMembers(members: seq<Member>, fold: Name -> Name) returns (ok: bool)
    ensures ok <==> |members| <= 500000 && (forall m | m in members :: MemberOk(m))
                    && FoldedDistinct(members, fold)
  {
    hide MemberOk, Normalized;
    if |members| > MAX_ENTRIES { return false; }
    var seen: set<Name> := {};
    var i := 0;
    while i < |members|
      invariant 0 <= i <= |members|
      invariant forall k | 0 <= k < i :: MemberOk(members[k])
      invariant forall n :: n in seen <==> exists k | 0 <= k < i :: fold(Normalized(members[k])) == n
      invariant forall j, k | 0 <= j < k < i :: fold(Normalized(members[j])) != fold(Normalized(members[k]))
    {
      var folded := fold(Normalized(members[i]));
      if !MemberOk(members[i]) || folded in seen { return false; }
      seen := seen + {folded};
      i := i + 1;
    }
    ok := true;
  }

  /** Relative, in plain parts, without backslash or drive. */
  predicate PlainName(name: Name) {
    && name != "" && '\\' !in name && name[0] != '/' && name[|name| - 1] != '/'
    && !(|name| >= 2 && name[1] == ':' && ('A' <= name[0] <= 'Z' || 'a' <= name[0] <= 'z'))
    && (forall part | part in Split(name) :: part != "" && part != "." && part != "..")
  }

  /** A plain name, to which a directory member may add slashes. */
  ghost predicate PlainPath(m: Member) {
    exists name :: PlainName(name) && name <= m.name && (forall k | |name| <= k < |m.name| :: m.name[k] == '/')
  }

  lemma {:induction false} TrimCuts(name: Name)
    ensures Trim(name) <= name && forall k | |Trim(name)| <= k < |name| :: name[k] == '/'
  {
    if name != "" && name[|name| - 1] == '/' { TrimCuts(name[..|name| - 1]); }
  }

  lemma EndsPlain(name: Name)
    requires name != "" && name[|name| - 1] == '/'
    ensures "" in Split(name)
  {
    var front := name[..|name| - 1];
    assert name == front + "/" + "";
    SplitConcat(front, "");
    assert Split("") == [""];
    assert Split(name)[|Split(front)|] == "";
  }

  lemma {:induction false} TrimTo(full: Name, name: Name)
    requires name <= full && name != "" && name[|name| - 1] != '/' && forall k | |name| <= k < |full| :: full[k] == '/'
    ensures Trim(full) == name
  {
    if full != name { TrimTo(full[..|full| - 1], name); }
  }

  /** What validation demands of one member, from its record alone. */
  lemma MemberOkExactly(m: Member)
    ensures MemberOk(m) <==>
            && !m.isLink && PlainPath(m)
            && (|m.content| > 10485760 && m.compressedSize > 0 ==> |m.content| <= 200 * m.compressedSize)
  {
    hide SafeName, PlainName;
    SafeIsPlain(Normalized(m));
    TrimCuts(m.name);
    if PlainPath(m) {
      var name :| PlainName(name) && name <= m.name && (forall k | |name| <= k < |m.name| :: m.name[k] == '/');
      PlainEnds(name);
      TrimTo(m.name, name);
      assert !DirectoryMember(m) ==> m.name == name;
    }
  }

  lemma PlainEnds(name: Name)
    requires PlainName(name)
    ensures name != "" && name[|name| - 1] != '/'
  {}

  lemma SafeIsPlain(name: Name)
    ensures SafeName(name) <==> PlainName(name)
  {
    if SafeName(name) {
      if name[|name| - 1] == '/' { EndsPlain(name); }
      assert forall part | part in Split(name) :: PlainPart(part);
    }
    if PlainName(name) {
      assert forall k | 0 <= k < |Split(name)| :: Split(name)[k] in Split(name);
    }
  }

  /** The regular files of an archive. */
  function FilesOf(members: seq<Member>): seq<Entry> {
    if members == [] then []
    else (if DirectoryMember(members[0]) then [] else [Entry(members[0].name, members[0].content)])
         + FilesOf(members[1..])
  }

  lemma {:induction false} FilesAreMembers(members: seq<Member>, e: Entry)
    requires e in FilesOf(members)
    ensures exists k :: 0 <= k < |members| && !DirectoryMember(members[k]) && members[k].name == e.name
                        && members[k].content == e.content
  {
    if !DirectoryMember(members[0]) && e == Entry(members[0].name, members[0].content) {
      assert members[0].name == e.name;
    } else {
      FilesAreMembers(members[1..], e);
      var k :| 0 <= k < |members[1..]| && !DirectoryMember(members[1..][k]) && members[1..][k].name == e.name
               && members[1..][k].content == e.content;
      assert members[k + 1] == members[1..][k];
    }
  }

  /** Every member that is no directory is a file, in the archive's order and with its content. */
  lemma {:induction false} FilesOfEach(members: seq<Member>)
    ensures forall k | 0 <= k < |members| && !DirectoryMember(members[k]) ::
              Entry(members[k].name, members[k].content) in FilesOf(members)
    ensures (forall k | 0 <= k < |members| ::
               members[k].name == "" || members[k].name[|members[k].name| - 1] != '/') ==>
              |FilesOf(members)| == |members|
    ensures |FilesOf(members)| <= |members|
  {
    if members != [] {
      FilesOfEach(members[1..]);
      assert forall k | 0 < k < |members| :: members[k] == members[1..][k - 1];
    }
  }

  /** Validated members give files with distinct safe names. */
  lemma {:induction false} ValidatedFiles(members: seq<Member>, fold: Name -> Name)
    requires (forall m | m in members :: MemberOk(m)) && FoldedDistinct(members, fold)
    ensures DistinctNames(FilesOf(members)) && forall e | e in FilesOf(members) :: SafeName(e.name)
  {
    hide SafeName, Inflated;
    if members != [] {
      ValidatedFiles(members[1..], fold);
      assert members[0] in members && MemberOk(members[0]);
      if !DirectoryMember(members[0]) {
        var rest := FilesOf(members[1..]);
        forall k | 0 <= k < |rest| ensures rest[k].name != members[0].name {
          FilesAreMembers(members[1..], rest[k]);
          var j :| 0 <= j < |members[1..]| && !DirectoryMember(members[1..][j]) && members[1..][j].name == rest[k].name;
          assert members[j + 1] == members[1..][j];
        }
      }
    }
  }

  // ---------------------------------------------------------------- where a member goes

  /** Path resolution: empty and dot parts vanish, dot-dot goes up. */
  function Resolve(base: seq<string>, parts: seq<string>): seq<string>
    decreases |parts|
  {
    if parts == [] then base
    else if parts[0] == "" || parts[0] == "." then Resolve(base, parts[1..])
    else if parts[0] == ".." then Resolve(if base == [] then [] else base[..|base| - 1], parts[1..])
    else Resolve(base + [parts[0]], parts[1..])
  }

  function Slashes(s: string): string {
    seq(|s|, k requires 0 <= k < |s| => if s[k] == '\\' then '/' else s[k])
  }

  /** _safe_target: None when it raises. */
  function SafeTarget(root: seq<string>, relative: string): Option<seq<string>> {
    var normalized := Slashes(relative);
    if (normalized != "" && normalized[0] == '/') || DriveLike(normalized) then None
    else
      var target := Resolve(root, Split(normalized));
      if root <= target then Some(target) else None
  }

  lemma {:induction false} ResolvePlain(base: seq<string>, parts: seq<string>)
    requires forall k | 0 <= k < |parts| :: PlainPart(parts[k])
    ensures Resolve(base, parts) == base + parts
    decreases |parts|
  {
    if parts != [] {
      ResolvePlain(base + [parts[0]], parts[1..]);
      assert base + parts == base + [parts[0]] + parts[1..];
    }
  }

  lemma SlashesPlain(s: string)
    requires '\\' !in s
    ensures Slashes(s) == s
  {}

  /** Whatever the name, a target that is given lies at or below the root. */
  lemma TargetStaysBelow(root: seq<string>, relative: string)
    ensures SafeTarget(root, relative).Some? ==> root <= SafeTarget(root, relative).value
    ensures SafeTarget(root, "") == Some(root)
  {
    SplitWhole("");
    SlashesPlain("");
    assert [""][1..] == [];
  }

  lemma {:induction false} ResolveAppends(base: seq<string>, a: seq<string>, b: seq<string>)
    ensures Resolve(base, a + b) == Resolve(Resolve(base, a), b)
    decreases |a|
  {
    if a == [] {
      assert a + b == b;
    } else {
      assert (a + b)[1..] == a[1..] + b;
      if a[0] == "" || a[0] == "." {
        ResolveAppends(base, a[1..], b);
      } else if a[0] == ".." {
        ResolveAppends(if base == [] then [] else base[..|base| - 1], a[1..], b);
      } else {
        ResolveAppends(base + [a[0]], a[1..], b);
      }
    }
  }

  /** One part at a time: nothing for an empty part or a dot, up for two dots, down for any other. */
  lemma ResolveOne(base: seq<string>, part: string)
    ensures Resolve(base, [""]) == base == Resolve(base, ["."])
    ensures Resolve(base + [part], [".."]) == base && Resolve([], [".."]) == []
    ensures PlainPart(part) ==> Resolve(base, [part]) == base + [part]
  {
    assert (base + [part])[..|base|] == base;
    assert forall p: string :: [p][1..] == [];
  }

  /** A backslash separates like a slash. */
  lemma BackslashSeparates(root: seq<string>)
    ensures SafeTarget(root, "a\\b") == Some(root + ["a", "b"])
  {
    hide Split;
    SplitStep("a", "b");
    SplitWhole("b");
    assert "a" + "/" + "b" == "a/b" == Slashes("a\\b");
    assert Split("a/b") == ["a", "b"];
    ResolvePlain(root, ["a", "b"]);
  }

  /** Leaving the root is refused. */
  lemma LeavingRefused(root: seq<string>)
    requires root != []
    ensures SafeTarget(root, "..").None? && SafeTarget(root, "/").None?
  {
    hide Split, Resolve;
    SplitWhole("..");
    SlashesPlain("..");
    ResolveOne(root[..|root| - 1], root[|root| - 1]);
    assert root[..|root| - 1] + [root[|root| - 1]] == root;
  }

  /** The relative name of a validated member keeps to plain parts and slashes. */
  lemma RelativeIsPlain(prefix: Name, relative: Name)
    requires SafeName(prefix + "/" + relative)
    ensures '\\' !in relative && forall k | 0 <= k < |Split(relative)| :: PlainPart(Split(relative)[k])
  {
    hide Split, PlainPart, DriveLike;
    if '\\' in relative {
      InTail(prefix + "/", relative);
      assert false;
    }
    SplitConcat(prefix, relative);
    forall k | 0 <= k < |Split(relative)| ensures PlainPart(Split(relative)[k]) {
      assert Split(prefix + "/" + relative)[|Split(prefix)| + k] == Split(relative)[k];
    }
  }

  lemma PlainIsRelative(relative: Name)
    requires forall k | 0 <= k < |Split(relative)| :: PlainPart(Split(relative)[k])
    ensures relative == "" || relative[0] != '/'
  {
    if relative != "" { SplitFirst(relative); }
  }

  /** A validated member under a prefix goes below the target directory, unless its relative name looks like a drive. */
  lemma MemberTarget(root: seq<string>, prefix: Name, relative: Name)
    requires SafeName(prefix + "/" + relative)
    ensures SafeTarget(root, relative) == if DriveLike(relative) then None else Some(root + Split(relative))
  {
    hide Split, SafeName, DriveLike, Slashes, Resolve, PlainPart;
    RelativeIsPlain(prefix, relative);
    PlainIsRelative(relative);
    SlashesPlain(relative);
    ResolvePlain(root, Split(relative));
  }

  lemma InTail(a: string, b: string)
    requires '\\' in b
    ensures '\\' in a + b
  {
    var k :| 0 <= k < |b| && b[k] == '\\';
    assert (a + b)[|a| + k] == '\\';
  }

  /** Different members under one prefix never share a target. */
  lemma TargetsDistinct(root: seq<string>, prefix: Name, a: Name, b: Name)
    requires SafeName(prefix + "/" + a) && SafeName(prefix + "/" + b) && !DriveLike(a) && !DriveLike(b) && a != b
    ensures SafeTarget(root, a).Some? && SafeTarget(root, b).Some? && SafeTarget(root, a) != SafeTarget(root, b)
  {
    MemberTarget(root, prefix, a);
    MemberTarget(root, prefix, b);
    if root + Split(a) == root + Split(b) {
      assert Split(a) == (root + Split(a))[|root|..] == Split(b);
      SplitInjective(a, b);
    }
  }

  lemma SafePart(a: Name)
    requires '/' !in a && '\\' !in a && PlainPart(a) && !DriveLike(a)
    ensures SafeName(a)
  {
    SplitWhole(a);
  }

  lemma SafeJoin(a: Name, b: Name)
    requires SafeName(a) && '/' !in b && '\\' !in b && PlainPart(b)
    ensures SafeName(a + "/" + b)
  {
    var name := a + "/" + b;
    SplitConcat(a, b);
    SplitWhole(b);
    assert forall k | 0 <= k < |a| :: name[k] == a[k];
    assert name[|a|] == '/';
  }

  /** Under any safe directory a validated name may look like a drive, which only extraction refuses. */
  lemma DriveLikePartRefusedLate(directory: Name, root: seq<string>)
    requires SafeName(directory)
    ensures var prefix := directory + "/";
            var name := prefix + "c:y";
            SafeName(name) && StartsWith(name, prefix) && SafeTarget(root, Cut(name, prefix)).None?
  {
    hide SafeName;
    var prefix := directory + "/";
    SafeJoin(directory, "c:y");
    assert (prefix + "c:y")[..|prefix|] == prefix && Cut(prefix + "c:y", prefix) == "c:y";
    SlashesPlain("c:y");
  }

  lemma AssetsDirectorySafe()
    ensures SafeName("payload/assets")
  {
    hide SafeName;
    SafePart("payload");
    SafeJoin("payload", "assets");
    assert "payload" + "/" + "assets" == "payload/assets";
  }

  /** The directory of a component that bundles do contain is one. */
  lemma RuntimesDirectorySafe()
    ensures SafeName("payload/assets/server-runtimes")
  {
    hide SafeName;
    AssetsDirectorySafe();
    SafeJoin("payload/assets", "server-runtimes");
    assert "payload/assets" + "/" + "server-runtimes" == "payload/assets/server-runtimes";
  }

  /** Extraction accepts every member under the prefix. */
  predicate Extractable(files: seq<Entry>, prefix: Name, root: seq<string>) {
    forall e | e in Matching(files, prefix) :: SafeTarget(root, Cut(e.name, prefix)).Some?
  }

  predicate NoDriveLikeMember(files: seq<Entry>, prefix: Name) {
    forall e | e in Matching(files, prefix) :: !DriveLike(Cut(e.name, prefix))
  }

  /** For validated files, extraction is refused exactly because of a drive-like relative name. */
  lemma ExtractableIff(files: seq<Entry>, prefix: Name, root: seq<string>)
    requires forall e | e in files :: SafeName(e.name)
    ensures Extractable(files, prefix + "/", root) <==> NoDriveLikeMember(files, prefix + "/")
  {
    hide SafeName, SafeTarget, DriveLike, Matching;
    MatchingStarts(files, prefix + "/");
    forall e | e in Matching(files, prefix + "/")
      ensures SafeTarget(root, Cut(e.name, prefix + "/")).Some? <==> !DriveLike(Cut(e.name, prefix + "/"))
    {
      assert e.name == prefix + "/" + Cut(e.name, prefix + "/");
      MemberTarget(root, prefix, Cut(e.name, prefix + "/"));
    }
  }
}
