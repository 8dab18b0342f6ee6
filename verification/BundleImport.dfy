/** import_bundle: staging, promotion with backups, and rollback in reverse order. */
module BundleImport {
  import opened Options
  import opened BundleTree
  import opened BundleInspection
  import opened MemberPaths
  import opened Sequences

  /** What a path holds. `Nested` is a directory another path was moved into, under a name. */
  datatype Place = File(content: Bytes) | Directory(tree: Tree) | Nested(outer: Place, name: Name, inner: Place)

  datatype Disk = Disk(targets: map<string, Place>, staged: map<string, Place>, backups: map<string, Place>)

  /** The steps that the operating system refuses in a run. */
  datatype Faults = Faults(extract: set<string>, firstMove: set<string>, secondMove: set<string>, publish: bool)

  datatype Promoted = Promoted(component: string, backedUp: bool)

  function Get<V>(m: map<string, V>, key: string): Option<V> {
    if key in m then Some(m[key]) else None
  }

  /** The last step of the component's target path. */
  function BaseName(component: string): Name {
    if component == "client-basic" then "basic"
    else if component == "server-runtimes" then "server-runtimes" else "library"
  }

  predicate HasEntry(place: Place, name: Name) {
    match place
    case File(_) => false
    case Directory(tree) => exists n | n in tree :: n == name || StartsWith(n, name + "/")
    case Nested(outer, m, _) => m == name || HasEntry(outer, name)
  }

  predicate IsDirectory(place: Option<Place>) { place.Some? && !place.value.File? }

  /** shutil.move: what the destination holds afterwards, or None when the move is refused. */
  function Move(source: Place, destination: Option<Place>, name: Name): Option<Place> {
    match destination
    case None => Some(source)
    case Some(File(_)) => if source.File? then Some(source) else None
    case Some(directory) => if HasEntry(directory, name) then None else Some(Nested(directory, name, source))
  }

  /** A move keeps its source intact at the destination unless the destination is a directory, which swallows it. */
  lemma MoveSwallows(source: Place, destination: Option<Place>, name: Name)
    requires Move(source, destination, name).Some?
    ensures Move(source, destination, name).value == source <==> !IsDirectory(destination)
  {
    if IsDirectory(destination) {
      var moved := Nested(destination.value, name, source);
      assert moved.inner < moved;
    }
  }

  /** A move is refused onto an entry of the same name in a directory, and of a directory onto a file. */
  lemma MoveRefused(source: Place, destination: Option<Place>, name: Name)
    ensures Move(source, destination, name).None? <==>
            destination.Some? && (if destination.value.File? then !source.File? else HasEntry(destination.value, name))
  {}

  /** What a directory holds by name: files, first steps of longer names, and what was moved into it. */
  lemma EntriesAfterMove(source: Place, directory: Place, name: Name, other: Name)
    requires !directory.File? && Move(source, Some(directory), name).Some?
    ensures HasEntry(Move(source, Some(directory), name).value, other) <==> other == name || HasEntry(directory, other)
  {}

  lemma EntriesOfFiles(content: Bytes, name: Name, rest: Name)
    ensures !HasEntry(File(content), name) && !HasEntry(Directory(map[]), name)
    ensures HasEntry(Directory(map[name := content]), name)
    ensures HasEntry(Directory(map[name + "/" + rest := content]), name)
  {
    var one: Tree, tree: Tree := map[name := content], map[name + "/" + rest := content];
    assert StartsWith(name + "/" + rest, name + "/");
    assert name in one && name + "/" + rest in tree;
  }

  lemma BaseNames()
    ensures BaseName("client-basic") == "basic" && BaseName("server-models") == "library"
    ensures BaseName(RUNTIMES) == "server-runtimes"
  {}

  function Aside(d: Disk, component: string): Option<Place> {
    if component in d.targets then Move(d.targets[component], Get(d.backups, component), BaseName(component)) else None
  }

  predicate MovesAside(d: Disk, faults: Faults, component: string) {
    component in d.targets && component !in faults.firstMove && Aside(d, component).Some?
  }

  predicate Moves(d: Disk, faults: Faults, component: string) {
    component in d.staged && (component in d.targets ==> MovesAside(d, faults, component))
    && component !in faults.secondMove
  }

  predicate Succeeds(d: Disk, faults: Faults, ready: (string, Place) -> bool, component: string) {
    Moves(d, faults, component) && ready(component, d.staged[component])
  }

  predicate Installed(d: Disk, now: Disk, component: string) {
    && component in d.staged && Get(now.targets, component) == Some(d.staged[component])
    && Get(now.backups, component) == if component in d.targets then Aside(d, component) else Get(d.backups, component)
  }

  predicate Same(d: Disk, now: Disk, component: string) {
    && Get(now.targets, component) == Get(d.targets, component)
    && Get(now.staged, component) == Get(d.staged, component)
    && Get(now.backups, component) == Get(d.backups, component)
  }

  /** What a rolled back target holds: its old content, as it looks after the trip through the backup path. */
  function Returned(d: Disk, faults: Faults, component: string): Option<Place> {
    if MovesAside(d, faults, component) then Aside(d, component) else Get(d.targets, component)
  }

  /** The first `i` missing components are installed, the rest is as before. */
  ghost predicate Progress(d: Disk, now: Disk, faults: Faults, missing: seq<string>, i: nat)
    requires i <= |missing|
  {
    && (forall k | 0 <= k < i :: Moves(d, faults, missing[k]) && Installed(d, now, missing[k]))
    && (forall c | c !in missing[..i] :: Same(d, now, c))
  }

  /**
   The first `n` missing targets hold what they held before, as a trip through the backup path leaves it; the others
   were not touched.
   */
  ghost predicate Undone(d: Disk, targets: map<string, Place>, faults: Faults, missing: seq<string>, n: nat)
    requires n <= |missing|
  {
    && (forall k | 0 <= k < n :: Get(targets, missing[k]) == Returned(d, faults, missing[k]))
    && (forall c | c !in missing[..n] :: Get(targets, c) == Get(d.targets, c))
  }

  function PromotedList(d: Disk, missing: seq<string>, i: nat): seq<Promoted>
    requires i <= |missing|
  {
    seq(i, k requires 0 <= k < i => Promoted(missing[k], missing[k] in d.targets))
  }

  /** What rolling back this list makes of the targets. */
  ghost predicate RolledBack(now: Disk, targets: map<string, Place>, promoted: seq<Promoted>) {
    && (forall k | 0 <= k < |promoted| ::
          (Get(targets, promoted[k].component) == if promoted[k].backedUp
                                                  then Get(now.backups, promoted[k].component) else None))
    && (forall c | (forall k | 0 <= k < |promoted| :: promoted[k].component != c) ::
          Get(targets, c) == Get(now.targets, c))
  }

  /** The components from the `i`-th promotion on that have a backup. */
  function MovedAside(promoted: seq<Promoted>, i: nat): set<string> {
    set k | i <= k < |promoted| && promoted[k].backedUp :: promoted[k].component
  }

  lemma MovedAsideNext(promoted: seq<Promoted>, i: nat)
    requires forall j, k | 0 <= j < k < |promoted| :: promoted[j].component != promoted[k].component
    ensures i >= |promoted| ==> MovedAside(promoted, i) == {}
    ensures i < |promoted| ==>
              && MovedAside(promoted, i) == MovedAside(promoted, i + 1)
                                            + (if promoted[i].backedUp then {promoted[i].component} else {})
              && promoted[i].component !in MovedAside(promoted, i + 1)
  {}

  lemma TakeMember(s: seq<string>, i: nat, c: string)
    requires i < |s|
    ensures c in s[..i + 1] <==> c in s[..i] || c == s[i]
  {
    assert s[..i + 1] == s[..i] + [s[i]];
  }

  lemma DistinctTake(s: seq<string>, i: nat)
    requires NoDuplicates(s) && i < |s|
    ensures s[i] !in s[..i]
  {}

  /** The archive members and the parsed manifest. */
  datatype Bundle = Bundle(members: seq<Member>, manifestName: Name, components: seq<Component>) {
    function Files(): seq<Entry> { FilesOf(members) }
  }

  /** manifest["components"].get(id) */
  function Find(components: seq<Component>, id: string): Option<Component> {
    if components == [] then None
    else if components[0].id == id then Some(components[0])
    else Find(components[1..], id)
  }

  /** What an extracted component is. */
  function Payload(bundle: Bundle, id: string): Option<Place> {
    match Find(bundle.components, id)
    case None => None
    case Some(entry) => Some(Directory(Extract(bundle.Files(), PrefixOf(entry))))
  }

  /** No member of the component has a relative name that looks like a drive. */
  predicate NoDriveLike(bundle: Bundle, id: string) {
    match Find(bundle.components, id)
    case None => true
    case Some(entry) => NoDriveLikeMember(bundle.Files(), PrefixOf(entry))
  }

  /** What member validation demands. */
  ghost predicate MembersValid(bundle: Bundle, rules: Rules) {
    && |bundle.members| <= MAX_ENTRIES && (forall m | m in bundle.members :: MemberOk(m))
    && FoldedDistinct(bundle.members, rules.fold)
  }

  /** Nothing stops the import before its first promotion. */
  ghost predicate Promotable(bundle: Bundle, rules: Rules, missing: seq<string>, replaceInvalid: bool,
                             targets: map<string, Place>, faults: Faults) {
    && MembersValid(bundle, rules) && Accepted(bundle.Files(), bundle.manifestName, bundle.components, rules)
    && (forall c | c in missing :: c !in faults.extract && NoDriveLike(bundle, c))
    && (replaceInvalid || forall c | c in missing :: c !in targets)
  }

  /** What a promoted component's backup path holds. */
  function BackedUp(targets: map<string, Place>, backups: map<string, Place>, component: string): Option<Place> {
    if component in targets then Aside(Disk(targets, map[], backups), component) else Get(backups, component)
  }

  /** The component can be promoted over what is there and passes its product check afterwards. */
  predicate Installs(bundle: Bundle, targets: map<string, Place>, backups: map<string, Place>, faults: Faults,
                     ready: (string, Place) -> bool, c: string) {
    && (c in targets ==> MovesAside(Disk(targets, map[], backups), faults, c)) && c !in faults.secondMove
    && Payload(bundle, c).Some? && ready(c, Payload(bundle, c).value)
  }

  /** The place is a directory whose every walk gives the count, the bytes and the digested text of the manifest. */
  ghost predicate AsDeclared(bundle: Bundle, rules: Rules, c: string, place: Option<Place>) {
    && place.Some? && place.value.Directory?
    && exists k | 0 <= k < |bundle.components| ::
         && bundle.components[k].id == c
         && forall walk | Walks(walk, place.value.tree) ::
              (var found := TreeSummary(walk, rules.fileDigest);
               && found.fileCount == bundle.components[k].fileCount && found.bytes == bundle.components[k].bytes
               && found.text == bundle.components[k].text)
  }

  lemma InstalledAsDeclared(bundle: Bundle, rules: Rules, c: string)
    requires Accepted(bundle.Files(), bundle.manifestName, bundle.components, rules) && DistinctNames(bundle.Files())
    requires c in rules.required
    ensures AsDeclared(bundle, rules, c, Payload(bundle, c))
  {
    hide Extract, TreeSummary, ArchiveSummary;
    RequiredIsFound(bundle, rules, c);
    var k :| 0 <= k < |bundle.components| && bundle.components[k].id == c && bundle.components[k].kind == Asset;
    FindAt(bundle.components, k);
    var prefix := PrefixOf(bundle.components[k]);
    forall walk | Walks(walk, Extract(bundle.Files(), prefix))
      ensures TreeSummary(walk, rules.fileDigest) == ArchiveSummary(bundle.Files(), prefix, rules.fileDigest)
    {
      InspectAgreesWithExtract(bundle.Files(), prefix, walk, rules.fileDigest);
    }
  }

  const RUNTIMES := "server-runtimes"
  const NOTHING := Faults({}, {}, {}, false)

  /** The selected components that are absent or fail their product check. */
  function NotReady(selected: seq<string>, targets: map<string, Place>, ready: (string, Place) -> bool): seq<string> {
    if selected == [] then []
    else
      var c := selected[0];
      (if c in targets && ready(c, targets[c]) then [] else [c]) + NotReady(selected[1..], targets, ready)
  }

  lemma {:induction false} NotReadyMembers(selected: seq<string>, targets: map<string, Place>,
                                           ready: (string, Place) -> bool)
    requires NoDuplicates(selected)
    ensures NoDuplicates(NotReady(selected, targets, ready))
    ensures forall c :: c in NotReady(selected, targets, ready) <==>
                        c in selected && !(c in targets && ready(c, targets[c]))
  {
    if selected != [] {
      NotReadyMembers(selected[1..], targets, ready);
      assert forall c :: c in selected <==> c == selected[0] || c in selected[1..];
    }
  }

  lemma {:induction false} FindAt(components: seq<Component>, k: nat)
    requires k < |components| && forall i, j | 0 <= i < j < |components| :: components[i].id != components[j].id
    ensures Find(components, components[k].id) == Some(components[k])
  {
    if k > 0 {
      assert components[0].id != components[k].id;
      FindAt(components[1..], k - 1);
    }
  }

  /** An accepted manifest declares every required component as an asset, and its declaration matches the archive. */
  lemma RequiredIsFound(bundle: Bundle, rules: Rules, id: string)
    requires Accepted(bundle.Files(), bundle.manifestName, bundle.components, rules) && id in rules.required
    ensures Find(bundle.components, id).Some? && Find(bundle.components, id).value.kind == Asset
    ensures ComponentOk(bundle.Files(), Find(bundle.components, id).value, rules)
  {
    hide ComponentOk;
    var k :| 0 <= k < |bundle.components| && bundle.components[k].id == id && bundle.components[k].kind == Asset;
    FindAt(bundle.components, k);
  }

  /** The check after extraction cannot fail for a bundle that passed inspection. */
  lemma StagedMatches(bundle: Bundle, rules: Rules, id: string, walk: Tree -> seq<Entry>)
    requires Accepted(bundle.Files(), bundle.manifestName, bundle.components, rules) && DistinctNames(bundle.Files())
    requires id in rules.required && forall t :: Walks(walk(t), t)
    ensures Find(bundle.components, id).Some? && Find(bundle.components, id).value.kind == Asset
    ensures var entry := Find(bundle.components, id).value;
            Declares(entry, TreeSummary(walk(Extract(bundle.Files(), PrefixOf(entry))), rules.fileDigest))
  {
    RequiredIsFound(bundle, rules, id);
    var prefix := PrefixOf(Find(bundle.components, id).value);
    InspectAgreesWithExtract(bundle.Files(), prefix, walk(Extract(bundle.Files(), prefix)), rules.fileDigest);
  }

  class Project {
    var targets: map<string, Place>
    var staged: map<string, Place>
    var backups: map<string, Place>
    var payload: Option<Tree>

    ghost function State(): Disk
      reads this
    {
      Disk(targets, staged, backups)
    }

    /** The body of the promotion loop up to the product check; a refused second move puts the backup back. */
    method Promote(component: string, faults: Faults) returns (moved: bool, backedUp: bool)
      requires component in staged
      modifies `targets, `staged, `backups
      ensures moved <==> Moves(old(State()), faults, component)
      ensures moved ==> Installed(old(State()), State(), component) && (backedUp <==> component in old(targets))
      ensures moved ==> component !in staged
      ensures !moved ==> Get(targets, component) == Returned(old(State()), faults, component) && staged == old(staged)
      ensures !moved ==> Get(backups, component) == if MovesAside(old(State()), faults, component)
                                                    then None else Get(old(backups), component)
      ensures forall c | c != component :: Same(old(State()), State(), c)
    {
      hide Move;
      backedUp := component in targets;
      if component in targets {
        var destination := Move(targets[component], Get(backups, component), BaseName(component));
        if component in faults.firstMove || destination.None? { return false, false; }
        backups := backups[component := destination.value];
        targets := targets - {component};
      }
      if component in faults.secondMove {
        if backedUp && component in backups && component !in targets {
          targets := targets[component := backups[component]];
          backups := backups - {component};
        }
        return false, false;
      }
      targets := targets[component := staged[component]];
      staged := staged - {component};
      moved := true;
    }

    /** Undo the promoted components, last first. */
    method RollBack(promoted: seq<Promoted>)
      requires forall j, k | 0 <= j < k < |promoted| :: promoted[j].component != promoted[k].component
      modifies `targets, `backups
      ensures RolledBack(old(State()), targets, promoted)
      ensures backups == old(backups) - MovedAside(promoted, 0)
    {
      hide MovedAside;
      var i := |promoted|;
      MovedAsideNext(promoted, i);
      while i > 0
        invariant 0 <= i <= |promoted|
        invariant forall k | i <= k < |promoted| ::
                    (Get(targets, promoted[k].component) == if promoted[k].backedUp
                                                            then Get(old(backups), promoted[k].component) else None)
        invariant backups == old(backups) - MovedAside(promoted, i)
        invariant forall c | (forall k | 0 <= k < |promoted| :: promoted[k].component != c) ::
                    Get(targets, c) == Get(old(targets), c)
      {
        i := i - 1;
        MovedAsideNext(promoted, i);
        var c := promoted[i].component;
        targets := targets - {c};
        if promoted[i].backedUp && c in backups {
          targets := targets[c := backups[c]];
          backups := backups - {c};
        }
      }
    }

    /** Promote every missing component, publish the environment, and undo everything on the first failure. */
    method PromoteAll(missing: seq<string>, ready: (string, Place) -> bool, faults: Faults, environment: Option<Tree>)
      returns (ok: bool, ghost tried: nat)
      requires NoDuplicates(missing) && forall c | c in missing :: c in staged
      modifies this
      ensures tried <= |missing| && forall k | 0 <= k < tried - 1 :: Succeeds(old(State()), faults, ready, missing[k])
      ensures ok ==> tried == |missing| && Progress(old(State()), State(), faults, missing, tried)
      ensures ok ==> forall k | 0 <= k < tried :: Succeeds(old(State()), faults, ready, missing[k])
      ensures ok && environment.Some? ==> payload == environment && !faults.publish
      ensures ok && environment.None? ==> payload == old(payload)
      ensures !ok ==> payload == if tried > 0 && !Succeeds(old(State()), faults, ready, missing[tried - 1])
                                 then old(payload) else None
      ensures !ok ==> Undone(old(State()), targets, faults, missing, tried)
      ensures ok || (tried > 0 && !Succeeds(old(State()), faults, ready, missing[tried - 1]))
              || (tried == |missing| && environment.Some? && faults.publish)
    {
      hide Moves, MovesAside, Aside, Returned, Installed, Same, Progress, Undone, RolledBack;
      ghost var before := State();
      var promoted: seq<Promoted> := [];
      var i := 0;
      ProgressStarts(before, faults, missing);
      while i < |missing|
        invariant 0 <= i <= |missing|
        invariant forall j | 0 <= j < i :: Succeeds(before, faults, ready, missing[j])
        invariant promoted == PromotedList(before, missing, i)
        invariant Progress(before, State(), faults, missing, i) && payload == old(payload)
      {
        var component := missing[i];
        ghost var mid := State();
        UntouchedNext(before, mid, faults, missing, i);
        var moved, backedUp := Promote(component, faults);
        ghost var now := State();
        if !moved {
          RollBack(promoted);
          UndoRefused(before, mid, now, targets, faults, missing, i);
          return false, i + 1;
        }
        promoted := promoted + [Promoted(component, backedUp)];
        assert promoted == PromotedList(before, missing, i + 1);
        ProgressNext(before, mid, now, faults, missing, i);
        if !ready(component, targets[component]) {
          RollBack(promoted);
          UndoProgress(before, now, targets, faults, missing, i + 1);
          return false, i + 1;
        }
        i := i + 1;
      }
      if environment.Some? {
        payload := None;
        if faults.publish {
          ghost var now := State();
          RollBack(promoted);
          UndoProgress(before, now, targets, faults, missing, i);
          return false, i;
        }
        payload := environment;
      }
      return true, i;
    }

    /**
     Extract and check every missing component; for an inspected bundle only an extraction error can make this fail.
     */
    method Stage(bundle: Bundle, rules: Rules, missing: seq<string>, walk: Tree -> seq<Entry>, faults: Faults)
      returns (ok: bool)
      requires Accepted(bundle.Files(), bundle.manifestName, bundle.components, rules) && DistinctNames(bundle.Files())
      requires (forall e | e in bundle.Files() :: SafeName(e.name)) && (forall t :: Walks(walk(t), t))
               && forall c | c in missing :: c in rules.required
      modifies `staged
      ensures ok <==> forall c | c in missing :: c !in faults.extract && NoDriveLike(bundle, c)
      ensures ok ==> forall c | c in missing :: Get(staged, c) == Payload(bundle, c) && Payload(bundle, c).Some?
      ensures forall c | c in staged :: c in missing
    {
      hide Accepted, DistinctNames, Walks, Extract, TreeSummary, Find, SafeName, Extractable,
        NoDriveLikeMember;
      staged := map[];
      var i := 0;
      while i < |missing|
        invariant 0 <= i <= |missing|
        invariant forall k | 0 <= k < i ::
                    missing[k] !in faults.extract && NoDriveLike(bundle, missing[k])
                    && Get(staged, missing[k]) == Payload(bundle, missing[k])
        invariant forall k | 0 <= k < i :: Payload(bundle, missing[k]).Some?
        invariant forall c | c in staged :: c in missing
      {
        var c := missing[i];
        StagedMatches(bundle, rules, c, walk);
        var entry := Find(bundle.components, c);
        if entry.None? || entry.value.kind != Asset || c in faults.extract { return false; }
        ExtractableIff(bundle.Files(), entry.value.archivePrefix, [c]);
        if !Extractable(bundle.Files(), PrefixOf(entry.value), [c]) { return false; }
        var tree := Extract(bundle.Files(), PrefixOf(entry.value));
        var summary := TreeSummary(walk(tree), rules.fileDigest);
        if summary.fileCount != entry.value.fileCount || summary.bytes != entry.value.bytes
           || summary.text != entry.value.text { return false; }
        staged := staged[c := Directory(tree)];
        i := i + 1;
      }
      return true;
    }

    /** Everything after the inspection: stage, refuse invalid targets that may not be replaced, promote. */
    method Install(bundle: Bundle, rules: Rules, selected: seq<string>, replaceInvalid: bool,
                   ready: (string, Place) -> bool,
                   walk: Tree -> seq<Entry>, faults: Faults, environment: Option<Tree>)
      returns (ok: bool, installed: seq<string>, ghost tried: nat)
      requires NoDuplicates(selected) && (forall c | c in selected :: c in rules.required)
               && forall t :: Walks(walk(t), t)
      requires MembersValid(bundle, rules)
               && Accepted(bundle.Files(), bundle.manifestName, bundle.components, rules)
      modifies this
      ensures ok <==>
              var missing := NotReady(selected, old(targets), ready);
              && Promotable(bundle, rules, missing, replaceInvalid, old(targets), faults)
              && (forall c | c in missing :: Installs(bundle, old(targets), old(backups), faults, ready, c))
              && !(environment.Some? && faults.publish)
      ensures ok ==> forall c | c in selected :: c in targets && ready(c, targets[c])
      ensures ok ==> forall c :: c in installed <==> c in selected && !(c in old(targets) && ready(c, old(targets)[c]))
      ensures ok ==> forall c | c in installed :: Get(targets, c) == Payload(bundle, c) && NoDriveLike(bundle, c)
      ensures ok ==> forall c | c in installed :: AsDeclared(bundle, rules, c, Get(targets, c))
      ensures ok ==> forall c | c in installed ::
                  c !in faults.secondMove && Get(backups, c) == BackedUp(old(targets), old(backups), c)
      ensures ok ==> forall c | c !in installed :: Get(targets, c) == Get(old(targets), c)
      ensures !ok && (forall c | c in selected && c in old(targets) :: !IsDirectory(Get(old(backups), c))) ==>
                targets == old(targets)
      ensures tried <= |NotReady(selected, old(targets), ready)|
      ensures !ok ==> Undone(Disk(old(targets), map[], old(backups)), targets, faults,
                             NotReady(selected, old(targets), ready), tried)
      ensures !ok && Promotable(bundle, rules, NotReady(selected, old(targets), ready), replaceInvalid, old(targets),
                                faults)
              ==> tried > 0 || NotReady(selected, old(targets), ready) == []
      ensures !replaceInvalid ==> forall c | c in old(targets) :: Get(targets, c) == Get(old(targets), c)
      ensures ok ==> payload == if environment.Some? then environment else old(payload)
      ensures !ok ==> payload == old(payload) || (payload == None && environment.Some? && faults.publish)
      ensures staged == map[]
    {
      hide Accepted, Payload, Installed, Moves, Aside, Move, Undone, SafeName, DistinctNames, BackedUp, MemberOk,
        NoDriveLike, AsDeclared, Succeeds, Installs;
      installed := [];
      tried := 0;
      NothingUndone(Disk(targets, map[], backups), faults, NotReady(selected, targets, ready));
      ValidatedFiles(bundle.members, rules.fold);
      var missing := NotReady(selected, targets, ready);
      NotReadyMembers(selected, targets, ready);
      ok := Stage(bundle, rules, missing, walk, faults);
      if !ok || (!replaceInvalid && exists c | c in missing :: c in targets) { staged := map[]; return false, [], 0; }
      ghost var before := State();
      forall c | c in missing
        ensures Succeeds(before, faults, ready, c) <==> Installs(bundle, targets, backups, faults, ready, c)
      {
        SucceedsExactly(before, bundle, faults, ready, c);
      }
      ok, tried := PromoteAll(missing, ready, faults, environment);
      staged := map[];
      if ok {
        installed := missing;
        ProgressDone(before, Disk(targets, map[], backups), faults, ready, missing);
        forall c | c in installed ensures AsDeclared(bundle, rules, c, Get(targets, c)) {
          InstalledAsDeclared(bundle, rules, c);
        }
      } else {
        AllOrNothing(before, targets, faults, missing, tried);
        UndoneUnstaged(before, targets, faults, missing, tried);
        forall k | 0 <= k < tried && MovesAside(before, faults, missing[k])
          ensures missing[k] in selected && missing[k] in before.targets {}
      }
    }

    /**
     Inspect, stage, refuse invalid targets that may not be replaced, promote; the staging directory goes in every case.
     `tried` counts the missing components whose promotion was begun.
     */
    method Import(bundle: Bundle, rules: Rules, selected: seq<string>, replaceInvalid: bool,
                  ready: (string, Place) -> bool,
                  walk: Tree -> seq<Entry>, faults: Faults, environment: Option<Tree>)
      returns (ok: bool, installed: seq<string>, ghost tried: nat)
      requires NoDuplicates(selected) && (forall c | c in selected :: c in rules.required)
               && forall t :: Walks(walk(t), t)
      modifies this
      ensures ok <==>
              var missing := NotReady(selected, old(targets), ready);
              && Promotable(bundle, rules, missing, replaceInvalid, old(targets), faults)
              && (forall c | c in missing :: Installs(bundle, old(targets), old(backups), faults, ready, c))
              && !(environment.Some? && faults.publish)
      ensures ok ==> forall c | c in selected :: c in targets && ready(c, targets[c])
      ensures ok ==> forall c :: c in installed <==> c in selected && !(c in old(targets) && ready(c, old(targets)[c]))
      ensures ok ==> forall c | c in installed :: Get(targets, c) == Payload(bundle, c) && NoDriveLike(bundle, c)
      ensures ok ==> forall c | c in installed :: AsDeclared(bundle, rules, c, Get(targets, c))
      ensures ok ==> forall c | c in installed ::
                  c !in faults.secondMove && Get(backups, c) == BackedUp(old(targets), old(backups), c)
      ensures ok ==> forall c | c !in installed :: Get(targets, c) == Get(old(targets), c)
      ensures !ok && (forall c | c in selected && c in old(targets) :: !IsDirectory(Get(old(backups), c))) ==>
                targets == old(targets)
      ensures tried <= |NotReady(selected, old(targets), ready)|
      ensures !ok ==> Undone(Disk(old(targets), map[], old(backups)), targets, faults,
                             NotReady(selected, old(targets), ready), tried)
      ensures !ok && Promotable(bundle, rules, NotReady(selected, old(targets), ready), replaceInvalid, old(targets),
                                faults)
              ==> tried > 0 || NotReady(selected, old(targets), ready) == []
      ensures !replaceInvalid ==> forall c | c in old(targets) :: Get(targets, c) == Get(old(targets), c)
      ensures ok ==> payload == if environment.Some? then environment else old(payload)
      ensures !ok ==> payload == old(payload) || (payload == None && environment.Some? && faults.publish)
      ensures staged == map[]
    {
      hide Accepted, MemberOk, Undone, Installs, NotReady, NoDriveLike, Payload, BackedUp, AsDeclared;
      NothingUndone(Disk(targets, map[], backups), faults, NotReady(selected, targets, ready));
      var valid := ValidateMembers(bundle.members, rules.fold);
      if valid {
        ValidatedFiles(bundle.members, rules.fold);
        valid := InspectBundle(bundle.Files(), bundle.manifestName, bundle.components, rules);
      }
      if !valid { staged := map[]; return false, [], 0; }
      ok, installed, tried := Install(bundle, rules, selected, replaceInvalid, ready, walk, faults, environment);
    }

    /**
     Two imports of one bundle over an invalid target: the first succeeds and leaves the old directory at the backup
     path; the second, within the same second, finds its product check failing, moves the installed tree into that
     directory, and returns the two nested into each other when its promotion is refused.
     */
    method ImportTwice(bundle: Bundle, rules: Rules, held: Tree, ready: (string, Place) -> bool,
                       readyAgain: (string, Place) -> bool, walk: Tree -> seq<Entry>, environment: Option<Tree>)
      returns (first: bool, second: bool)
      requires RUNTIMES in rules.required && forall t :: Walks(walk(t), t)
      requires targets == map[RUNTIMES := Directory(held)] && backups == map[] && !HasEntry(Directory(held), RUNTIMES)
      requires !ready(RUNTIMES, Directory(held))
      requires Promotable(bundle, rules, [RUNTIMES], true, targets, NOTHING)
      requires Payload(bundle, RUNTIMES).Some? ==> ready(RUNTIMES, Payload(bundle, RUNTIMES).value)
                                                   && !readyAgain(RUNTIMES, Payload(bundle, RUNTIMES).value)
      modifies this
      ensures first && !second && Payload(bundle, RUNTIMES).Some?
      ensures Get(targets, RUNTIMES) == Some(Nested(Directory(held), RUNTIMES, Payload(bundle, RUNTIMES).value))
      ensures Get(targets, RUNTIMES) != Payload(bundle, RUNTIMES)
    {
      hide Accepted, MembersValid, HasEntry, Payload, NoDriveLike;
      var installed;
      ghost var tried;
      OneNotReady(RUNTIMES, targets, ready);
      PayloadFound(bundle, rules);
      first, installed, tried := Import(bundle, rules, [RUNTIMES], true, ready, walk, NOTHING, environment);
      assert RUNTIMES in installed;
      ghost var d := Disk(targets, map[], backups);
      assert Get(backups, RUNTIMES) == Some(Directory(held));
      OneNotReady(RUNTIMES, targets, readyAgain);
      var faults := Faults({}, {}, {RUNTIMES}, false);
      second, installed, tried := Import(bundle, rules, [RUNTIMES], true, readyAgain, walk, faults, environment);
      assert Get(targets, [RUNTIMES][0]) == Returned(d, faults, [RUNTIMES][0]);
      MoveSwallows(d.targets[RUNTIMES], Get(d.backups, RUNTIMES), BaseName(RUNTIMES));
    }
  }

  lemma PayloadFound(bundle: Bundle, rules: Rules)
    requires Accepted(bundle.Files(), bundle.manifestName, bundle.components, rules) && RUNTIMES in rules.required
    ensures Payload(bundle, RUNTIMES).Some?
  {
    RequiredIsFound(bundle, rules, RUNTIMES);
  }

  /** A staged component is promoted for good exactly if it installs. */
  lemma SucceedsExactly(d: Disk, bundle: Bundle, faults: Faults, ready: (string, Place) -> bool, c: string)
    requires Payload(bundle, c).Some? && Get(d.staged, c) == Payload(bundle, c)
    ensures Succeeds(d, faults, ready, c) <==> Installs(bundle, d.targets, d.backups, faults, ready, c)
  {
    hide Move, Payload;
  }

  lemma ProgressStarts(d: Disk, faults: Faults, missing: seq<string>)
    ensures Progress(d, d, faults, missing, 0)
  {}

  /** The next component still sees the disk as it was before the loop. */
  lemma UntouchedNext(d: Disk, mid: Disk, faults: Faults, missing: seq<string>, i: nat)
    requires NoDuplicates(missing) && i < |missing| && Progress(d, mid, faults, missing, i)
    ensures Same(d, mid, missing[i]) && (missing[i] in d.targets <==> missing[i] in mid.targets)
    ensures missing[i] in d.staged <==> missing[i] in mid.staged
    ensures missing[i] in d.staged ==> mid.staged[missing[i]] == d.staged[missing[i]]
    ensures Aside(d, missing[i]) == Aside(mid, missing[i])
    ensures Moves(d, faults, missing[i]) == Moves(mid, faults, missing[i])
    ensures Returned(d, faults, missing[i]) == Returned(mid, faults, missing[i])
  {
    hide Move;
    DistinctTake(missing, i);
  }

  lemma ProgressNext(d: Disk, mid: Disk, now: Disk, faults: Faults, missing: seq<string>, i: nat)
    requires NoDuplicates(missing) && i < |missing| && Progress(d, mid, faults, missing, i)
    requires Moves(mid, faults, missing[i]) && Installed(mid, now, missing[i])
    requires forall c | c != missing[i] :: Same(mid, now, c)
    ensures Progress(d, now, faults, missing, i + 1)
    ensures missing[i] in d.staged && missing[i] in now.targets && now.targets[missing[i]] == d.staged[missing[i]]
  {
    hide Move, Aside, Moves;
    UntouchedNext(d, mid, faults, missing, i);
    forall c ensures c in missing[..i + 1] <==> c in missing[..i] || c == missing[i] { TakeMember(missing, i, c); }
    forall k | 0 <= k < i ensures Moves(d, faults, missing[k]) && Installed(d, now, missing[k]) {
      assert missing[k] != missing[i];
      assert Same(mid, now, missing[k]) && Installed(d, mid, missing[k]);
    }
    forall c | c !in missing[..i + 1] ensures Same(d, now, c) { assert Same(d, mid, c) && Same(mid, now, c); }
    assert Installed(d, now, missing[i]);
  }

  lemma UndoProgress(d: Disk, now: Disk, targets: map<string, Place>, faults: Faults, missing: seq<string>, i: nat)
    requires i <= |missing| && Progress(d, now, faults, missing, i)
    requires RolledBack(now, targets, PromotedList(d, missing, i))
    ensures Undone(d, targets, faults, missing, i)
  {
    hide Aside;
    var promoted := PromotedList(d, missing, i);
    forall k | 0 <= k < i ensures Get(targets, missing[k]) == Returned(d, faults, missing[k]) {
      assert promoted[k].component == missing[k];
      assert Moves(d, faults, missing[k]) && Installed(d, now, missing[k]);
    }
    forall c | c !in missing[..i] ensures Get(targets, c) == Get(d.targets, c) {
      assert Same(d, now, c);
      forall k | 0 <= k < |promoted| ensures promoted[k].component != c { assert missing[..i][k] == missing[k]; }
    }
  }

  lemma UndoRefused(d: Disk, mid: Disk, now: Disk, targets: map<string, Place>, faults: Faults, missing: seq<string>,
                    i: nat)
    requires NoDuplicates(missing) && i < |missing| && Progress(d, mid, faults, missing, i)
    requires forall c | c != missing[i] :: Same(mid, now, c)
    requires Get(now.targets, missing[i]) == Returned(mid, faults, missing[i])
    requires RolledBack(now, targets, PromotedList(d, missing, i))
    ensures Undone(d, targets, faults, missing, i + 1)
  {
    hide Aside;
    UntouchedNext(d, mid, faults, missing, i);
    var promoted := PromotedList(d, missing, i);
    forall k | 0 <= k < i ensures Get(targets, missing[k]) == Returned(d, faults, missing[k]) {
      assert promoted[k].component == missing[k];
      assert Moves(d, faults, missing[k]) && Installed(d, mid, missing[k]) && Same(mid, now, missing[k]);
    }
    forall k | 0 <= k < |promoted| ensures promoted[k].component != missing[i] {}
    forall c | c !in missing[..i + 1] ensures Get(targets, c) == Get(d.targets, c) {
      TakeMember(missing, i, c);
      assert Same(d, mid, c) && Same(mid, now, c);
      forall k | 0 <= k < |promoted| ensures promoted[k].component != c { assert missing[..i][k] == missing[k]; }
    }
  }

  /**
   After a failure every target is exactly as before if and only if no component that was moved aside found a directory
   already sitting at its backup path.
   */
  lemma AllOrNothing(d: Disk, targets: map<string, Place>, faults: Faults, missing: seq<string>, n: nat)
    requires n <= |missing| && Undone(d, targets, faults, missing, n)
    ensures targets == d.targets
       <==> forall k | 0 <= k < n :: MovesAside(d, faults, missing[k]) ==> !IsDirectory(Get(d.backups, missing[k]))
  {
    hide Move;
    forall k | 0 <= k < n
      ensures Get(targets, missing[k]) == Get(d.targets, missing[k])
         <==> (MovesAside(d, faults, missing[k]) ==> !IsDirectory(Get(d.backups, missing[k])))
    {
      var c := missing[k];
      if MovesAside(d, faults, c) { MoveSwallows(d.targets[c], Get(d.backups, c), BaseName(c)); }
    }
    if forall k | 0 <= k < n :: MovesAside(d, faults, missing[k]) ==> !IsDirectory(Get(d.backups, missing[k])) {
      forall c ensures Get(targets, c) == Get(d.targets, c) {
        if c in missing[..n] {
          var k :| 0 <= k < n && missing[..n][k] == c;
          assert missing[k] == c;
        }
      }
      GetEqual(targets, d.targets);
    }
  }

  lemma ProgressDone(d: Disk, now: Disk, faults: Faults, ready: (string, Place) -> bool, missing: seq<string>)
    requires forall k | 0 <= k < |missing| :: Succeeds(d, faults, ready, missing[k])
    requires exists staged :: Progress(d, Disk(now.targets, staged, now.backups), faults, missing, |missing|)
    ensures forall c | c in missing ::
              c in d.staged && c in now.targets && now.targets[c] == d.staged[c] && ready(c, now.targets[c])
    ensures forall c | c in missing ::
              c !in faults.secondMove && Get(now.backups, c) == BackedUp(d.targets, d.backups, c)
    ensures forall c | c !in missing :: Get(now.targets, c) == Get(d.targets, c)
  {
    hide Moves, Aside, BackedUp;
    var staged :| Progress(d, Disk(now.targets, staged, now.backups), faults, missing, |missing|);
    var end := Disk(now.targets, staged, now.backups);
    assert missing[..|missing|] == missing;
    forall c | c in missing
      ensures c in d.staged && Get(now.targets, c) == Some(d.staged[c]) && ready(c, d.staged[c])
      ensures c !in faults.secondMove && Get(now.backups, c) == BackedUp(d.targets, d.backups, c)
    {
      var k :| 0 <= k < |missing| && missing[k] == c;
      assert Installed(d, end, missing[k]) && Succeeds(d, faults, ready, missing[k]);
      MovesNeeds(d, faults, c);
    }
    forall c | c !in missing ensures Get(now.targets, c) == Get(d.targets, c) { assert Same(d, end, c); }
  }

  lemma MovesNeeds(d: Disk, faults: Faults, c: string)
    requires Moves(d, faults, c)
    ensures c in d.staged && c !in faults.secondMove
    ensures BackedUp(d.targets, d.backups, c) == if c in d.targets then Aside(d, c) else Get(d.backups, c)
  {
    hide Move;
  }

  lemma NothingUndone(d: Disk, faults: Faults, missing: seq<string>)
    ensures Undone(d, d.targets, faults, missing, 0)
  {}

  /** What was staged does not matter to what an undone run leaves. */
  lemma UndoneUnstaged(d: Disk, targets: map<string, Place>, faults: Faults, missing: seq<string>, n: nat)
    requires n <= |missing| && Undone(d, targets, faults, missing, n)
    ensures Undone(Disk(d.targets, map[], d.backups), targets, faults, missing, n)
  {
    hide Move;
    forall k | 0 <= k < n ensures Get(targets, missing[k])
                               == Returned(Disk(d.targets, map[], d.backups), faults, missing[k]) {
      assert Get(targets, missing[k]) == Returned(d, faults, missing[k]);
    }
  }

  lemma OneNotReady(c: string, targets: map<string, Place>, ready: (string, Place) -> bool)
    requires c in targets && !ready(c, targets[c])
    ensures NotReady([c], targets, ready) == [c]
  {
    assert [c][1..] == [];
  }

  lemma GetEqual<V>(p: map<string, V>, q: map<string, V>)
    requires forall c :: Get(p, c) == Get(q, c)
    ensures p == q
  {
    forall c ensures (c in p <==> c in q) && (c in p ==> p[c] == q[c]) { assert Get(p, c) == Get(q, c); }
  }

  /** Backups are named by the second, so a second import can find the first one's backup directory in its way. */
  lemma OccupiedBackupBreaksRollback(held: Tree, other: Tree)
    requires forall n | n in other :: n != "server-runtimes" && !StartsWith(n, "server-runtimes/")
    ensures var c := "server-runtimes";
            var d := Disk(map[c := Directory(held)], map[], map[c := Directory(other)]);
            var faults := Faults({}, {}, {c}, false);
            MovesAside(d, faults, c) && Returned(d, faults, c) == Some(Nested(Directory(other), c, Directory(held)))
            && forall targets :: Undone(d, targets, faults, [c], 1) ==> targets != d.targets
  {
    var c := "server-runtimes";
    var d := Disk(map[c := Directory(held)], map[], map[c := Directory(other)]);
    var faults := Faults({}, {}, {c}, false);
    assert c + "/" == "server-runtimes/";
    assert MovesAside(d, faults, c);
    forall targets | Undone(d, targets, faults, [c], 1) ensures targets != d.targets {
      AllOrNothing(d, targets, faults, [c], 1);
      assert MovesAside(d, faults, [c][0]) && IsDirectory(Get(d.backups, [c][0]));
    }
  }
}
