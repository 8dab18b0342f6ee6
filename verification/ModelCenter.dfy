/**
 The model center's tables: selections, bindings, the single configuration, and the collection of unreferenced rows.
 */
module ModelCenter {
  import opened Options

  type Path = string
  type Role = string
  type Digest = string

  /** Derived from the role an asset was first seen under and its path. */
  datatype AssetId = AssetId(role: Role, path: Path)

  /** A selected folder's identifier is derived from its case-folded path; other roots have names of their own. */
  datatype RootId = Selection(folded: Path) | Named(name: string)

  datatype Root = Root(path: Path, readOnly: bool)
  datatype AssetState = Candidate | Verified | Incompatible | Missing | Retired
  datatype Asset = Asset(root: RootId, role: Role, path: Path, bytes: nat, sha256: string, state: AssetState)
  datatype Configuration = Configuration(active: bool, createdAt: int, activatedAt: int)

  /** Primary key of a configuration's asset row. */
  datatype Row = Row(configuration: Digest, role: Role)

  /** One call of the model center; an activation carries the bindings it read before its transaction began. */
  datatype Operation =
    | FolderSelected(path: Path, found: seq<Found>)
    | FileSelected(folder: Path, file: Found)
    | RoleBound(role: Role, asset: AssetId, containerAccepted: bool)
    | RoleUnbound(unbound: Role)
    | RootDeleted(root: RootId)
    | Activated(digest: Digest, snapshot: Bindings, now: int)

  /** The one file a folder scan found for a role. */
  datatype Found = Found(role: Role, path: Path, bytes: nat, sha256: string)

  type Roots = map<RootId, Root>
  type Assets = map<AssetId, Asset>
  type Bindings = map<Role, AssetId>
  type Configurations = map<Digest, Configuration>
  type Rows = map<Row, AssetId>

  // ---------------------------------------------------------------- what the keys of the schema demand

  predicate AssetsOk(roots: Roots, assets: Assets) {
    && (forall a | a in assets :: assets[a].root in roots && assets[a].path == a.path)
    && (forall a, b | a in assets && b in assets && assets[a].path == assets[b].path :: a == b)
  }

  predicate RootsOk(roots: Roots) {
    forall r, s | r in roots && s in roots && roots[r].path == roots[s].path :: r == s
  }

  predicate BindingsOk(assets: Assets, bindings: Bindings) {
    forall r | r in bindings :: bindings[r] in assets
  }

  predicate RowsOk(assets: Assets, configurations: Configurations, rows: Rows) {
    forall k | k in rows :: rows[k] in assets && k.configuration in configurations
  }

  predicate AtMostOne(configurations: Configurations) {
    forall c, d | c in configurations && d in configurations :: c == d
  }

  predicate HasAssets(assets: Assets, root: RootId) {
    exists a | a in assets :: assets[a].root == root
  }

  /** The asset rows of one configuration. */
  function ConfigurationRows(digest: Digest, snapshot: Bindings): Rows {
    map r | r in snapshot :: Row(digest, r) := snapshot[r]
  }

  /** UPDATE model_configurations SET active=0 */
  function Deactivated(configurations: Configurations): Configurations {
    map d | d in configurations :: configurations[d].(active := false)
  }

  function RowsWithout(rows: Rows, digest: Digest): Rows {
    map k | k in rows && k.configuration != digest :: rows[k]
  }

  /** ON DELETE CASCADE: rows of deleted configurations disappear. */
  function Cascaded(rows: Rows, configurations: Configurations): Rows {
    map k | k in rows && k.configuration in configurations :: rows[k]
  }

  /** Old roots are as they were; the new one, if any, is the writable root of the folder. */
  predicate RootsAfter(before: Roots, roots: Roots, root: RootId, path: Path) {
    forall r | r in roots :: roots[r] == if r in before then before[r] else Root(path, false)
  }

  /** What is left of the old roots and the new one: the read-only ones and those with assets. */
  ghost predicate RootsKept(before: Roots, roots: Roots, root: RootId, assets: Assets) {
    forall r :: r in roots <==> (r in before && before[r].readOnly)
                                || ((r in before || r == root) && HasAssets(assets, r))
  }

  lemma RootsCollected(before: Roots, mid: Roots, roots: Roots, root: RootId, path: Path, assets: Assets)
    requires mid == if root in before then before else before[root := Root(path, false)]
    requires roots == map r | r in mid && (mid[r].readOnly || HasAssets(assets, r)) :: mid[r]
    ensures RootsAfter(before, roots, root, path) && RootsKept(before, roots, root, assets)
  {
    hide HasAssets;
  }

  lemma RowsSwitched(rows: Rows, digest: Digest, snapshot: Bindings, configurations: Configurations)
    requires configurations.Keys == {digest}
    ensures Cascaded(RowsWithout(rows, digest) + ConfigurationRows(digest, snapshot), configurations)
         == ConfigurationRows(digest, snapshot)
  {}

  /** One row per role of the snapshot, and every asset of the snapshot needed. */
  lemma SnapshotStored(bindings: Bindings, digest: Digest, snapshot: Bindings)
    ensures var rows := ConfigurationRows(digest, snapshot);
            && (forall k :: k in rows <==> k.configuration == digest && k.role in snapshot)
            && (forall r | r in snapshot :: rows[Row(digest, r)] == snapshot[r]
                                            && Referenced(bindings, rows, snapshot[r]))
  {
    var rows := ConfigurationRows(digest, snapshot);
    forall k ensures k in rows <==> k.configuration == digest && k.role in snapshot {
      if k.configuration == digest && k.role in snapshot { assert Row(digest, k.role) == k; }
    }
    forall r | r in snapshot ensures Referenced(bindings, rows, snapshot[r]) {
      assert Row(digest, r) in rows && rows[Row(digest, r)] in rows.Values;
    }
  }

  lemma SwitchedRowsOk(assets: Assets, digest: Digest, snapshot: Bindings, configurations: Configurations)
    requires digest in configurations && forall r | r in snapshot :: snapshot[r] in assets
    ensures RowsOk(assets, configurations, ConfigurationRows(digest, snapshot))
  {}

  predicate Referenced(bindings: Bindings, rows: Rows, a: AssetId) {
    a in bindings.Values || a in rows.Values
  }

  /**
   The root row a folder gets: the one with its path, else a new one under its derived identifier unless that is taken.
   */
  ghost predicate RootFor(roots: Roots, path: Path, fold: Path -> Path, r: RootId) {
    if r in roots then roots[r].path == path
    else r == Selection(fold(path)) && forall s | s in roots :: roots[s].path != path
  }

  class ModelCenter {
    var roots: Roots
    var assets: Assets
    var bindings: Bindings
    var configurations: Configurations
    var rows: Rows

    /** Opens a database whose keys hold and brings it down to a single configuration. */
    constructor (roots: Roots, assets: Assets, bindings: Bindings, configurations: Configurations, rows: Rows)
      requires RootsOk(roots) && AssetsOk(roots, assets) && BindingsOk(assets, bindings)
               && RowsOk(assets, configurations, rows)
      ensures Valid() && this.bindings == bindings && forall a | a in this.assets ::
                Referenced(this.bindings, this.rows, a)
    {
      this.roots, this.assets, this.bindings, this.configurations, this.rows := roots, assets, bindings, configurations,
                                                                                rows;
      new;
      CleanupSingleActiveState();
    }

    /** Every key of the schema holds. */
    ghost predicate Sound()
      reads this
    {
      RootsOk(roots) && AssetsOk(roots, assets) && BindingsOk(assets, bindings) && RowsOk(assets, configurations, rows)
    }

    /** What the model center keeps from construction on. */
    ghost predicate Valid()
      reads this
    {
      Sound() && AtMostOne(configurations)
    }

    /** DELETE FROM model_assets: refused as a whole when a binding or a configuration restricts one of them. */
    method DeleteAssets(doomed: set<AssetId>) returns (ok: bool)
      modifies `assets
      ensures ok <==> forall a | a in doomed && a in old(assets) :: !Referenced(bindings, rows, a)
      ensures assets == if ok then old(assets) - doomed else old(assets)
    {
      ok := forall a | a in doomed && a in assets :: !Referenced(bindings, rows, a);
      if ok { assets := assets - doomed; }
    }

    /** DELETE FROM model_library_roots: cascades to the assets of a root, so their restrictions apply. */
    method DeleteRoots(doomed: set<RootId>) returns (ok: bool)
      modifies `roots, `assets
      ensures ok <==> forall a | a in old(assets) && old(assets)[a].root in doomed :: !Referenced(bindings, rows, a)
      ensures !ok ==> roots == old(roots) && assets == old(assets)
      ensures ok ==> roots == old(roots) - doomed
      ensures ok ==> assets == map a | a in old(assets) && old(assets)[a].root !in doomed :: old(assets)[a]
    {
      var under := set a | a in assets && assets[a].root in doomed;
      ok := DeleteAssets(under);
      if ok {
        roots := roots - doomed;
        assert assets == map a | a in old(assets) && old(assets)[a].root !in doomed :: old(assets)[a];
      }
    }

    /** Collects assets that neither a binding nor a configuration names; it never meets a restriction. */
    method CollectAssets()
      requires Sound()
      modifies `assets
      ensures Sound() && assets == map a | a in old(assets) && Referenced(bindings, rows, a) :: old(assets)[a]
    {
      var doomed := set a | a in assets && !Referenced(bindings, rows, a);
      var ok := DeleteAssets(doomed);
      assert ok;
      forall r | r in bindings ensures bindings[r] in assets { assert bindings[r] in bindings.Values; }
      forall k | k in rows ensures rows[k] in assets { assert rows[k] in rows.Values; }
    }

    /** Collects writable roots without assets; no asset goes with them. */
    method CollectRoots()
      requires Sound()
      modifies `roots, `assets
      ensures Sound() && assets == old(assets)
      ensures roots == map r | r in old(roots) && (old(roots)[r].readOnly || HasAssets(assets, r)) :: old(roots)[r]
    {
      var used := set a | a in assets :: assets[a].root;
      var doomed := set r | r in roots && !roots[r].readOnly && r !in used;
      forall a | a in assets ensures assets[a].root !in doomed { assert assets[a].root in used; }
      var ok := DeleteRoots(doomed);
      assert ok && assets == old(assets);
    }

    /** Start-up: at most one configuration survives, the most recently activated one that is marked active. */
    method CleanupSingleActiveState()
      requires Sound()
      modifies this
      ensures Valid() && bindings == old(bindings)
      ensures (forall d | d in old(configurations) :: !old(configurations)[d].active) ==> configurations == map[]
      ensures (exists d | d in old(configurations) :: old(configurations)[d].active) ==>
                exists d | NewestActive(old(configurations), d) :: configurations == map[d := old(configurations)[d]]
      ensures forall d, e | d in configurations && e in old(configurations) && old(configurations)[e].active ::
                old(configurations)[e].activatedAt < configurations[d].activatedAt
                || (old(configurations)[e].activatedAt == configurations[d].activatedAt
                    && old(configurations)[e].createdAt <= configurations[d].createdAt)
      ensures rows == Cascaded(old(rows), configurations)
      ensures assets == map a | a in old(assets) && Referenced(bindings, rows, a) :: old(assets)[a]
      ensures roots == map r | r in old(roots) && (old(roots)[r].readOnly || HasAssets(assets, r)) :: old(roots)[r]
    {
      hide AssetsOk, BindingsOk, RootsOk, Referenced, Newer;
      if d0 :| d0 in configurations && configurations[d0].active {
        NewestExists(configurations, configurations.Keys, d0);
        var d :| NewestActive(configurations, d);
        NewestIsLatest(configurations, d);
        configurations := map[d := configurations[d]];
      } else {
        configurations := map[];
      }
      rows := Cascaded(rows, configurations);
      CollectAssets();
      CollectRoots();
    }

    /**
     The root row of a selected folder: the one with its path, or a new one unless its derived identifier is taken.
     */
    method UpsertRoot(path: Path, readOnly: bool, fold: Path -> Path) returns (root: Option<RootId>)
      requires Sound()
      modifies `roots
      ensures Sound()
      ensures root.None? <==> forall r :: !RootFor(old(roots), path, fold, r)
      ensures root.None? ==> roots == old(roots)
      ensures root.Some? ==> RootFor(old(roots), path, fold, root.value)
      ensures root.Some? ==> roots == if root.value in old(roots)
                                      then old(roots) else old(roots)[root.value := Root(path, readOnly)]
    {
      if r :| r in roots && roots[r].path == path {
        assert RootFor(roots, path, fold, r);
        return Some(r);
      }
      var id := Selection(fold(path));
      if id in roots { return None; }
      assert RootFor(roots, path, fold, id);
      roots := roots[id := Root(path, readOnly)];
      return Some(id);
    }

    /**
     Registers a selected file as a candidate and binds its role to it; a row that changes its role loses its bindings.
     */
    method UpsertSelectedAsset(root: RootId, found: Found) returns (id: AssetId)
      requires Sound() && root in roots
      modifies `assets, `bindings
      ensures Sound()
      ensures assets == old(assets)[id := CandidateRow(root, found)]
              && (id in old(assets) ==> old(assets)[id].path == found.path)
      ensures bindings == Rebound(old(assets), old(bindings), found)[found.role := id]
    {
      hide Displaced, Sound, AssetsOk, BindingsOk, RowsOk, RootsOk;
      ghost var before := bindings;
      id := AssetId(found.role, found.path);
      SoundParts();
      if a :| a in assets && assets[a].path == found.path {
        id := a;
        ReboundDropsOne(roots, assets, bindings, found, a);
        if assets[a].role != found.role { bindings := map r | r in bindings && bindings[r] != a :: bindings[r]; }
      } else {
        ReboundDropsNone(assets, bindings, found);
      }
      assert bindings == Rebound(assets, before, found);
      UpsertKeeps(roots, assets, before, configurations, rows, id, root, found);
      assets := assets[id := CandidateRow(root, found)];
      bindings := bindings[found.role := id];
      SoundWhole();
    }

    /** The transaction of a folder selection: one candidate per uniquely found role, then both collections. */
    method SelectFolder(path: Path, found: seq<Found>, fold: Path -> Path) returns (ok: bool)
      requires Valid() && DistinctFound(found)
      modifies this
      ensures Valid() && configurations == old(configurations) && rows == old(rows)
      ensures ok <==> exists r :: RootFor(old(roots), path, fold, r)
      ensures !ok ==> roots == old(roots) && assets == old(assets) && bindings == old(bindings)
      ensures ok ==> exists root | RootFor(old(roots), path, fold, root) ::
                  && Registered(old(assets), old(bindings), assets, bindings, root, found)
                  && RootsAfter(old(roots), roots, root, path) && RootsKept(old(roots), roots, root, assets)
      ensures ok ==> forall a | a in assets :: Referenced(bindings, rows, a)
    {
      hide Sound, Registered, DistinctFound, Referenced, AssetsOk, RowsOk, BindingsOk, RootsOk, OwnPaths;
      SoundParts();
      var root := UpsertRoot(path, false, fold);
      if root.None? { return false; }
      RegisteredStarts(assets, bindings, root.value);
      ghost var mid := roots;
      var i := 0;
      while i < |found|
        invariant 0 <= i <= |found| && Sound() && roots == mid && root.value in roots && rows == old(rows)
                  && configurations == old(configurations)
        invariant Registered(old(assets), old(bindings), assets, bindings, root.value, found[..i])
      {
        ghost var midAssets, midBindings := assets, bindings;
        SoundParts();
        var id := UpsertSelectedAsset(root.value, found[i]);
        SoundParts();
        RegisteredNext(old(assets), old(bindings), midAssets, midBindings, assets, bindings, root.value, found, i, id);
        i := i + 1;
      }
      assert found[..i] == found;
      ghost var before := assets;
      CollectAssets();
      RegisteredCollected(old(assets), old(bindings), before, assets, bindings, rows, root.value, found);
      CollectRoots();
      RootsCollected(old(roots), mid, roots, root.value, path, assets);
      ok := true;
    }

    /** The transaction of a single file selection; only assets are collected. */
    method SelectFile(folder: Path, found: Found, fold: Path -> Path) returns (ok: bool)
      requires Valid()
      modifies this
      ensures Valid() && configurations == old(configurations) && rows == old(rows)
      ensures ok <==> exists r :: RootFor(old(roots), folder, fold, r)
      ensures !ok ==> roots == old(roots) && assets == old(assets) && bindings == old(bindings)
      ensures ok ==> exists root | RootFor(old(roots), folder, fold, root) ::
                  && Registered(old(assets), old(bindings), assets, bindings, root, [found])
                  && RootsAfter(old(roots), roots, root, folder) && roots.Keys == old(roots).Keys + {root}
      ensures ok ==> forall a | a in assets :: Referenced(bindings, rows, a)
    {
      hide Sound, Registered, DistinctFound, Referenced, AssetsOk, RowsOk, BindingsOk, RootsOk, OwnPaths;
      SoundParts();
      var root := UpsertRoot(folder, false, fold);
      if root.None? { return false; }
      RegisteredStarts(assets, bindings, root.value);
      SoundParts();
      var id := UpsertSelectedAsset(root.value, found);
      SoundParts();
      OneIsDistinct(found);
      RegisteredNext(old(assets), old(bindings), old(assets), old(bindings), assets, bindings, root.value, [found], 0,
                     id);
      ghost var before := assets;
      CollectAssets();
      RegisteredCollected(old(assets), old(bindings), before, assets, bindings, rows, root.value, [found]);
      ok := true;
    }

    /** Binds a role to an existing asset of that role in a bindable state. */
    method Bind(role: Role, id: AssetId, containerAccepted: bool) returns (ok: bool)
      requires Valid()
      modifies `bindings
      ensures Valid()
      ensures ok <==> id in assets && assets[id].role == role && assets[id].state in {Candidate, Verified, Incompatible}
                      && containerAccepted
      ensures bindings == if ok then old(bindings)[role := id] else old(bindings)
    {
      ok := id in assets && assets[id].role == role && assets[id].state in {Candidate, Verified, Incompatible}
            && containerAccepted;
      if ok { bindings := bindings[role := id]; }
    }

    method Unbind(role: Role)
      requires Valid()
      modifies `bindings
      ensures Valid() && bindings == old(bindings) - {role}
    {
      bindings := bindings - {role};
    }

    /** Deletes a writable root and its assets; refused while a binding or the configuration needs one of them. */
    method DeleteRoot(root: RootId) returns (ok: bool)
      requires Valid()
      modifies `roots, `assets
      ensures Valid()
      ensures ok <==> (root in old(roots) && !old(roots)[root].readOnly
                       && forall a | a in old(assets) && old(assets)[a].root == root :: !Referenced(bindings, rows, a))
      ensures !ok ==> roots == old(roots) && assets == old(assets)
      ensures ok ==> roots == old(roots) - {root}
    {
      if root !in roots || roots[root].readOnly { return false; }
      if r :| r in bindings && assets[bindings[r]].root == root {
        assert bindings[r] in bindings.Values;
        return false;
      }
      ok := DeleteRoots({root});
      forall r | r in bindings ensures bindings[r] in assets {}
      forall k | k in rows ensures rows[k] in assets { assert rows[k] in rows.Values; }
    }

    /** The switching transaction, for bindings read earlier; it is rolled back when one of their assets is gone. */
    method Activate(digest: Digest, snapshot: Bindings, now: int) returns (ok: bool)
      requires Valid()
      modifies this
      ensures Valid() && roots == old(roots) && bindings == old(bindings)
      ensures ok <==> forall r | r in snapshot :: snapshot[r] in old(assets)
      ensures !ok ==> assets == old(assets) && configurations == old(configurations) && rows == old(rows)
      ensures ok ==> configurations.Keys == {digest} && configurations[digest].active
                     && configurations[digest].activatedAt == now
      ensures ok ==> (configurations[digest].createdAt
                      == if digest in old(configurations) then old(configurations)[digest].createdAt else now)
      ensures ok ==> forall k :: k in rows <==> k.configuration == digest && k.role in snapshot
      ensures ok ==> forall r | r in snapshot :: rows[Row(digest, r)] == snapshot[r] && snapshot[r] in assets
      ensures ok ==> forall a :: a in assets <==> a in old(assets) && Referenced(bindings, rows, a)
    {
      hide Sound, AssetsOk, BindingsOk, RootsOk, RowsOk, Referenced, Deactivated, RowsWithout, Cascaded,
        ConfigurationRows;
      SoundParts();
      var savedConfigurations, savedRows := configurations, rows;
      var created := if digest in configurations then configurations[digest].createdAt else now;
      configurations := Deactivated(configurations)[digest := Configuration(true, created, now)];
      rows := RowsWithout(rows, digest);
      if r :| r in snapshot && snapshot[r] !in assets {
        configurations, rows := savedConfigurations, savedRows;
        return false;
      }
      rows := rows + ConfigurationRows(digest, snapshot);
      configurations := map[digest := configurations[digest]];
      rows := Cascaded(rows, configurations);
      RowsSwitched(savedRows, digest, snapshot, configurations);
      SwitchedRowsOk(assets, digest, snapshot, configurations);
      SoundWhole();
      SnapshotStored(bindings, digest, snapshot);
      CollectAssets();
      assert forall a | a in assets :: Referenced(bindings, rows, a);
      ok := true;
    }

    /** One active configuration and no other. */
    ghost predicate SwitchedOn()
      reads `configurations
    {
      exists d :: configurations.Keys == {d} && configurations[d].active
    }

    method Execute(op: Operation, fold: Path -> Path)
      requires Valid() && (op.FolderSelected? ==> DistinctFound(op.found))
      modifies this
      ensures Valid()
      ensures (configurations == old(configurations) && rows == old(rows)) || (op.Activated? && SwitchedOn())
    {
      hide Valid;
      match op
      case FolderSelected(path, found) => var _ := SelectFolder(path, found, fold);
      case FileSelected(folder, file) => var _ := SelectFile(folder, file, fold);
      case RoleBound(role, asset, containerAccepted) => var _ := Bind(role, asset, containerAccepted);
      case RoleUnbound(role) => Unbind(role);
      case RootDeleted(root) => var _ := DeleteRoot(root);
      case Activated(digest, snapshot, now) => var _ := Activate(digest, snapshot, now);
    }

    /** Any run of calls: the keys hold throughout, and the configuration is the initial one or a single active one. */
    method Run(ops: seq<Operation>, fold: Path -> Path)
      requires Valid() && forall k | 0 <= k < |ops| && ops[k].FolderSelected? :: DistinctFound(ops[k].found)
      modifies this
      ensures Valid()
      ensures (configurations == old(configurations) && rows == old(rows)) || SwitchedOn()
      ensures (forall k | 0 <= k < |ops| :: !ops[k].Activated?) ==>
                configurations == old(configurations) && rows == old(rows)
    {
      hide DistinctFound, AssetsOk, BindingsOk, RootsOk, AtMostOne;
      var i := 0;
      while i < |ops|
        invariant 0 <= i <= |ops| && Valid()
        invariant (configurations == old(configurations) && rows == old(rows)) || SwitchedOn()
        invariant (forall k | 0 <= k < i :: !ops[k].Activated?) ==>
                    configurations == old(configurations) && rows == old(rows)
      {
        Execute(ops[i], fold);
        i := i + 1;
      }
    }

    lemma SoundParts()
      requires Sound()
      ensures AssetsOk(roots, assets) && BindingsOk(assets, bindings) && RootsOk(roots)
              && RowsOk(assets, configurations, rows)
      ensures OwnPaths(assets)
    {}

    lemma SoundWhole()
      requires AssetsOk(roots, assets) && BindingsOk(assets, bindings) && RootsOk(roots)
               && RowsOk(assets, configurations, rows)
      ensures Sound()
    {}
  }

  ghost predicate DistinctFound(found: seq<Found>) {
    forall j, k | 0 <= j < k < |found| :: found[j].role != found[k].role && found[j].path != found[k].path
  }

  ghost predicate RoleFound(found: seq<Found>, r: Role) {
    exists k | 0 <= k < |found| :: found[k].role == r
  }

  ghost predicate PathFound(found: seq<Found>, p: Path) {
    exists k | 0 <= k < |found| :: found[k].path == p
  }

  /** Some found file took over, for another role, the row that role `r` was bound to. */
  ghost predicate DisplacedByAny(assets: Assets, bindings: Bindings, found: seq<Found>, r: Role) {
    exists k | 0 <= k < |found| :: Displaced(assets, bindings, found[k], r)
  }

  /** The role of a found file is bound to a candidate row for it. */
  predicate HeldBy(assets: Assets, bindings: Bindings, root: RootId, found: Found) {
    found.role in bindings && bindings[found.role] in assets
    && assets[bindings[found.role]] == CandidateRow(root, found)
  }

  /**
   From `assets0` and `bindings0`, the found files were registered under `root`: each role is bound to its file, every
   other role keeps its binding unless it was displaced.
   */
  ghost predicate Registered(assets0: Assets, bindings0: Bindings, assets: Assets, bindings: Bindings, root: RootId,
                             found: seq<Found>) {
    && (forall k | 0 <= k < |found| :: HeldBy(assets, bindings, root, found[k]))
    && (forall r | !RoleFound(found, r) ::
          r in bindings <==> r in bindings0 && !DisplacedByAny(assets0, bindings0, found, r))
    && (forall r | !RoleFound(found, r) && r in bindings :: r in bindings0 && bindings[r] == bindings0[r])
    && (forall a | a in assets && !PathFound(found, assets[a].path) :: a in assets0 && assets[a] == assets0[a])
  }

  ghost predicate OwnPaths(assets: Assets) {
    forall a | a in assets :: assets[a].path == a.path
  }

  lemma TakeFound(found: seq<Found>, i: nat)
    requires i < |found|
    ensures forall r :: RoleFound(found[..i + 1], r) <==> RoleFound(found[..i], r) || r == found[i].role
    ensures forall p :: PathFound(found[..i + 1], p) <==> PathFound(found[..i], p) || p == found[i].path
  {
    var more, fewer := found[..i + 1], found[..i];
    assert forall k | 0 <= k < i :: more[k] == fewer[k];
    assert more[i] == found[i];
    forall r ensures RoleFound(more, r) <==> RoleFound(fewer, r) || r == found[i].role {
      if RoleFound(fewer, r) {
        var k :| 0 <= k < i && fewer[k].role == r;
        assert more[k].role == r;
      }
    }
    forall p ensures PathFound(more, p) <==> PathFound(fewer, p) || p == found[i].path {
      if PathFound(fewer, p) {
        var k :| 0 <= k < i && fewer[k].path == p;
        assert more[k].path == p;
      }
    }
  }

  lemma FoundNow(found: seq<Found>, i: nat)
    requires i < |found|
    ensures PathFound(found[..i + 1], found[i].path)
  {
    assert found[..i + 1][i] == found[i];
  }

  lemma TakeDisplaced(assets: Assets, bindings: Bindings, found: seq<Found>, i: nat, r: Role)
    requires i < |found|
    ensures DisplacedByAny(assets, bindings, found[..i + 1], r)
       <==> DisplacedByAny(assets, bindings, found[..i], r) || Displaced(assets, bindings, found[i], r)
  {
    hide Displaced;
    var more, fewer := found[..i + 1], found[..i];
    assert forall k | 0 <= k < i :: more[k] == fewer[k];
    assert more[i] == found[i];
  }

  lemma NotFoundBefore(found: seq<Found>, i: nat)
    requires DistinctFound(found) && i < |found|
    ensures !RoleFound(found[..i], found[i].role) && !PathFound(found[..i], found[i].path)
  {}

  /** A binding that no earlier file touched is displaced now exactly if it would have been at the start. */
  lemma DisplacedAsBefore(assets0: Assets, bindings0: Bindings, mid: Assets, midBindings: Bindings, root: RootId,
                          found: seq<Found>, i: nat, r: Role)
    requires DistinctFound(found) && i < |found| && Registered(assets0, bindings0, mid, midBindings, root, found[..i])
    requires OwnPaths(assets0) && OwnPaths(mid) && BindingsOk(mid, midBindings) && BindingsOk(assets0, bindings0)
    requires r in midBindings && !RoleFound(found[..i], r)
    ensures Displaced(mid, midBindings, found[i], r) <==> Displaced(assets0, bindings0, found[i], r)
  {
    hide RoleFound, DisplacedByAny, DistinctFound, HeldBy;
    NotFoundBefore(found, i);
    assert midBindings[r] in mid && midBindings[r] == bindings0[r];
  }

  lemma RegisteredNext(assets0: Assets, bindings0: Bindings, mid: Assets, midBindings: Bindings, assets: Assets,
                       bindings: Bindings,
                       root: RootId, found: seq<Found>, i: nat, id: AssetId)
    requires DistinctFound(found) && i < |found| && Registered(assets0, bindings0, mid, midBindings, root, found[..i])
    requires OwnPaths(assets0) && OwnPaths(mid) && BindingsOk(mid, midBindings) && BindingsOk(assets0, bindings0)
    requires assets == mid[id := CandidateRow(root, found[i])] && (id in mid ==> mid[id].path == found[i].path)
    requires bindings == Rebound(mid, midBindings, found[i])[found[i].role := id]
    ensures Registered(assets0, bindings0, assets, bindings, root, found[..i + 1])
  {
    hide RoleFound, PathFound, DisplacedByAny, BindingsOk, Registered, Displaced, HeldBy;
    var more, fewer := found[..i + 1], found[..i];
    TakeFound(found, i);
    forall k | 0 <= k < |more| ensures HeldBy(assets, bindings, root, more[k]) {
      if k < i {
        HeldStays(assets0, bindings0, mid, midBindings, assets, bindings, root, found, i, id, k);
      } else {
        HeldNow(assets, bindings, root, found[i], id);
      }
    }
    forall r | !RoleFound(more, r)
      ensures r in bindings <==> r in bindings0 && !DisplacedByAny(assets0, bindings0, more, r)
      ensures r in bindings ==> bindings[r] == bindings0[r]
    {
      OtherRole(assets0, bindings0, mid, midBindings, bindings, root, found, i, id, r);
    }
    forall a | a in assets && !PathFound(more, assets[a].path) ensures a in assets0 && assets[a] == assets0[a] {
      FoundNow(found, i);
      OtherPath(assets0, bindings0, mid, midBindings, root, fewer, a);
    }
    RegisteredWhole(assets0, bindings0, assets, bindings, root, more);
  }

  lemma RegisteredWhole(assets0: Assets, bindings0: Bindings, assets: Assets, bindings: Bindings, root: RootId,
                        found: seq<Found>)
    requires forall k | 0 <= k < |found| :: HeldBy(assets, bindings, root, found[k])
    requires forall r | !RoleFound(found, r) ::
               r in bindings <==> r in bindings0 && !DisplacedByAny(assets0, bindings0, found, r)
    requires forall r | !RoleFound(found, r) && r in bindings :: r in bindings0 && bindings[r] == bindings0[r]
    requires forall a | a in assets && !PathFound(found, assets[a].path) :: a in assets0 && assets[a] == assets0[a]
    ensures Registered(assets0, bindings0, assets, bindings, root, found)
  {}

  lemma HeldNow(assets: Assets, bindings: Bindings, root: RootId, found: Found, id: AssetId)
    requires found.role in bindings && bindings[found.role] == id && id in assets
             && assets[id] == CandidateRow(root, found)
    ensures HeldBy(assets, bindings, root, found)
  {}

  lemma HeldStays(assets0: Assets, bindings0: Bindings, mid: Assets, midBindings: Bindings, assets: Assets,
                  bindings: Bindings,
                  root: RootId, found: seq<Found>, i: nat, id: AssetId, k: nat)
    requires DistinctFound(found) && k < i < |found|
             && Registered(assets0, bindings0, mid, midBindings, root, found[..i])
    requires assets == mid[id := CandidateRow(root, found[i])] && (id in mid ==> mid[id].path == found[i].path)
    requires bindings == Rebound(mid, midBindings, found[i])[found[i].role := id]
    ensures HeldBy(assets, bindings, root, found[k])
  {
    hide RoleFound, PathFound, DisplacedByAny;
    assert found[..i][k] == found[k];
    assert HeldBy(mid, midBindings, root, found[k]);
  }

  lemma OtherRole(assets0: Assets, bindings0: Bindings, mid: Assets, midBindings: Bindings, bindings: Bindings,
                  root: RootId,
                  found: seq<Found>, i: nat, id: AssetId, r: Role)
    requires DistinctFound(found) && i < |found| && Registered(assets0, bindings0, mid, midBindings, root, found[..i])
    requires OwnPaths(assets0) && OwnPaths(mid) && BindingsOk(mid, midBindings) && BindingsOk(assets0, bindings0)
    requires bindings == Rebound(mid, midBindings, found[i])[found[i].role := id]
    requires !RoleFound(found[..i], r) && r != found[i].role
    ensures r in bindings <==> r in bindings0 && !DisplacedByAny(assets0, bindings0, found[..i + 1], r)
    ensures r in bindings ==> bindings[r] == bindings0[r]
  {
    hide RoleFound, PathFound, DisplacedByAny, Displaced, HeldBy, OwnPaths, BindingsOk, DistinctFound;
    TakeDisplaced(assets0, bindings0, found, i, r);
    if r in midBindings { DisplacedAsBefore(assets0, bindings0, mid, midBindings, root, found, i, r); }
  }

  lemma OtherPath(assets0: Assets, bindings0: Bindings, mid: Assets, midBindings: Bindings, root: RootId,
                  found: seq<Found>, a: AssetId)
    requires Registered(assets0, bindings0, mid, midBindings, root, found) && a in mid && !PathFound(found, mid[a].path)
    ensures a in assets0 && mid[a] == assets0[a]
  {}

  lemma OneIsDistinct(found: Found)
    ensures DistinctFound([found]) && [found][..0] == [] && [found][..1] == [found]
  {}

  lemma RegisteredStarts(assets: Assets, bindings: Bindings, root: RootId)
    ensures Registered(assets, bindings, assets, bindings, root, [])
  {}

  lemma RegisteredCollected(assets0: Assets, bindings0: Bindings, before: Assets, assets: Assets, bindings: Bindings,
                            rows: Rows,
                            root: RootId, found: seq<Found>)
    requires Registered(assets0, bindings0, before, bindings, root, found)
    requires assets == map a | a in before && Referenced(bindings, rows, a) :: before[a]
    ensures Registered(assets0, bindings0, assets, bindings, root, found)
  {
    hide RoleFound, PathFound, DisplacedByAny;
    forall r | r in bindings ensures Referenced(bindings, rows, bindings[r]) { assert bindings[r] in bindings.Values; }
  }

  function CandidateRow(root: RootId, found: Found): Asset {
    Asset(root, found.role, found.path, found.bytes, found.sha256, Candidate)
  }

  /** The bindings that survive registering a file: those not displaced by its row's change of role. */
  function Rebound(assets: Assets, bindings: Bindings, found: Found): Bindings {
    map r | r in bindings && !Displaced(assets, bindings, found, r) :: bindings[r]
  }

  lemma ReboundDropsOne(roots: Roots, assets: Assets, bindings: Bindings, found: Found, a: AssetId)
    requires AssetsOk(roots, assets) && BindingsOk(assets, bindings) && a in assets && assets[a].path == found.path
    ensures Rebound(assets, bindings, found)
         == if assets[a].role == found.role then bindings else map r | r in bindings && bindings[r] != a :: bindings[r]
  {
    forall r | r in bindings
      ensures Displaced(assets, bindings, found, r) <==> bindings[r] == a && assets[a].role != found.role
    {}
  }

  lemma ReboundDropsNone(assets: Assets, bindings: Bindings, found: Found)
    requires forall a | a in assets :: assets[a].path != found.path
    ensures Rebound(assets, bindings, found) == bindings
  {}

  lemma UpsertKeeps(roots: Roots, assets: Assets, bindings: Bindings, configurations: Configurations, rows: Rows,
                    id: AssetId, root: RootId, found: Found)
    requires AssetsOk(roots, assets) && BindingsOk(assets, bindings) && RowsOk(assets, configurations, rows)
             && root in roots
    requires (id in assets && assets[id].path == found.path)
             || (id == AssetId(found.role, found.path) && forall a | a in assets :: assets[a].path != found.path)
    ensures AssetsOk(roots, assets[id := CandidateRow(root, found)])
    ensures BindingsOk(assets[id := CandidateRow(root, found)], Rebound(assets, bindings, found)[found.role := id])
    ensures RowsOk(assets[id := CandidateRow(root, found)], configurations, rows)
  {}

  predicate Newer(a: Configuration, b: Configuration) {
    a.activatedAt > b.activatedAt || (a.activatedAt == b.activatedAt && a.createdAt > b.createdAt)
  }

  /** The row that ORDER BY activated_at DESC, created_at DESC LIMIT 1 picks among the active ones. */
  predicate NewestActive(configurations: Configurations, d: Digest) {
    d in configurations && configurations[d].active
    && forall e | e in configurations && configurations[e].active :: !Newer(configurations[e], configurations[d])
  }

  lemma NewestIsLatest(configurations: Configurations, d: Digest)
    requires NewestActive(configurations, d)
    ensures forall e | e in configurations && configurations[e].active ::
              configurations[e].activatedAt < configurations[d].activatedAt
              || (configurations[e].activatedAt == configurations[d].activatedAt
                  && configurations[e].createdAt <= configurations[d].createdAt)
  {}

  lemma {:induction false} NewestExists(configurations: Configurations, among: set<Digest>, start: Digest)
    requires start in among && among <= configurations.Keys && configurations[start].active
    requires forall e | e in configurations && configurations[e].active && e !in among ::
               !Newer(configurations[e], configurations[start])
    ensures exists d :: NewestActive(configurations, d)
    decreases |among|
  {
    if e :| e in configurations && configurations[e].active && Newer(configurations[e], configurations[start]) {
      NewestExists(configurations, among - {start}, e);
    } else {
      assert NewestActive(configurations, start);
    }
  }

  /** Role `r` was bound to the row of this file while the row belonged to another role. */
  predicate Displaced(assets: Assets, bindings: Bindings, found: Found, r: Role) {
    r in bindings && bindings[r] in assets && assets[bindings[r]].path == found.path
    && assets[bindings[r]].role != found.role
  }
}
