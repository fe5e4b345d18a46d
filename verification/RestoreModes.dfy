// Restored permission modes: applied file by file and then directory by directory, deepest
// first; brought back to the validation modes before an interrupted Restore is checked again.
module RestoreModes {
  import opened Outcomes
  import opened Ordering

  type Path = seq<string>

  datatype Kind = Directory | RegularFile | SymbolicLink

  datatype PlannedItem = PlannedItem(path: Path, kind: Kind, mode: Option<nat>, executable: bool)

  const PERMISSIONS := 0x1000
  const OWNER_SEARCH := 64

  // A mode without its three execute bits.
  function WithoutExecute(mode: nat): nat {
    var a := if mode % 2 == 1 then mode - 1 else mode;
    var b := if a / 8 % 2 == 1 then a - 8 else a;
    if b / 64 % 2 == 1 then b - 64 else b
  }

  function ValidationMode(item: PlannedItem): nat {
    if item.kind == Directory then 448 else 384 // rwx------ and rw-------
  }

  // Until a Restore is finished only its owner can read what it has restored, and nothing can be run.
  lemma ValidationModeIs(item: PlannedItem)
    ensures ValidationMode(item) % 64 == 0 && ValidationMode(item) / 128 == 3
    ensures ValidationMode(item) / 64 % 2 == 1 <==> item.kind == Directory
  {
  }

  // The mode an item ends with, if the Bundle has one for it; executable files lose their bits.
  function FinalMode(item: PlannedItem): Option<nat> {
    if item.mode.None? then None
    else if item.kind == RegularFile && item.executable then Some(WithoutExecute(item.mode.value) % PERMISSIONS)
    else Some(item.mode.value % PERMISSIONS)
  }

  // A mode from its execute bits and what is between and above them.
  function ModeOf(other: nat, x: nat, group: nat, y: nat, owner: nat, z: nat): nat {
    other + 2 * x + 8 * group + 16 * y + 64 * owner + 128 * z
  }

  lemma ModeParts(mode: nat, other: nat, x: nat, group: nat, y: nat, owner: nat, z: nat)
    requires mode == ModeOf(other, x, group, y, owner, z) && other < 2 && x < 4 && group < 2 && y < 4 && owner < 2
    ensures mode % 2 == other && mode / 2 % 4 == x && mode / 8 % 2 == group && mode / 16 % 4 == y
    ensures mode / 64 % 2 == owner && mode / 128 == z
  {
    assert mode / 2 == x + 4 * group + 8 * y + 32 * owner + 64 * z;
    assert mode / 8 == group + 2 * y + 8 * owner + 16 * z;
    assert mode / 16 == y + 4 * owner + 8 * z;
    assert mode / 64 == owner + 2 * z;
  }

  lemma ModeFromParts(mode: nat)
    ensures mode == ModeOf(mode % 2, mode / 2 % 4, mode / 8 % 2, mode / 16 % 4, mode / 64 % 2, mode / 128)
  {
    assert mode == mode % 2 + 2 * (mode / 2);
    assert mode / 2 == mode / 2 % 4 + 4 * (mode / 8);
    assert mode / 8 == mode / 8 % 2 + 2 * (mode / 16);
    assert mode / 16 == mode / 16 % 4 + 4 * (mode / 64);
    assert mode / 64 == mode / 64 % 2 + 2 * (mode / 128);
  }

  // Exactly the three execute bits are gone; every other bit is as it was.
  lemma ExecuteBitsRemoved(mode: nat)
    ensures var m := WithoutExecute(mode);
      && m % 2 == 0 && m / 8 % 2 == 0 && m / 64 % 2 == 0
      && m / 2 % 4 == mode / 2 % 4 && m / 16 % 4 == mode / 16 % 4 && m / 128 == mode / 128
  {
    var other, x, group := mode % 2, mode / 2 % 4, mode / 8 % 2;
    var y, owner, z := mode / 16 % 4, mode / 64 % 2, mode / 128;
    ModeFromParts(mode);
    ModeParts(ModeOf(0, x, group, y, owner, z), 0, x, group, y, owner, z);
    ModeParts(ModeOf(0, x, 0, y, owner, z), 0, x, 0, y, owner, z);
    ModeParts(ModeOf(0, x, 0, y, 0, z), 0, x, 0, y, 0, z);
    assert WithoutExecute(mode) == ModeOf(0, x, 0, y, 0, z);
  }

  lemma RemainderIs(n: nat, q: nat, r: nat)
    requires n == PERMISSIONS * q + r && r < PERMISSIONS
    ensures n % PERMISSIONS == r
  {
  }

  // The permission bits are the low twelve ones.
  lemma PermissionsKeepBits(mode: nat)
    ensures var m := mode % PERMISSIONS;
      && m % 2 == mode % 2 && m / 2 % 4 == mode / 2 % 4 && m / 8 % 2 == mode / 8 % 2
      && m / 16 % 4 == mode / 16 % 4 && m / 64 % 2 == mode / 64 % 2 && m / 128 == mode / 128 % 32
  {
    var other, x, group := mode % 2, mode / 2 % 4, mode / 8 % 2;
    var y, owner, z := mode / 16 % 4, mode / 64 % 2, mode / 128;
    ModeFromParts(mode);
    var low := ModeOf(other, x, group, y, owner, z % 32);
    assert z == 32 * (z / 32) + z % 32;
    RemainderIs(mode, z / 32, low);
    ModeParts(low, other, x, group, y, owner, z % 32);
  }

  // What an item's mode ends as: the recorded permission bits and nothing above them, for an
  // executable file without its execute bits.
  lemma FinalModeIs(item: PlannedItem)
    requires item.mode.Some?
    ensures FinalMode(item).Some?
    ensures var m, r := FinalMode(item).value, item.mode.value;
      if item.kind == RegularFile && item.executable then
        && m % 2 == 0 && m / 8 % 2 == 0 && m / 64 % 2 == 0
        && m / 2 % 4 == r / 2 % 4 && m / 16 % 4 == r / 16 % 4 && m / 128 == r / 128 % 32
      else m == r % PERMISSIONS
  {
    var mode := item.mode.value;
    var w, x, y, z := WithoutExecute(mode), mode / 2 % 4, mode / 16 % 4, mode / 128;
    ExecuteBitsRemoved(mode);
    ModeFromParts(w);
    var low := ModeOf(0, x, 0, y, 0, z % 32);
    assert z == 32 * (z / 32) + z % 32;
    RemainderIs(w, z / 32, low);
    ModeParts(low, 0, x, 0, y, 0, z % 32);
  }

  predicate IsSearchable(mode: nat) {
    mode / OWNER_SEARCH % 2 == 1
  }

  // ---- Planned items ----

  ghost predicate IsAncestor(a: Path, p: Path) {
    a != [] && a < p
  }

  // Items have distinct paths, and every directory above an item is an item too.
  ghost predicate WellPlanned(planned: seq<PlannedItem>) {
    && (forall i, j | 0 <= i < j < |planned| :: planned[i].path != planned[j].path)
    && (forall i, a: Path | 0 <= i < |planned| && IsAncestor(a, planned[i].path) ::
          exists k :: 0 <= k < |planned| && planned[k].path == a && planned[k].kind == Directory)
  }

  predicate IsVisible(item: PlannedItem, names: set<string>) {
    item.path != [] && item.path[0] in names
  }

  // ---- Modes on disk ----

  type Modes = map<Path, nat>

  ghost predicate AtValidation(modes: Modes, item: PlannedItem) {
    item.path in modes && modes[item.path] == ValidationMode(item)
  }

  ghost predicate AtFinal(modes: Modes, item: PlannedItem) {
    item.path in modes && FinalMode(item) == Some(modes[item.path])
  }

  // Every visible file and directory is at its validation mode or at its final mode.
  ghost predicate Recoverable(modes: Modes, planned: seq<PlannedItem>, names: set<string>) {
    forall i | 0 <= i < |planned| && IsVisible(planned[i], names) && planned[i].kind != SymbolicLink ::
      AtValidation(modes, planned[i]) || AtFinal(modes, planned[i])
  }

  ghost predicate AllAtValidation(modes: Modes, planned: seq<PlannedItem>, names: set<string>) {
    forall i | 0 <= i < |planned| && IsVisible(planned[i], names) && planned[i].kind != SymbolicLink ::
      AtValidation(modes, planned[i])
  }

  // Every directory above a path can be searched by its owner.
  ghost predicate Reachable(modes: Modes, p: Path) {
    forall a: Path | IsAncestor(a, p) :: a in modes && IsSearchable(modes[a])
  }

  // Which file a path leads to, and what it holds.
  datatype Found = Found(identity: nat, content: nat)

  // The path still leads to the item that was validated, with the authenticated content.
  predicate Genuine(found: map<Path, Found>, validated: map<Path, Found>, item: PlannedItem) {
    && item.path in found && item.path in validated && found[item.path].identity == validated[item.path].identity
    && (item.kind == RegularFile ==> found[item.path].content == validated[item.path].content)
  }

  // Some visible file or directory is not what was validated.
  ghost predicate SomeReplaced(found: map<Path, Found>, validated: map<Path, Found>, planned: seq<PlannedItem>,
                               names: set<string>)
  {
    exists i :: 0 <= i < |planned| && planned[i].kind != SymbolicLink && IsVisible(planned[i], names)
                && !Genuine(found, validated, planned[i])
  }

  class RestoredTree {
    // What finalization finds at the paths.
    const found: map<Path, Found>
    var modes: Modes
    // How many more operations succeed.
    var power: nat

    constructor (found: map<Path, Found>, modes: Modes, power: nat)
      ensures this.found == found && this.modes == modes && this.power == power
    {
      this.found, this.modes, this.power := found, modes, power;
    }

    // Looks at an item's mode, through the directories above it.
    method Inspect(p: Path) returns (r: Option<nat>)
      modifies this`power
      ensures r.Some? ==> p in modes && r.value == modes[p] && Reachable(modes, p)
      ensures r.None? ==> power == 0 || p !in modes || !Reachable(modes, p)
    {
      r := None;
      if power > 0 {
        power := power - 1;
        var reachable := CanReach(p);
        if reachable && p in modes {
          r := Some(modes[p]);
        }
      }
    }

    method CanReach(p: Path) returns (ok: bool)
      ensures ok <==> Reachable(modes, p)
    {
      var k := 1;
      while k < |p|
        invariant 1 <= k && forall j | 1 <= j < k && j < |p| :: p[..j] in modes && IsSearchable(modes[p[..j]])
      {
        if p[..k] !in modes || !IsSearchable(modes[p[..k]]) {
          assert IsAncestor(p[..k], p);
          return false;
        }
        k := k + 1;
      }
      forall a: Path | IsAncestor(a, p) ensures a in modes && IsSearchable(modes[a]) {
        assert a == p[..|a|];
      }
      ok := true;
    }

    method SetMode(p: Path, mode: nat) returns (ok: bool)
      requires p in modes
      modifies this
      ensures ok ==> modes == old(modes)[p := mode] && Reachable(old(modes), p)
      ensures !ok ==> modes == old(modes) && (power == 0 || !Reachable(modes, p))
    {
      ok := false;
      if power > 0 {
        power := power - 1;
        ok := CanReach(p);
        if ok {
          modes := modes[p := mode];
        }
      }
    }
  }

  // ---- Applying the final modes ----

  function Deeper(): (PlannedItem, PlannedItem) -> bool {
    (a: PlannedItem, b: PlannedItem) => |a.path| > |b.path|
  }

  function Shallower(): (PlannedItem, PlannedItem) -> bool {
    (a: PlannedItem, b: PlannedItem) => |a.path| < |b.path|
  }

  function OfKind(planned: seq<PlannedItem>, kind: Kind, names: set<string>): seq<PlannedItem> {
    if planned == [] then []
    else
      var last := planned[|planned| - 1];
      OfKind(planned[..|planned| - 1], kind, names)
      + (if last.kind == kind && IsVisible(last, names) then [last] else [])
  }

  lemma {:induction false} OfKindHas(planned: seq<PlannedItem>, kind: Kind, names: set<string>)
    ensures forall x :: x in OfKind(planned, kind, names) <==> x in planned && x.kind == kind && IsVisible(x, names)
  {
    if planned != [] {
      OfKindHas(planned[..|planned| - 1], kind, names);
    }
  }

  // Changing one item's mode to its final one keeps every item recoverable.
  lemma OneModeApplied(modes: Modes, planned: seq<PlannedItem>, names: set<string>, item: PlannedItem, mode: nat)
    requires WellPlanned(planned) && Recoverable(modes, planned, names) && item in planned
    requires mode == ValidationMode(item) || FinalMode(item) == Some(mode)
    ensures Recoverable(modes[item.path := mode], planned, names)
  {
    var after := modes[item.path := mode];
    var k :| 0 <= k < |planned| && planned[k] == item;
    forall i | 0 <= i < |planned| && IsVisible(planned[i], names) && planned[i].kind != SymbolicLink
      ensures AtValidation(after, planned[i]) || AtFinal(after, planned[i])
    {
      if i != k {
        assert planned[i].path != item.path;
      }
    }
  }

  lemma ReachableThrough(modes: Modes, planned: seq<PlannedItem>, item: PlannedItem)
    requires WellPlanned(planned) && item in planned
    requires forall x | x in planned && x.kind == Directory && IsAncestor(x.path, item.path) :: AtValidation(modes, x)
    ensures Reachable(modes, item.path)
  {
    forall a: Path | IsAncestor(a, item.path) ensures a in modes && IsSearchable(modes[a]) {
      var i :| 0 <= i < |planned| && planned[i] == item;
      var k :| 0 <= k < |planned| && planned[k].path == a && planned[k].kind == Directory;
      assert planned[k] in planned;
    }
  }

  // ---- Finishing a Restore ----

  ghost predicate Settled(modes: Modes, item: PlannedItem) {
    if FinalMode(item).Some? then AtFinal(modes, item) else AtValidation(modes, item)
  }

  ghost predicate DirectoriesAtValidation(modes: Modes, planned: seq<PlannedItem>, names: set<string>) {
    forall x | x in planned && x.kind == Directory && IsVisible(x, names) :: AtValidation(modes, x)
  }

  lemma VisibleAncestors(planned: seq<PlannedItem>, names: set<string>, item: PlannedItem)
    requires WellPlanned(planned) && IsVisible(item, names)
    ensures forall x | x in planned && IsAncestor(x.path, item.path) :: IsVisible(x, names)
  {
    forall x | x in planned && IsAncestor(x.path, item.path) ensures IsVisible(x, names) {
      assert x.path[0] == item.path[0];
    }
  }

  lemma FilesAreReachable(modes: Modes, planned: seq<PlannedItem>, names: set<string>, item: PlannedItem)
    requires WellPlanned(planned) && item in planned && IsVisible(item, names)
    requires DirectoriesAtValidation(modes, planned, names)
    ensures Reachable(modes, item.path)
  {
    VisibleAncestors(planned, names, item);
    ReachableThrough(modes, planned, item);
  }

  // One regular file: still what was validated and at its validation mode, it takes its final one.
  method FinalizeFile(tree: RestoredTree, planned: seq<PlannedItem>, validated: map<Path, Found>, names: set<string>,
                      item: PlannedItem)
    returns (ok: bool)
    requires WellPlanned(planned) && item in planned && item.kind == RegularFile && IsVisible(item, names)
    requires Recoverable(tree.modes, planned, names) && AtValidation(tree.modes, item)
    requires DirectoriesAtValidation(tree.modes, planned, names)
    modifies tree
    ensures Recoverable(tree.modes, planned, names)
    ensures ok ==> Settled(tree.modes, item) && Genuine(tree.found, validated, item)
    ensures !ok ==> tree.power == 0 || !Genuine(tree.found, validated, item)
    ensures !Genuine(tree.found, validated, item) ==> !ok && tree.modes == old(tree.modes)
    ensures forall p | p in old(tree.modes) && p != item.path :: p in tree.modes && tree.modes[p] == old(tree.modes)[p]
  {
    if !Genuine(tree.found, validated, item) {
      return false;
    }
    FilesAreReachable(tree.modes, planned, names, item);
    var mode := tree.Inspect(item.path);
    ok := mode == Some(ValidationMode(item));
    if ok && FinalMode(item).Some? {
      OneModeApplied(tree.modes, planned, names, item, FinalMode(item).value);
      ok := tree.SetMode(item.path, FinalMode(item).value);
    }
  }

  lemma OtherItemsStay(planned: seq<PlannedItem>, k: nat, before: Modes, after: Modes, names: set<string>)
    requires WellPlanned(planned) && k < |planned| && planned[k].kind == RegularFile
    requires forall p | p in before && p != planned[k].path :: p in after && after[p] == before[p]
    requires DirectoriesAtValidation(before, planned, names)
    ensures DirectoriesAtValidation(after, planned, names)
    ensures forall i | 0 <= i < |planned| && i != k && AtValidation(before, planned[i]) ::
              AtValidation(after, planned[i])
    ensures forall i | 0 <= i < |planned| && i != k && Settled(before, planned[i]) :: Settled(after, planned[i])
  {
    forall x | x in planned && x.kind == Directory && IsVisible(x, names) ensures AtValidation(after, x) {
      var i :| 0 <= i < |planned| && planned[i] == x;
      assert planned[i].path != planned[k].path;
    }
    forall i | 0 <= i < |planned| && i != k ensures planned[i].path != planned[k].path {
    }
  }

  // The files, in order; the directories stay at their validation mode meanwhile. Every file and
  // directory must still be what was validated.
  method FinalizeValidatedItems(tree: RestoredTree, planned: seq<PlannedItem>, validated: map<Path, Found>,
                                names: set<string>)
    returns (ok: bool)
    requires WellPlanned(planned) && AllAtValidation(tree.modes, planned, names)
    modifies tree
    ensures Recoverable(tree.modes, planned, names) && DirectoriesAtValidation(tree.modes, planned, names)
    ensures ok ==> forall i | 0 <= i < |planned| && planned[i].kind == RegularFile && IsVisible(planned[i], names) ::
                     Settled(tree.modes, planned[i])
    ensures ok ==> !SomeReplaced(tree.found, validated, planned, names)
    ensures !ok ==> tree.power == 0 || SomeReplaced(tree.found, validated, planned, names)
  {
    ok := true;
    var k := 0;
    while k < |planned| && ok
      invariant k <= |planned| && Recoverable(tree.modes, planned, names)
      invariant DirectoriesAtValidation(tree.modes, planned, names)
      invariant ok ==> forall i | 0 <= i < k && planned[i].kind == RegularFile && IsVisible(planned[i], names) ::
                         Settled(tree.modes, planned[i])
      invariant forall i | k <= i < |planned| && IsVisible(planned[i], names) && planned[i].kind != SymbolicLink ::
                  AtValidation(tree.modes, planned[i])
      invariant ok ==> forall i | 0 <= i < k && planned[i].kind != SymbolicLink && IsVisible(planned[i], names) ::
                         Genuine(tree.found, validated, planned[i])
      invariant !ok ==> tree.power == 0 || SomeReplaced(tree.found, validated, planned, names)
    {
      if planned[k].kind == RegularFile && IsVisible(planned[k], names) {
        ghost var before := tree.modes;
        ok := FinalizeFile(tree, planned, validated, names, planned[k]);
        OtherItemsStay(planned, k, before, tree.modes, names);
      } else if planned[k].kind == Directory && IsVisible(planned[k], names) {
        ok := Genuine(tree.found, validated, planned[k]);
      }
      k := k + 1;
    }
  }

  // The visible items of a kind, in some order of depth: each once.
  ghost predicate Ordered(items: seq<PlannedItem>, planned: seq<PlannedItem>, kind: Kind, names: set<string>,
                          less: (PlannedItem, PlannedItem) -> bool)
  {
    && Ascending(less, items) && NoDuplicates(items)
    && forall x :: x in items <==> x in planned && x.kind == kind && IsVisible(x, names)
  }

  lemma {:induction false} OfKindOnce(planned: seq<PlannedItem>, kind: Kind, names: set<string>)
    requires forall i, j | 0 <= i < j < |planned| :: planned[i].path != planned[j].path
    ensures NoDuplicates(OfKind(planned, kind, names))
  {
    if planned != [] {
      var n := |planned| - 1;
      OfKindOnce(planned[..n], kind, names);
      OfKindHas(planned[..n], kind, names);
      assert planned[n] !in planned[..n];
    }
  }

  lemma {:induction false} SortedIsOrdered(planned: seq<PlannedItem>, kind: Kind, names: set<string>,
                                           less: (PlannedItem, PlannedItem) -> bool)
    requires WellPlanned(planned) && Weak(less)
    ensures Ordered(Sort(less, OfKind(planned, kind, names)), planned, kind, names, less)
  {
    var some := OfKind(planned, kind, names);
    OfKindHas(planned, kind, names);
    OfKindOnce(planned, kind, names);
    SortSorts(less, some);
    SortPermutes(less, some);
    SameElements(Sort(less, some), some);
    PermutedNoDuplicates(some, Sort(less, some));
  }

  // A directory's ancestors come after it when the deepest come first.
  lemma DeepestReachable(modes: Modes, planned: seq<PlannedItem>, names: set<string>, dirs: seq<PlannedItem>, k: nat)
    requires WellPlanned(planned) && Ordered(dirs, planned, Directory, names, Deeper()) && k < |dirs|
    requires forall i | k <= i < |dirs| :: AtValidation(modes, dirs[i])
    ensures Reachable(modes, dirs[k].path)
  {
    assert dirs[k] in dirs;
    VisibleAncestors(planned, names, dirs[k]);
    forall x | x in planned && x.kind == Directory && IsAncestor(x.path, dirs[k].path) ensures AtValidation(modes, x) {
      assert x in dirs;
      var j :| 0 <= j < |dirs| && dirs[j] == x;
      assert Deeper()(dirs[k], dirs[j]);
    }
    ReachableThrough(modes, planned, dirs[k]);
  }

  lemma DistinctPaths(planned: seq<PlannedItem>, x: PlannedItem, y: PlannedItem)
    requires WellPlanned(planned) && x in planned && y in planned && x != y
    ensures x.path != y.path
  {
  }

  lemma OneMoreDirectory(modes: Modes, planned: seq<PlannedItem>, names: set<string>, dirs: seq<PlannedItem>,
                         less: (PlannedItem, PlannedItem) -> bool, k: nat, mode: nat)
    requires WellPlanned(planned) && Ordered(dirs, planned, Directory, names, less) && k < |dirs|
    ensures var after := modes[dirs[k].path := mode];
      && (forall i | 0 <= i < |dirs| && i != k :: dirs[i].path in modes ==> after[dirs[i].path] == modes[dirs[i].path])
      && (forall x | x in planned && x.kind != Directory && x.path in modes :: after[x.path] == modes[x.path])
  {
    assert dirs[k] in dirs;
    forall i | 0 <= i < |dirs| && i != k ensures dirs[i].path != dirs[k].path {
      assert dirs[i] in dirs && dirs[i] != dirs[k];
      DistinctPaths(planned, dirs[i], dirs[k]);
    }
    forall x | x in planned && x.kind != Directory ensures x.path != dirs[k].path {
      DistinctPaths(planned, x, dirs[k]);
    }
  }

  lemma ReplacedItem(found: map<Path, Found>, validated: map<Path, Found>, planned: seq<PlannedItem>,
                     names: set<string>, item: PlannedItem)
    requires item in planned && item.kind != SymbolicLink && IsVisible(item, names)
    requires !Genuine(found, validated, item)
    ensures SomeReplaced(found, validated, planned, names)
  {
    var i :| 0 <= i < |planned| && planned[i] == item;
  }

  // Directories take their final modes deepest first, so that none is out of reach when its turn
  // comes, whatever the modes are.
  method ApplyDirectoryModes(tree: RestoredTree, planned: seq<PlannedItem>, validated: map<Path, Found>,
                             names: set<string>)
    returns (ok: bool)
    requires WellPlanned(planned) && Recoverable(tree.modes, planned, names)
    requires DirectoriesAtValidation(tree.modes, planned, names)
    modifies tree
    ensures Recoverable(tree.modes, planned, names)
    ensures ok ==> forall x | x in planned && x.kind == Directory && IsVisible(x, names) :: Settled(tree.modes, x)
    ensures ok ==> forall x | x in planned && x.kind == Directory && IsVisible(x, names) && FinalMode(x).Some? ::
                     Genuine(tree.found, validated, x)
    ensures forall x | x in planned && x.kind == Directory && IsVisible(x, names) ::
              !Genuine(tree.found, validated, x) ==> AtValidation(tree.modes, x)
    ensures forall x | x in planned && x.kind == RegularFile && Settled(old(tree.modes), x) :: Settled(tree.modes, x)
    ensures !ok ==> tree.power == 0 || SomeReplaced(tree.found, validated, planned, names)
  {
    var dirs := Sort(Deeper(), OfKind(planned, Directory, names));
    SortedIsOrdered(planned, Directory, names, Deeper());
    ok := true;
    var k := 0;
    while k < |dirs| && ok
      invariant k <= |dirs| && Recoverable(tree.modes, planned, names)
      invariant ok ==> forall i | 0 <= i < k :: Settled(tree.modes, dirs[i])
      invariant ok ==> forall i | 0 <= i < k && FinalMode(dirs[i]).Some? :: Genuine(tree.found, validated, dirs[i])
      invariant forall i | 0 <= i < |dirs| && !Genuine(tree.found, validated, dirs[i]) ::
                  AtValidation(tree.modes, dirs[i])
      invariant forall i | k <= i < |dirs| :: AtValidation(tree.modes, dirs[i])
      invariant forall x | x in planned && x.kind == RegularFile && Settled(old(tree.modes), x) ::
                Settled(tree.modes, x)
      invariant !ok ==> tree.power == 0 || SomeReplaced(tree.found, validated, planned, names)
    {
      var final := FinalMode(dirs[k]);
      if final.Some? {
        assert dirs[k] in dirs;
        DeepestReachable(tree.modes, planned, names, dirs, k);
        OneModeApplied(tree.modes, planned, names, dirs[k], final.value);
        OneMoreDirectory(tree.modes, planned, names, dirs, Deeper(), k, final.value);
        if Genuine(tree.found, validated, dirs[k]) {
          ok := tree.SetMode(dirs[k].path, final.value);
        } else {
          ok := false;
          ReplacedItem(tree.found, validated, planned, names, dirs[k]);
        }
      }
      k := k + 1;
    }
  }

  // ---- Preparing to resume ----

  lemma ShallowestReachable(modes: Modes, planned: seq<PlannedItem>, names: set<string>, dirs: seq<PlannedItem>, k: nat)
    requires WellPlanned(planned) && Ordered(dirs, planned, Directory, names, Shallower()) && k < |dirs|
    requires forall i | 0 <= i < k :: AtValidation(modes, dirs[i])
    ensures Reachable(modes, dirs[k].path)
  {
    assert dirs[k] in dirs;
    VisibleAncestors(planned, names, dirs[k]);
    forall x | x in planned && x.kind == Directory && IsAncestor(x.path, dirs[k].path) ensures AtValidation(modes, x) {
      assert x in dirs;
      var j :| 0 <= j < |dirs| && dirs[j] == x;
      assert Shallower()(dirs[j], dirs[k]);
    }
    ReachableThrough(modes, planned, dirs[k]);
  }

  // Brings one item back from its final mode; any other mode is refused.
  method NormalizeItem(tree: RestoredTree, planned: seq<PlannedItem>, names: set<string>, item: PlannedItem)
    returns (ok: bool)
    requires WellPlanned(planned) && item in planned && item.kind != SymbolicLink && IsVisible(item, names)
    requires item.path in tree.modes
    modifies tree
    ensures tree.modes == old(tree.modes) || tree.modes == old(tree.modes)[item.path := ValidationMode(item)]
    ensures tree.modes != old(tree.modes) ==> AtFinal(old(tree.modes), item)
    ensures ok ==>
              AtValidation(tree.modes, item) && (AtValidation(old(tree.modes), item) || AtFinal(old(tree.modes), item))
    ensures !ok ==> || tree.power == 0 || !Reachable(old(tree.modes), item.path)
                    || !(AtValidation(old(tree.modes), item) || AtFinal(old(tree.modes), item))
  {
    var mode := tree.Inspect(item.path);
    ok := mode == Some(ValidationMode(item));
    if !ok && mode.Some? && FinalMode(item) == mode {
      ok := tree.SetMode(item.path, ValidationMode(item));
      if ok {
        var normalized := tree.Inspect(item.path);
        ok := normalized == Some(ValidationMode(item));
        StillReachable(old(tree.modes), item.path, ValidationMode(item));
      }
    }
  }

  lemma StillReachable(modes: Modes, p: Path, mode: nat)
    ensures Reachable(modes, p) ==> Reachable(modes[p := mode], p)
  {
  }

  lemma RecoverableItem(modes: Modes, planned: seq<PlannedItem>, names: set<string>, item: PlannedItem)
    requires Recoverable(modes, planned, names) && item in planned
    requires IsVisible(item, names) && item.kind != SymbolicLink
    ensures AtValidation(modes, item) || AtFinal(modes, item)
  {
  }

  method NormalizeDirectories(tree: RestoredTree, planned: seq<PlannedItem>, names: set<string>) returns (ok: bool)
    requires WellPlanned(planned) && Recoverable(tree.modes, planned, names)
    modifies tree
    ensures Recoverable(tree.modes, planned, names)
    ensures ok ==> DirectoriesAtValidation(tree.modes, planned, names)
    ensures !ok ==> tree.power == 0
  {
    var dirs := Sort(Shallower(), OfKind(planned, Directory, names));
    SortedIsOrdered(planned, Directory, names, Shallower());
    ok := true;
    var k := 0;
    while k < |dirs| && ok
      invariant k <= |dirs| && Recoverable(tree.modes, planned, names)
      invariant ok ==> forall i | 0 <= i < k :: AtValidation(tree.modes, dirs[i])
      invariant !ok ==> tree.power == 0
    {
      assert dirs[k] in dirs;
      RecoverableItem(tree.modes, planned, names, dirs[k]);
      ShallowestReachable(tree.modes, planned, names, dirs, k);
      OneModeApplied(tree.modes, planned, names, dirs[k], ValidationMode(dirs[k]));
      OneMoreDirectory(tree.modes, planned, names, dirs, Shallower(), k, ValidationMode(dirs[k]));
      ok := NormalizeItem(tree, planned, names, dirs[k]);
      k := k + 1;
    }
    if ok {
      forall x | x in planned && x.kind == Directory && IsVisible(x, names) ensures AtValidation(tree.modes, x) {
        assert x in dirs;
      }
    }
  }

  // From any state that an interruption can leave, every visible item goes back to its
  // validation mode, directories first and the shallowest first among them; it fails only when
  // it is interrupted, and leaves such a state again.
  method NormalizeResumeModes(tree: RestoredTree, planned: seq<PlannedItem>, names: set<string>) returns (ok: bool)
    requires WellPlanned(planned) && Recoverable(tree.modes, planned, names)
    modifies tree
    ensures Recoverable(tree.modes, planned, names)
    ensures ok ==> AllAtValidation(tree.modes, planned, names)
    ensures !ok ==> tree.power == 0
  {
    ok := NormalizeDirectories(tree, planned, names);
    var k := 0;
    while k < |planned| && ok
      invariant k <= |planned| && Recoverable(tree.modes, planned, names)
      invariant ok ==> DirectoriesAtValidation(tree.modes, planned, names)
      invariant ok ==> forall i | 0 <= i < k && planned[i].kind == RegularFile && IsVisible(planned[i], names) ::
                         AtValidation(tree.modes, planned[i])
      invariant !ok ==> tree.power == 0
    {
      if planned[k].kind == RegularFile && IsVisible(planned[k], names) {
        ghost var before := tree.modes;
        RecoverableItem(before, planned, names, planned[k]);
        FilesAreReachable(before, planned, names, planned[k]);
        OneModeApplied(before, planned, names, planned[k], ValidationMode(planned[k]));
        ok := NormalizeItem(tree, planned, names, planned[k]);
        OtherItemsStay(planned, k, before, tree.modes, names);
      }
      k := k + 1;
    }
  }

  // A Restore finishes its modes or is interrupted while it does; then any number of
  // normalizations are interrupted, until one is not. Whatever the modes then are, they are the
  // validation modes again.
  method InterruptedThenNormalized(tree: RestoredTree, planned: seq<PlannedItem>, validated: map<Path, Found>,
                                   names: set<string>, powers: seq<nat>)
    returns (finished: bool, normalized: bool)
    requires WellPlanned(planned) && AllAtValidation(tree.modes, planned, names)
    modifies tree
    ensures Recoverable(tree.modes, planned, names)
    ensures finished && powers == [] ==>
              forall i | 0 <= i < |planned| && planned[i].kind != SymbolicLink && IsVisible(planned[i], names) ::
                Settled(tree.modes, planned[i])
    ensures normalized ==> AllAtValidation(tree.modes, planned, names)
    ensures powers != [] && !normalized ==> tree.power == 0
    ensures finished ==> !SomeReplaced(tree.found, validated, planned, names)
  {
    finished := FinalizeValidatedItems(tree, planned, validated, names);
    if finished {
      finished := ApplyDirectoryModes(tree, planned, validated, names);
    }
    normalized := false;
    var k := 0;
    while k < |powers|
      invariant k <= |powers| && Recoverable(tree.modes, planned, names)
      invariant powers == [] && finished ==>
                  forall i | 0 <= i < |planned| && planned[i].kind != SymbolicLink && IsVisible(planned[i], names) ::
                    Settled(tree.modes, planned[i])
      invariant normalized ==> AllAtValidation(tree.modes, planned, names)
      invariant k > 0 && !normalized ==> tree.power == 0
    {
      tree.power := powers[k];
      normalized := NormalizeResumeModes(tree, planned, names);
      k := k + 1;
    }
  }
}
