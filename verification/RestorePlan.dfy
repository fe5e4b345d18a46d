// What a Restore plans from an authenticated manifest: which items it accepts, where symbolic
// links may point, which entries are at the top, and what a validated staging tree says of them.
module RestorePlan {
  import opened Outcomes
  import opened Ordering
  import opened PlanDocument
  import RestoreJournal
  import RestoreModes

  const CONTROL_DIRECTORY := ".iniza-restore"
  const MAX_ITEMS := 100_000
  const MAX_PATH_BYTES := 4_096
  const MAX_PATH_DEPTH := 128
  const MAX_LOGICAL_BYTES := 16 * 1024 * 1024 * 1024 * 1024

  // An authenticated manifest item; `length` is that of its path's text.
  datatype RestoreItem = RestoreItem(ordinal: nat, path: Path, length: nat, selected: bool, kind: Kind, size: nat,
                                     mode: Option<nat>, target: Option<Path>)

  datatype Planned = Planned(ordinal: nat, item: RestoreModes.PlannedItem, size: nat, target: Option<Path>, hook: bool)

  datatype RestoreError =
    TooManyItems | UnsafeKind | UnsafePath | PathLimit | DuplicatePath | Collision | UnsafeTarget | SizeLimit

  // ---- Symbolic-link targets ----

  // How many levels a target goes down on balance.
  function Balance(target: Path): int {
    if target == [] then 0
    else Balance(target[..|target| - 1])
         + match target[|target| - 1] case Normal(_) => 1 case ParentDir => -1 case _ => 0
  }

  // Where a target leads from a directory; None when it leaves the destination on the way.
  function Resolve(base: seq<string>, target: Path): Option<seq<string>> {
    if target == [] then Some(base)
    else
      var before := Resolve(base, target[..|target| - 1]);
      if before.None? then None
      else match target[|target| - 1]
        case Normal(name) => Some(before.value + [name])
        case CurDir => before
        case ParentDir => if before.value == [] then None else Some(before.value[..|before.value| - 1])
        case RootDir => None
  }

  // How deep the first `k` components lead.
  function LevelAfter(depth: nat, target: Path, k: nat): int
    requires k <= |target|
  {
    depth + Balance(target[..k])
  }

  ghost predicate StaysInside(depth: nat, target: Path) {
    RootDir !in target && forall k: nat | k <= |target| :: LevelAfter(depth, target, k) >= 0
  }

  lemma LevelBefore(depth: nat, target: Path, k: nat)
    requires k < |target|
    ensures LevelAfter(depth, target[..|target| - 1], k) == LevelAfter(depth, target, k)
  {
    assert target[..|target| - 1][..k] == target[..k];
  }

  lemma {:induction false} InsideBefore(depth: nat, target: Path)
    requires target != [] && StaysInside(depth, target)
    ensures StaysInside(depth, target[..|target| - 1])
    ensures target[|target| - 1] != RootDir && depth + Balance(target) >= 0
  {
    var before := target[..|target| - 1];
    assert target[..|target|] == target && LevelAfter(depth, target, |target|) >= 0;
    forall k: nat | k < |target| ensures LevelAfter(depth, before, k) >= 0 {
      LevelBefore(depth, target, k);
    }
  }

  lemma {:induction false} InsideAfter(depth: nat, target: Path)
    requires target != [] && StaysInside(depth, target[..|target| - 1])
    requires target[|target| - 1] != RootDir && depth + Balance(target) >= 0
    ensures StaysInside(depth, target)
  {
    assert target[..|target|] == target && target == target[..|target| - 1] + [target[|target| - 1]];
    forall k: nat | k < |target| ensures LevelAfter(depth, target, k) >= 0 {
      LevelBefore(depth, target, k);
    }
  }

  // A target resolves exactly when it never climbs above the destination.
  lemma {:induction false} ResolvesWhenInside(base: seq<string>, target: Path)
    ensures Resolve(base, target).Some? <==> StaysInside(|base|, target)
    ensures Resolve(base, target).Some? ==> |Resolve(base, target).value| == |base| + Balance(target)
  {
    if target == [] {
      assert target[..0] == [];
    } else {
      ResolvesWhenInside(base, target[..|target| - 1]);
      if StaysInside(|base|, target) {
        InsideBefore(|base|, target);
      } else if Resolve(base, target).Some? {
        InsideAfter(|base|, target);
      }
    }
  }

  function ParentOf(link: seq<string>): seq<string> {
    if link == [] then [] else link[..|link| - 1]
  }

  predicate TargetIsSafe(link: seq<string>, target: Path) {
    var resolved := Resolve(ParentOf(link), target);
    target != [] && resolved.Some? && (resolved.value != [] ==> resolved.value[0] != CONTROL_DIRECTORY)
  }

  method ValidateSymlinkTarget(link: seq<string>, target: Path) returns (ok: bool)
    ensures ok <==> TargetIsSafe(link, target)
    ensures ok ==> StaysInside(|ParentOf(link)|, target)
  {
    ResolvesWhenInside(ParentOf(link), target);
    if target == [] {
      return false;
    }
    var resolved := ParentOf(link);
    var k := 0;
    while k < |target|
      invariant k <= |target| && Resolve(ParentOf(link), target[..k]) == Some(resolved)
    {
      assert target[..k + 1][..k] == target[..k];
      match target[k] {
        case Normal(name) => resolved := resolved + [name];
        case CurDir =>
        case ParentDir =>
          if resolved == [] {
            ClimbsOut(ParentOf(link), target, k + 1);
            return false;
          }
          resolved := resolved[..|resolved| - 1];
        case RootDir =>
          ClimbsOut(ParentOf(link), target, k + 1);
          return false;
      }
      k := k + 1;
    }
    assert target[..|target|] == target;
    ok := resolved == [] || resolved[0] != CONTROL_DIRECTORY;
  }

  lemma {:induction false} ClimbsOut(base: seq<string>, target: Path, k: nat)
    requires k <= |target| && Resolve(base, target[..k]).None?
    ensures Resolve(base, target).None?
    decreases |target|
  {
    var n := |target|;
    if k == n {
      assert target[..k] == target;
    } else {
      assert target[..n - 1][..k] == target[..k];
      ClimbsOut(base, target[..n - 1], k);
    }
  }

  // So many steps up, then down through the names.
  function UpThenDown(up: nat, names: seq<string>): Path {
    seq(up, i => ParentDir) + seq(|names|, i requires 0 <= i < |names| => Normal(names[i]))
  }

  lemma {:induction false} ResolvesUpThenDown(base: seq<string>, up: nat, names: seq<string>)
    ensures Resolve(base, UpThenDown(up, names))
         == if up <= |base| then Some(base[..|base| - up] + names) else None
    decreases up + |names|
  {
    var target := UpThenDown(up, names);
    if names != [] {
      var n := |names| - 1;
      ResolvesUpThenDown(base, up, names[..n]);
      assert target[..|target| - 1] == UpThenDown(up, names[..n]);
      assert target[|target| - 1] == Normal(names[n]);
      if up <= |base| {
        assert base[..|base| - up] + names[..n] + [names[n]] == base[..|base| - up] + names;
      }
    } else if up > 0 {
      ResolvesUpThenDown(base, up - 1, []);
      assert target[..|target| - 1] == UpThenDown(up - 1, []);
      assert target[|target| - 1] == ParentDir;
      if up <= |base| {
        assert (base[..|base| - (up - 1)] + [])[..|base| - up] == base[..|base| - up] + [];
      }
    } else {
      assert target == [] && base[..|base|] + [] == base;
      assert base[..|base| - up] + names == base;
      assert Resolve(base, target) == Some(base);
    }
  }

  // A link may lead up to the destination and down again, but not above it, not to an absolute
  // path, and not into the transaction control; where it leads is reckoned from beside the link.
  lemma {:induction false} LinkTargets(link: seq<string>, up: nat, names: seq<string>)
    requires link != [] && (up > 0 || names != [])
    ensures TargetIsSafe(link, UpThenDown(up, names))
       <==> && up < |link|
            && (link[..|link| - 1 - up] + names == []
                || (link[..|link| - 1 - up] + names)[0] != CONTROL_DIRECTORY)
  {
    ResolvesUpThenDown(ParentOf(link), up, names);
  }

  lemma {:induction false} AbsoluteTargetRefused(link: seq<string>, target: Path)
    requires RootDir in target
    ensures !TargetIsSafe(link, target)
  {
    ResolvesWhenInside(ParentOf(link), target);
  }

  // ---- Accepting the items ----

  predicate HasExecute(mode: nat) {
    mode % 2 == 1 || mode / 8 % 2 == 1 || mode / 64 % 2 == 1
  }

  // The path's names; the root item's path has none.
  function NamesOf(p: Path): seq<string> {
    if p == ROOT_ITEM then []
    else seq(|p|, i requires 0 <= i < |p| => if p[i].Normal? then p[i].name else "")
  }

  predicate PathIsSafe(p: Path) {
    p == ROOT_ITEM || (p != [] && (forall c | c in p :: c.Normal?) && p[0] != Normal(CONTROL_DIRECTORY))
  }

  predicate IsHook(path: seq<string>) {
    exists i {:trigger path[i]} :: 0 <= i < |path| - 2 && path[i] == ".git" && path[i + 1] == "hooks"
  }

  function ModesKind(k: Kind): RestoreModes.Kind
    requires k.Directory? || k.RegularFile? || k.SymbolicLink?
  {
    match k
    case Directory => RestoreModes.Directory
    case RegularFile => RestoreModes.RegularFile
    case _ => RestoreModes.SymbolicLink
  }

  predicate IsPlain(item: RestoreItem) {
    item.kind.Directory? || item.kind.RegularFile? || item.kind.SymbolicLink?
  }

  predicate ItemIsSafe(item: RestoreItem) {
    && PathIsSafe(item.path) && item.length <= MAX_PATH_BYTES && |NamesOf(item.path)| <= MAX_PATH_DEPTH
    && (if item.kind.SymbolicLink? then item.target.Some? && TargetIsSafe(NamesOf(item.path), item.target.value)
        else item.target.None?)
  }

  function PlannedFrom(item: RestoreItem): Planned
    requires IsPlain(item)
  {
    var path := NamesOf(item.path);
    Planned(item.ordinal,
            RestoreModes.PlannedItem(path, ModesKind(item.kind), item.mode,
                                     item.kind.RegularFile? && item.mode.Some? && HasExecute(item.mode.value)),
            item.size, item.target, item.kind.RegularFile? && IsHook(path))
  }

  // A Plan's safe path leads exactly where its names say, beneath the destination; a Restore takes
  // those outside the transaction control.
  lemma {:induction false} SafePathStays(path: Path)
    ensures IsSafe(path) ==> Resolve([], path) == Some(NamesOf(path))
    ensures PathIsSafe(path) <==>
              IsSafe(path) && (NamesOf(path) != [] ==> NamesOf(path)[0] != CONTROL_DIRECTORY)
  {
    if path == ROOT_ITEM {
      assert path == [CurDir] && path[..0] == [] && Resolve([], []) == Some([]);
      assert Resolve([], path) == Some([]);
    } else if IsSafe(path) {
      SafeNamesStay(path, |path|);
      assert path[..|path|] == path && NamesOf(path)[..|path|] == NamesOf(path) && path[0] in path;
    }
  }

  // Any names make a safe path.
  lemma NamesMakeSafePaths(names: seq<string>)
    requires names != []
    ensures var path := UpThenDown(0, names);
      IsSafe(path) && NamesOf(path) == names && (PathIsSafe(path) <==> names[0] != CONTROL_DIRECTORY)
  {
    var path := UpThenDown(0, names);
    assert path[0] == Normal(names[0]);
    assert NamesOf(path) == names;
  }

  // A hook is what lies beneath a directory "hooks" right in a directory ".git".
  lemma HooksLieBeneath(path: seq<string>)
    ensures IsHook(path) <==>
              exists before: seq<string>, after: seq<string> ::
                after != [] && path == before + [".git", "hooks"] + after
  {
    if IsHook(path) {
      var i :| 0 <= i < |path| - 2 && path[i] == ".git" && path[i + 1] == "hooks";
      assert path == path[..i] + [".git", "hooks"] + path[i + 2..];
    }
    if before: seq<string>, after: seq<string> :| after != [] && path == before + [".git", "hooks"] + after {
      assert path[|before|] == ".git" && path[|before| + 1] == "hooks";
    }
  }

  // No restored file can be run: of its recorded permission bits all but the execute bits remain.
  lemma NoFileIsExecutable(item: RestoreItem)
    requires item.kind.RegularFile? && item.mode.Some?
    ensures RestoreModes.FinalMode(PlannedFrom(item).item).Some?
    ensures var m, recorded := RestoreModes.FinalMode(PlannedFrom(item).item).value, item.mode.value;
      && m % 2 == 0 && m / 8 % 2 == 0 && m / 64 % 2 == 0
      && m / 2 % 4 == recorded / 2 % 4 && m / 16 % 4 == recorded / 16 % 4 && m / 128 == recorded / 128 % 32
  {
    RestoreModes.FinalModeIs(PlannedFrom(item).item);
    if !HasExecute(item.mode.value) {
      RestoreModes.PermissionsKeepBits(item.mode.value);
    }
  }

  lemma {:induction false} SafeNamesStay(path: Path, k: nat)
    requires path != ROOT_ITEM && (forall c | c in path :: c.Normal?) && k <= |path|
    ensures Resolve([], path[..k]) == Some(NamesOf(path)[..k])
  {
    if k > 0 {
      SafeNamesStay(path, k - 1);
      assert path[..k][..k - 1] == path[..k - 1] && path[k - 1] in path;
      assert NamesOf(path)[..k] == NamesOf(path)[..k - 1] + [path[k - 1].name];
    }
  }

  function SelectedItems(items: seq<RestoreItem>): seq<RestoreItem> {
    if items == [] then []
    else SelectedItems(items[..|items| - 1]) + (if items[|items| - 1].selected then [items[|items| - 1]] else [])
  }

  function LogicalBytes(items: seq<RestoreItem>): nat {
    if items == [] then 0
    else LogicalBytes(items[..|items| - 1])
         + (if items[|items| - 1].kind.RegularFile? then items[|items| - 1].size else 0)
  }

  ghost predicate NothingCollides(items: seq<RestoreItem>, key: Path -> string) {
    forall i, j | 0 <= i < j < |items| ::
      NamesOf(items[i].path) != NamesOf(items[j].path) && key(items[i].path) != key(items[j].path)
  }

  // What the selected items must be for a Restore to go ahead; `key` folds case and
  // normalization away.
  ghost predicate SelectionIsSafe(items: seq<RestoreItem>, key: Path -> string) {
    && (forall i | 0 <= i < |items| :: ItemIsSafe(items[i])) && NothingCollides(items, key)
    && LogicalBytes(items) <= MAX_LOGICAL_BYTES
  }

  ghost predicate Acceptable(items: seq<RestoreItem>, key: Path -> string) {
    && |items| <= MAX_ITEMS && (forall i | 0 <= i < |items| :: IsPlain(items[i]))
    && SelectionIsSafe(SelectedItems(items), key)
  }

  // In numbers: what an accepted manifest has at most, and that no two selected items meet.
  lemma {:induction false} AcceptedMeans(items: seq<RestoreItem>, key: Path -> string)
    requires Acceptable(items, key)
    ensures |items| <= 100000
    ensures var s := SelectedItems(items);
      && LogicalBytes(s) <= 0x1000_0000_0000
      && (forall i | 0 <= i < |s| ::
            && s[i].length <= 4096 && |NamesOf(s[i].path)| <= 128 && Resolve([], s[i].path) == Some(NamesOf(s[i].path))
            && (s[i].kind == Directory || s[i].kind == RegularFile || s[i].kind == SymbolicLink || !s[i].selected)
            && (s[i].target.Some? <==> s[i].kind == SymbolicLink))
      && (forall i, j | 0 <= i < |s| && 0 <= j < |s| && i != j ::
            NamesOf(s[i].path) != NamesOf(s[j].path) && key(s[i].path) != key(s[j].path))
  {
    var s := SelectedItems(items);
    forall i | 0 <= i < |s| ensures Resolve([], s[i].path) == Some(NamesOf(s[i].path)) {
      assert ItemIsSafe(s[i]);
      SafePathStays(s[i].path);
    }
    SelectedAre(items);
  }

  lemma {:induction false} SelectedAre(items: seq<RestoreItem>)
    ensures forall i | 0 <= i < |SelectedItems(items)| ::
              SelectedItems(items)[i] in items && SelectedItems(items)[i].selected
    ensures forall x | x in items && x.selected :: x in SelectedItems(items)
  {
    if items != [] {
      SelectedAre(items[..|items| - 1]);
      assert items == items[..|items| - 1] + [items[|items| - 1]];
    }
  }

  ghost predicate ArePlanned(planned: seq<Planned>, items: seq<RestoreItem>) {
    |planned| == |items| && forall i | 0 <= i < |items| :: IsPlain(items[i]) && planned[i] == PlannedFrom(items[i])
  }

  method ValidateRestoreItems(items: seq<RestoreItem>, key: Path -> string)
    returns (r: Result<seq<Planned>, RestoreError>)
    ensures r.Ok? <==> Acceptable(items, key)
    ensures r.Ok? ==> ArePlanned(r.value, SelectedItems(items))
  {
    if |items| > MAX_ITEMS {
      return Err(TooManyItems);
    }
    if exists i :: 0 <= i < |items| && !IsPlain(items[i]) {
      return Err(UnsafeKind);
    }
    r := PlanSelected(items, key);
  }

  // The loop over the items, which takes the selected ones.
  method PlanSelected(items: seq<RestoreItem>, key: Path -> string) returns (r: Result<seq<Planned>, RestoreError>)
    requires forall i | 0 <= i < |items| :: IsPlain(items[i])
    ensures r.Ok? <==> SelectionIsSafe(SelectedItems(items), key)
    ensures r.Ok? ==> ArePlanned(r.value, SelectedItems(items))
  {
    var p := Progress({}, {}, [], 0);
    ghost var selected: seq<RestoreItem> := [];
    var k := 0;
    while k < |items|
      invariant k <= |items| && selected == SelectedItems(items[..k]) && PlannedSoFar(p, selected, key)
    {
      assert items[..k + 1][..k] == items[..k];
      if items[k].selected {
        var next := PlanNext(items[k], p, key, selected);
        if next.Err? {
          Refused(items, k + 1, key);
          return Err(next.error);
        }
        p, selected := next.value, selected + [items[k]];
      }
      k := k + 1;
    }
    assert items[..|items|] == items;
    r := Ok(p.planned);
  }

  // The variables of the loop over the selected items.
  datatype Progress = Progress(paths: set<seq<string>>, keys: set<string>, planned: seq<Planned>, bytes: nat)

  ghost predicate PlannedSoFar(p: Progress, items: seq<RestoreItem>, key: Path -> string) {
    && SelectionIsSafe(items, key) && Gathered(p.paths, p.keys, items, key)
    && ArePlanned(p.planned, items) && p.bytes == LogicalBytes(items)
  }

  method PlanNext(item: RestoreItem, p: Progress, key: Path -> string, ghost before: seq<RestoreItem>)
    returns (r: Result<Progress, RestoreError>)
    requires PlannedSoFar(p, before, key) && IsPlain(item)
    ensures r.Ok? <==> SelectionIsSafe(before + [item], key)
    ensures r.Ok? ==> PlannedSoFar(r.value, before + [item], key)
  {
    var error := CheckItem(item, p.paths, p.keys, key, p.bytes, before);
    if error.Some? {
      return Err(error.value);
    }
    OneMoreSelected(before, item, p.paths, p.keys, key);
    r := Ok(Progress(p.paths + {NamesOf(item.path)}, p.keys + {key(item.path)}, p.planned + [PlannedFrom(item)],
                     p.bytes + (if item.kind.RegularFile? then item.size else 0)));
  }

  // The paths and the keys of the items so far.
  ghost predicate Gathered(paths: set<seq<string>>, keys: set<string>, items: seq<RestoreItem>, key: Path -> string) {
    && (forall p :: p in paths <==> exists i :: 0 <= i < |items| && NamesOf(items[i].path) == p)
    && (forall x :: x in keys <==> exists i :: 0 <= i < |items| && key(items[i].path) == x)
  }

  method CheckItem(item: RestoreItem, paths: set<seq<string>>, keys: set<string>, key: Path -> string, bytes: nat,
                   ghost before: seq<RestoreItem>)
    returns (error: Option<RestoreError>)
    requires SelectionIsSafe(before, key) && bytes == LogicalBytes(before) && Gathered(paths, keys, before, key)
    ensures error.None? <==> SelectionIsSafe(before + [item], key)
  {
    SelectionGrows(before, item, paths, keys, key);
    if !PathIsSafe(item.path) {
      return Some(RestoreError.UnsafePath);
    }
    if item.length > MAX_PATH_BYTES || |NamesOf(item.path)| > MAX_PATH_DEPTH {
      return Some(PathLimit);
    }
    if NamesOf(item.path) in paths {
      return Some(DuplicatePath);
    }
    if key(item.path) in keys {
      return Some(Collision);
    }
    if item.kind.SymbolicLink? {
      var safe := item.target.Some?;
      if safe {
        safe := ValidateSymlinkTarget(NamesOf(item.path), item.target.value);
      }
      if !safe {
        return Some(UnsafeTarget);
      }
    } else if item.target.Some? {
      return Some(UnsafeTarget);
    }
    if item.kind.RegularFile? && bytes + item.size > MAX_LOGICAL_BYTES {
      return Some(SizeLimit);
    }
    error := None;
  }

  lemma {:induction false} SelectionGrows(before: seq<RestoreItem>, item: RestoreItem, paths: set<seq<string>>,
                                          keys: set<string>, key: Path -> string)
    requires SelectionIsSafe(before, key) && Gathered(paths, keys, before, key)
    ensures SelectionIsSafe(before + [item], key)
       <==> && ItemIsSafe(item) && NamesOf(item.path) !in paths && key(item.path) !in keys
            && LogicalBytes(before) + (if item.kind.RegularFile? then item.size else 0) <= MAX_LOGICAL_BYTES
  {
    var all := before + [item];
    assert all[..|before|] == before && all[|before|] == item;
    CollisionsGrow(before, item, paths, keys, key);
    if forall i | 0 <= i < |all| :: ItemIsSafe(all[i]) {
      assert ItemIsSafe(all[|before|]);
    }
  }

  lemma CollisionsGrow(before: seq<RestoreItem>, item: RestoreItem, paths: set<seq<string>>, keys: set<string>,
                       key: Path -> string)
    requires NothingCollides(before, key) && Gathered(paths, keys, before, key)
    ensures NothingCollides(before + [item], key) <==> NamesOf(item.path) !in paths && key(item.path) !in keys
  {
    var all := before + [item];
    if NothingCollides(all, key) {
      forall i | 0 <= i < |before|
        ensures NamesOf(before[i].path) != NamesOf(item.path) && key(before[i].path) != key(item.path)
      {
        assert all[i] == before[i] && all[|before|] == item;
      }
    }
  }

  lemma {:induction false} OneMoreSelected(before: seq<RestoreItem>, item: RestoreItem, paths: set<seq<string>>,
                                           keys: set<string>, key: Path -> string)
    requires Gathered(paths, keys, before, key)
    ensures Gathered(paths + {NamesOf(item.path)}, keys + {key(item.path)}, before + [item], key)
    ensures LogicalBytes(before + [item]) == LogicalBytes(before) + (if item.kind.RegularFile? then item.size else 0)
  {
    var all := before + [item];
    assert all[..|before|] == before && all[|before|] == item;
    forall i | 0 <= i < |before| ensures all[i] == before[i] {
    }
  }

  // Items that are refused stay refused whatever comes after them.
  lemma {:induction false} Refused(items: seq<RestoreItem>, k: nat, key: Path -> string)
    requires k <= |items| && !SelectionIsSafe(SelectedItems(items[..k]), key)
    ensures !SelectionIsSafe(SelectedItems(items), key)
  {
    if SelectionIsSafe(SelectedItems(items), key) {
      SafeThroughout(items, k, key);
    }
  }

  lemma {:induction false} SafeThroughout(items: seq<RestoreItem>, k: nat, key: Path -> string)
    requires k <= |items| && SelectionIsSafe(SelectedItems(items), key)
    ensures SelectionIsSafe(SelectedItems(items[..k]), key)
  {
    var all, first := SelectedItems(items), SelectedItems(items[..k]);
    SelectedFirst(items, k);
    assert all[..|first|] == first;
    SafeBefore(all, |first|, key);
  }

  lemma {:induction false} SelectedFirst(items: seq<RestoreItem>, k: nat)
    requires k <= |items|
    ensures SelectedItems(items[..k]) <= SelectedItems(items)
    decreases |items|
  {
    var n := |items|;
    if k == n {
      assert items[..k] == items;
    } else {
      assert items[..n - 1][..k] == items[..k];
      SelectedFirst(items[..n - 1], k);
    }
  }

  lemma SafeBefore(items: seq<RestoreItem>, k: nat, key: Path -> string)
    requires SelectionIsSafe(items, key) && k <= |items|
    ensures SelectionIsSafe(items[..k], key)
  {
    BytesOfFirst(items, k);
  }

  lemma {:induction false} BytesOfFirst(items: seq<RestoreItem>, k: nat)
    requires k <= |items|
    ensures LogicalBytes(items[..k]) <= LogicalBytes(items)
    decreases |items|
  {
    var n := |items|;
    if k == n {
      assert items[..k] == items;
    } else {
      assert items[..n - 1][..k] == items[..k];
      BytesOfFirst(items[..n - 1], k);
    }
  }

  // ---- Top-level entries ----

  ghost predicate IsTop(name: string, planned: seq<Planned>) {
    exists i :: 0 <= i < |planned| && planned[i].item.path != [] && planned[i].item.path[0] == name
  }

  // The first components of the planned paths, in order and once each.
  method TopLevelEntryNames(planned: seq<Planned>) returns (names: seq<string>)
    ensures Increasing(TextLess(), names) && forall x :: x in names <==> IsTop(x, planned)
  {
    var found: seq<string> := [];
    var i := 0;
    while i < |planned|
      invariant i <= |planned| && forall x :: x in found <==> IsTop(x, planned[..i])
    {
      var path := planned[i].item.path;
      TopGrows(planned, i);
      if path != [] {
        found := found + [path[0]];
      }
      i := i + 1;
    }
    assert planned[..|planned|] == planned;
    TextIsTotal();
    CanonicalIsIncreasing(TextLess(), found);
    names := Canonical(TextLess(), found);
  }

  lemma TopGrows(planned: seq<Planned>, i: nat)
    requires i < |planned|
    ensures forall x :: IsTop(x, planned[..i + 1])
                   <==> IsTop(x, planned[..i]) || (planned[i].item.path != [] && planned[i].item.path[0] == x)
  {
    forall x ensures IsTop(x, planned[..i + 1])
                <==> IsTop(x, planned[..i]) || (planned[i].item.path != [] && planned[i].item.path[0] == x)
    {
      if IsTop(x, planned[..i]) {
        var j :| 0 <= j < i && planned[..i][j].item.path != [] && planned[..i][j].item.path[0] == x;
        assert planned[..i + 1][j] == planned[j];
      }
      if planned[i].item.path != [] && planned[i].item.path[0] == x {
        assert planned[..i + 1][i] == planned[i];
      }
      if IsTop(x, planned[..i + 1]) {
        var j :| 0 <= j < i + 1 && planned[..i + 1][j].item.path != [] && planned[..i + 1][j].item.path[0] == x;
        assert j < i ==> planned[..i][j] == planned[j];
      }
    }
  }

  // ---- The validated staging tree ----

  // A file tree: whatever lies above an entry is a directory of the tree.
  ghost predicate IsTree(tree: map<seq<string>, RestoreModes.Kind>) {
    forall p, a: seq<string> | p in tree && RestoreModes.IsAncestor(a, p) ::
      a in tree && tree[a] == RestoreModes.Directory
  }

  // Exactly the planned entries are there, and they are of the planned kinds.
  ghost predicate StagedAsPlanned(tree: map<seq<string>, RestoreModes.Kind>, planned: seq<Planned>) {
    && (forall p :: p in tree <==> p != [] && exists i :: 0 <= i < |planned| && planned[i].item.path == p)
    && (forall i | 0 <= i < |planned| && planned[i].item.path != [] ::
          tree[planned[i].item.path] == planned[i].item.kind)
  }

  // Once the staging tree has passed validation, the top-level names and the entries of the staging
  // directory make a transaction: the names are distinct, exactly those of the entries, and none
  // of them is the control directory's.
  lemma {:induction false} NamesMakeATransaction(items: seq<RestoreItem>, key: Path -> string, planned: seq<Planned>,
                                                 tree: map<seq<string>, RestoreModes.Kind>,
                                                 t: RestoreJournal.Transaction)
    requires Acceptable(items, key) && ArePlanned(planned, SelectedItems(items))
    requires IsTree(tree) && StagedAsPlanned(tree, planned)
    requires Increasing(TextLess(), t.names) && forall x :: x in t.names <==> IsTop(x, planned)
    requires forall n :: n in t.planned <==> [n] in tree
    ensures RestoreJournal.WellFormed(t) && CONTROL_DIRECTORY !in t.names
  {
    TextIsTotal();
    forall n ensures n in t.planned <==> n in t.names {
      StagedIffTop(planned, tree, n);
    }
    if CONTROL_DIRECTORY in t.names {
      SafeTop(SelectedItems(items), key, planned, CONTROL_DIRECTORY);
    }
  }

  lemma SafeTop(items: seq<RestoreItem>, key: Path -> string, planned: seq<Planned>, n: string)
    requires SelectionIsSafe(items, key) && ArePlanned(planned, items) && IsTop(n, planned)
    ensures n != CONTROL_DIRECTORY
  {
    var i :| 0 <= i < |planned| && planned[i].item.path != [] && planned[i].item.path[0] == n;
    assert ItemIsSafe(items[i]) && planned[i] == PlannedFrom(items[i]);
    assert items[i].path[0] in items[i].path;
  }

  lemma StagedIffTop(planned: seq<Planned>, tree: map<seq<string>, RestoreModes.Kind>, n: string)
    requires IsTree(tree) && StagedAsPlanned(tree, planned)
    ensures [n] in tree <==> IsTop(n, planned)
  {
    if IsTop(n, planned) {
      var i :| 0 <= i < |planned| && planned[i].item.path != [] && planned[i].item.path[0] == n;
      var p := planned[i].item.path;
      assert p in tree;
      assert if |p| == 1 then p == [n] else RestoreModes.IsAncestor([n], p);
    }
    if [n] in tree {
      var i :| 0 <= i < |planned| && planned[i].item.path == [n];
    }
  }

  lemma AncestorIsPlanned(planned: seq<Planned>, tree: map<seq<string>, RestoreModes.Kind>, i: nat, a: seq<string>)
    returns (k: nat)
    requires IsTree(tree) && StagedAsPlanned(tree, planned) && i < |planned|
    requires RestoreModes.IsAncestor(a, planned[i].item.path)
    ensures k < |planned| && planned[k].item.path == a && planned[k].item.kind == RestoreModes.Directory
  {
    assert planned[i].item.path in tree && a in tree;
    k :| 0 <= k < |planned| && planned[k].item.path == a;
  }

  // Nothing in the manifest makes a Restore plan the directories above an item, but a staging
  // tree that passes validation has them all planned.
  lemma {:induction false} ValidatedTreeIsWellPlanned(items: seq<RestoreItem>, key: Path -> string,
                                                      planned: seq<Planned>, tree: map<seq<string>, RestoreModes.Kind>)
    requires Acceptable(items, key) && ArePlanned(planned, SelectedItems(items))
    requires IsTree(tree) && StagedAsPlanned(tree, planned)
    ensures RestoreModes.WellPlanned(seq(|planned|, i requires 0 <= i < |planned| => planned[i].item))
  {
    var all := seq(|planned|, i requires 0 <= i < |planned| => planned[i].item);
    forall i, a: seq<string> | 0 <= i < |all| && RestoreModes.IsAncestor(a, all[i].path)
      ensures exists k :: 0 <= k < |all| && all[k].path == a && all[k].kind == RestoreModes.Directory
    {
      var k := AncestorIsPlanned(planned, tree, i, a);
      assert all[k].path == a;
    }
    forall i, j | 0 <= i < j < |all| ensures all[i].path != all[j].path {
      assert planned[i] == PlannedFrom(SelectedItems(items)[i]) && planned[j] == PlannedFrom(SelectedItems(items)[j]);
    }
  }

  // An accepted manifest alone may leave a directory out: a file below an unselected one.
  lemma ParentsNeedNotBePlanned(key: Path -> string)
    ensures Acceptable([BELOW_UNPLANNED], key) && !RestoreModes.WellPlanned([PlannedFrom(BELOW_UNPLANNED).item])
  {
    OneItemAcceptable(BELOW_UNPLANNED, key);
    var planned := PlannedFrom(BELOW_UNPLANNED).item;
    assert planned.path == ["a", "b"];
    assert RestoreModes.IsAncestor(["a"], [planned][0].path);
    assert forall k | 0 <= k < |[planned]| :: [planned][k].path != ["a"];
  }

  const BELOW_UNPLANNED := RestoreItem(0, [Normal("a"), Normal("b")], 3, true, RegularFile, 0, None, None)

  lemma OneItemAcceptable(item: RestoreItem, key: Path -> string)
    requires item.selected && IsPlain(item) && ItemIsSafe(item) && item.size <= MAX_LOGICAL_BYTES
    ensures Acceptable([item], key)
  {
    assert [item][..0] == [];
    assert SelectedItems([item]) == [item];
  }
}
