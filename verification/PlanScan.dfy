// Scanning: a directory tree, or selected paths in it, becomes a directory Plan.
module PlanScan {
  import opened Outcomes
  import opened Ordering
  import opened PlanDocument

  // ---- The source ----

  datatype EntryKind = DirectoryEntry | FileEntry | LinkEntry | SpecialEntry

  datatype Observation = Observation(kind: EntryKind, size: nat, device: nat, changeToken: nat, readable: bool)

  // What the source shows of one path while a scan passes over it: it cannot be observed, or it
  // is observed once before and once after its children are listed, in order, or cannot be.
  datatype Node = Missing | Node(first: Observation, again: Option<Observation>, listed: bool, children: seq<Child>)

  datatype Child = Child(name: string, node: Node)

  // A listing names each child once.
  ghost predicate WellListed(node: Node) {
    node.Node? ==>
      && (forall i, j | 0 <= i < j < |node.children| :: node.children[i].name != node.children[j].name)
      && forall i | 0 <= i < |node.children| :: WellListed(node.children[i].node)
  }

  // ---- Items ----

  function KindOf(k: EntryKind): Kind {
    match k
    case DirectoryEntry => Directory
    case FileEntry => RegularFile
    case LinkEntry => SymbolicLink
    case SpecialEntry => Special
  }

  function ItemFrom(root: Path, path: Path, o: Observation, explanation: string): (r: Item)
    ensures r.path == path && r.id == Stable(root, path, r.kind)
  {
    var kind := KindOf(o.kind);
    var id := Stable(root, path, kind);
    if kind == SymbolicLink then
      Item(id, path, kind, o.size, RequiresReview, MustProtect, "symbolic link recorded without following its target")
    else if kind == Special then
      Item(id, path, kind, o.size, Disposition.Unsupported, MustProtect, "special filesystem item is not captured")
    else Item(id, path, kind, o.size, Included, MustProtect, explanation)
  }

  function UnavailableItem(root: Path, path: Path): (r: Item)
    ensures r.path == path && r.id == Stable(root, path, r.kind)
  {
    Item(Stable(root, path, Unknown), path, Unknown, 0, Unavailable, MustProtect, "source item metadata is unavailable")
  }

  function MarkUnavailable(item: Item, explanation: string): Item {
    item.(disposition := Unavailable, explanation := explanation)
  }

  function MarkChanged(item: Item): Item {
    item.(disposition := RequiresReview, explanation := "source metadata changed during discovery")
  }

  // ---- Discovery ----

  datatype Limits = Limits(root: Path, device: nat, crossMounts: bool)

  predicate Descends(l: Limits, n: Node) {
    n.Node? && (n.first.device == l.device || l.crossMounts) && n.first.kind == DirectoryEntry
  }

  function ChildItem(l: Limits, path: Path, n: Node): (r: Item)
    requires n.Node?
    ensures r.path == path && r.id == Stable(l.root, path, r.kind)
  {
    var item := ItemFrom(l.root, path, n.first, "discovered beneath an explicitly approved root");
    var placed := if n.first.device != l.device && !l.crossMounts then
                    item.(disposition := RequiresReview, explanation := "mount boundary not crossed without approval")
                  else if n.first.kind == DirectoryEntry && !n.listed then
                    MarkUnavailable(item, "source directory is not readable")
                  else item;
    if !n.first.readable && n.first.kind == FileEntry then MarkUnavailable(placed, "source item is not readable")
    else if n.again != Some(n.first) && placed.disposition == Included then MarkChanged(placed)
    else placed
  }

  // The items of a child: those beneath it, then its own.
  function ItemsAt(l: Limits, prefix: Path, c: Child): seq<Item>
    decreases c
  {
    var path := prefix + [Normal(c.name)];
    if c.node.Missing? then [UnavailableItem(l.root, path)]
    else (if Descends(l, c.node) then ItemsBeneath(l, path, c.node) else []) + [ChildItem(l, path, c.node)]
  }

  function ItemsBeneath(l: Limits, prefix: Path, n: Node): seq<Item>
    decreases n
  {
    if n.Missing? || !n.listed then [] else ItemsOfFirst(l, prefix, n.children, |n.children|)
  }

  function ItemsOfFirst(l: Limits, prefix: Path, cs: seq<Child>, k: nat): seq<Item>
    requires k <= |cs|
    decreases cs, k
  {
    if k == 0 then [] else ItemsOfFirst(l, prefix, cs, k - 1) + ItemsAt(l, prefix, cs[k - 1])
  }

  // The items of a child, given those beneath it.
  lemma {:induction false} ItemsAtAre(l: Limits, prefix: Path, c: Child)
    ensures var path := prefix + [Normal(c.name)];
      ItemsAt(l, prefix, c) == (if c.node.Node? && Descends(l, c.node) then ItemsBeneath(l, path, c.node) else [])
                               + [if c.node.Missing? then UnavailableItem(l.root, path) else ChildItem(l, path, c.node)]
  {
  }

  lemma {:induction false} OneMoreChild(l: Limits, prefix: Path, cs: seq<Child>, k: nat, items: seq<Item>)
    requires k < |cs|
    ensures items + ItemsOfFirst(l, prefix, cs, k) + ItemsAt(l, prefix, cs[k])
         == items + ItemsOfFirst(l, prefix, cs, k + 1)
  {
  }

  method DiscoverChildren(l: Limits, prefix: Path, n: Node, items: seq<Item>) returns (readable: bool, r: seq<Item>)
    requires n.Node?
    ensures readable <==> n.listed
    ensures r == items + ItemsBeneath(l, prefix, n)
    decreases n
  {
    r := items;
    readable := n.listed;
    if readable {
      var k := 0;
      while k < |n.children|
        invariant k <= |n.children| && r == items + ItemsOfFirst(l, prefix, n.children, k)
      {
        r := DiscoverChild(l, prefix, n.children[k], r);
        OneMoreChild(l, prefix, n.children, k, items);
        k := k + 1;
      }
    }
  }

  method DiscoverChild(l: Limits, prefix: Path, c: Child, items: seq<Item>) returns (r: seq<Item>)
    ensures r == items + ItemsAt(l, prefix, c)
    decreases c
  {
    var path := prefix + [Normal(c.name)];
    ItemsAtAre(l, prefix, c);
    r := items;
    if c.node.Missing? {
      r := r + [UnavailableItem(l.root, path)];
      return;
    }
    var first := c.node.first;
    var item := ItemFrom(l.root, path, first, "discovered beneath an explicitly approved root");
    if first.device != l.device && !l.crossMounts {
      item := item.(disposition := RequiresReview, explanation := "mount boundary not crossed without approval");
    } else if first.kind == DirectoryEntry {
      var listed;
      listed, r := DiscoverChildren(l, path, c.node, r);
      if !listed {
        item := MarkUnavailable(item, "source directory is not readable");
      }
    }
    if !first.readable && first.kind == FileEntry {
      item := MarkUnavailable(item, "source item is not readable");
    } else if c.node.again != Some(first) && item.disposition == Included {
      item := MarkChanged(item);
    }
    r := r + [item];
  }

  // ---- Where discovered items lie ----

  ghost predicate Beneath(items: seq<Item>, prefix: Path, root: Path) {
    forall i | 0 <= i < |items| :: prefix <= items[i].path && prefix != items[i].path && IsSafe(items[i].path)
                                   && items[i].id == Stable(root, items[i].path, items[i].kind)
  }

  ghost predicate DistinctPaths(items: seq<Item>) {
    forall i, j | 0 <= i < j < |items| :: items[i].path != items[j].path
  }

  // All at pairwise distinct paths that continue the prefix with the same component.
  ghost predicate LieAt(items: seq<Item>, prefix: Path, c: Component, root: Path) {
    Beneath(items, prefix, root) && DistinctPaths(items) && forall i | 0 <= i < |items| :: items[i].path[|prefix|] == c
  }

  ghost predicate AllNormal(p: Path) {
    forall c | c in p :: c.Normal?
  }

  lemma LongerPrefix(items: seq<Item>, prefix: Path, c: Component, root: Path)
    requires Beneath(items, prefix + [c], root)
    ensures Beneath(items, prefix, root) && forall i | 0 <= i < |items| :: items[i].path[|prefix|] == c
  {
    forall i | 0 <= i < |items|
      ensures prefix <= items[i].path && prefix != items[i].path && items[i].path[|prefix|] == c
    {
      assert items[i].path[..|prefix| + 1] == prefix + [c];
    }
  }

  // All discovered items lie beneath the directory, at safe and pairwise distinct paths.
  lemma {:induction false} DiscoveredAt(l: Limits, prefix: Path, c: Child)
    requires WellListed(c.node) && AllNormal(prefix)
    ensures LieAt(ItemsAt(l, prefix, c), prefix, Normal(c.name), l.root)
    decreases c
  {
    var path := prefix + [Normal(c.name)];
    var own := if c.node.Missing? then UnavailableItem(l.root, path) else ChildItem(l, path, c.node);
    ItemsAtAre(l, prefix, c);
    var beneath: seq<Item> := [];
    if c.node.Node? && Descends(l, c.node) {
      DiscoveredBeneath(l, path, c.node);
      beneath := ItemsBeneath(l, path, c.node);
    }
    OwnItem(beneath, prefix, Normal(c.name), own, l.root, ItemsAt(l, prefix, c));
  }

  lemma OwnItem(beneath: seq<Item>, prefix: Path, c: Component, own: Item, root: Path, items: seq<Item>)
    requires Beneath(beneath, prefix + [c], root) && DistinctPaths(beneath) && AllNormal(prefix) && c.Normal?
    requires own.path == prefix + [c] && own.id == Stable(root, own.path, own.kind) && items == beneath + [own]
    ensures LieAt(items, prefix, c, root)
  {
    LongerPrefix(beneath, prefix, c, root);
  }

  lemma {:induction false} DiscoveredBeneath(l: Limits, prefix: Path, n: Node)
    requires WellListed(n) && AllNormal(prefix)
    ensures Beneath(ItemsBeneath(l, prefix, n), prefix, l.root) && DistinctPaths(ItemsBeneath(l, prefix, n))
    decreases n
  {
    if n.Node? && n.listed {
      DiscoveredFirst(l, prefix, n.children, |n.children|);
    }
  }

  lemma {:induction false} DiscoveredFirst(l: Limits, prefix: Path, cs: seq<Child>, k: nat)
    requires k <= |cs| && AllNormal(prefix)
    requires (forall i, j | 0 <= i < j < |cs| :: cs[i].name != cs[j].name)
    requires forall i | 0 <= i < |cs| :: WellListed(cs[i].node)
    ensures var items := ItemsOfFirst(l, prefix, cs, k);
      && Beneath(items, prefix, l.root) && DistinctPaths(items)
      && forall i | 0 <= i < |items| :: exists m :: 0 <= m < k && items[i].path[|prefix|] == Normal(cs[m].name)
    decreases cs, k
  {
    if k > 0 {
      DiscoveredFirst(l, prefix, cs, k - 1);
      DiscoveredAt(l, prefix, cs[k - 1]);
      var front, last := ItemsOfFirst(l, prefix, cs, k - 1), ItemsAt(l, prefix, cs[k - 1]);
      forall i, j | 0 <= i < |front| && 0 <= j < |last| ensures front[i].path != last[j].path {
        var m :| 0 <= m < k - 1 && front[i].path[|prefix|] == Normal(cs[m].name);
      }
      var items := front + last;
      forall i | 0 <= i < |items| ensures exists m :: 0 <= m < k && items[i].path[|prefix|] == Normal(cs[m].name) {
        if i >= |front| {
          assert items[i].path[|prefix|] == Normal(cs[k - 1].name);
        }
      }
    }
  }

  // ---- What discovered items say ----

  // The entry lies on a device that no one has approved.
  predicate Crosses(l: Limits, o: Observation) {
    o.device != l.device && !l.crossMounts
  }

  // Following the names from the directory leads to the node, through listed directories that
  // cross no mount boundary.
  ghost predicate Reaches(l: Limits, n: Node, names: seq<string>, m: Node)
    decreases |names|
  {
    && names != [] && n.Node? && n.listed
    && exists k :: 0 <= k < |n.children| && ThroughChild(l, n.children[k], names, m)
  }

  ghost predicate ThroughChild(l: Limits, c: Child, names: seq<string>, m: Node)
    requires names != []
    decreases |names|, 0
  {
    && c.name == names[0]
    && if |names| == 1 then m == c.node
       else && c.node.Node? && c.node.first.kind == DirectoryEntry && !Crosses(l, c.node.first)
            && Reaches(l, c.node, names[1..], m)
  }

  // What an item must say of the node it was found at.
  ghost predicate ItemShows(l: Limits, m: Node, x: Item) {
    if m.Missing? then x.kind == Unknown && x.disposition == Unavailable && x.size == 0 && x.requirement == MustProtect
    else
      var o := m.first;
      var unreadable := || (o.kind == FileEntry && !o.readable)
                        || (o.kind == DirectoryEntry && !Crosses(l, o) && !m.listed);
      && x.size == o.size && x.requirement == MustProtect
      && (x.kind == Directory <==> o.kind == DirectoryEntry) && (x.kind == RegularFile <==> o.kind == FileEntry)
      && (x.kind == SymbolicLink <==> o.kind == LinkEntry) && (x.kind == Special <==> o.kind == SpecialEntry)
      && (x.disposition == Included <==>
            (o.kind == DirectoryEntry || o.kind == FileEntry) && !Crosses(l, o) && !unreadable && m.again == Some(o))
      && (x.disposition == Unavailable <==> unreadable)
      && (x.disposition == Disposition.Unsupported <==> o.kind == SpecialEntry && !Crosses(l, o))
      && x.disposition != Disposition.Excluded
  }

  function PathOf(names: seq<string>): (p: Path)
    ensures |p| == |names|
  {
    seq(|names|, i requires 0 <= i < |names| => Normal(names[i]))
  }

  lemma PathOfMore(prefix: Path, name: string, rest: seq<string>)
    ensures prefix + [Normal(name)] + PathOf(rest) == prefix + PathOf([name] + rest)
  {
    assert PathOf([name] + rest) == [Normal(name)] + PathOf(rest);
  }

  lemma OwnItemShows(l: Limits, path: Path, n: Node)
    ensures ItemShows(l, n, if n.Missing? then UnavailableItem(l.root, path) else ChildItem(l, path, n))
  {
    if n.Node? {
      match n.first.kind
      case DirectoryEntry => DirectoryShows(l, path, n);
      case FileEntry => FileShows(l, path, n);
      case _ => OtherShows(l, path, n);
    }
  }

  lemma DirectoryShows(l: Limits, path: Path, n: Node)
    requires n.Node? && n.first.kind == DirectoryEntry
    ensures ItemShows(l, n, ChildItem(l, path, n))
  {
  }

  lemma FileShows(l: Limits, path: Path, n: Node)
    requires n.Node? && n.first.kind == FileEntry
    ensures ItemShows(l, n, ChildItem(l, path, n))
  {
  }

  lemma OtherShows(l: Limits, path: Path, n: Node)
    requires n.Node? && (n.first.kind == LinkEntry || n.first.kind == SpecialEntry)
    ensures ItemShows(l, n, ChildItem(l, path, n))
  {
  }

  // Every item that a child yields is that of a node reached through it.
  lemma {:induction false} ChildIsReached(l: Limits, prefix: Path, c: Child, i: nat)
    returns (names: seq<string>, m: Node)
    requires i < |ItemsAt(l, prefix, c)|
    ensures names != [] && ThroughChild(l, c, names, m)
    ensures var x := ItemsAt(l, prefix, c)[i]; x.path == prefix + PathOf(names) && ItemShows(l, m, x)
    decreases c
  {
    var path := prefix + [Normal(c.name)];
    ItemsAtAre(l, prefix, c);
    if i == |ItemsAt(l, prefix, c)| - 1 {
      names, m := [c.name], c.node;
      OwnItemShows(l, path, c.node);
      assert prefix + PathOf(names) == path;
    } else {
      var rest;
      rest, m := DiscoveredIsReached(l, path, c.node, i);
      names := [c.name] + rest;
      PathOfMore(prefix, c.name, rest);
      assert names[1..] == rest;
    }
  }

  lemma {:induction false} OfFirstSplits(l: Limits, prefix: Path, cs: seq<Child>, k: nat, i: nat)
    requires k <= |cs| && i < |ItemsOfFirst(l, prefix, cs, k)|
    ensures k > 0
    ensures var front, last := ItemsOfFirst(l, prefix, cs, k - 1), ItemsAt(l, prefix, cs[k - 1]);
      if i < |front| then ItemsOfFirst(l, prefix, cs, k)[i] == front[i]
      else i - |front| < |last| && ItemsOfFirst(l, prefix, cs, k)[i] == last[i - |front|]
  {
  }

  // Every item of the first children is one of a child's.
  lemma {:induction false} FromOneChild(l: Limits, prefix: Path, cs: seq<Child>, k: nat, i: nat)
    returns (j: nat, at: nat)
    requires k <= |cs| && i < |ItemsOfFirst(l, prefix, cs, k)|
    ensures j < k && at < |ItemsAt(l, prefix, cs[j])|
    ensures ItemsOfFirst(l, prefix, cs, k)[i] == ItemsAt(l, prefix, cs[j])[at]
  {
    OfFirstSplits(l, prefix, cs, k, i);
    var n := |ItemsOfFirst(l, prefix, cs, k - 1)|;
    if i < n {
      j, at := FromOneChild(l, prefix, cs, k - 1, i);
    } else {
      j, at := k - 1, i - n;
    }
  }

  // Every discovered item is that of a node reached without crossing a mount boundary, and says
  // what that node shows.
  lemma {:induction false} DiscoveredIsReached(l: Limits, prefix: Path, n: Node, i: nat)
    returns (names: seq<string>, m: Node)
    requires i < |ItemsBeneath(l, prefix, n)|
    ensures Reaches(l, n, names, m)
    ensures var x := ItemsBeneath(l, prefix, n)[i]; x.path == prefix + PathOf(names) && ItemShows(l, m, x)
    decreases n
  {
    var j, at := FromOneChild(l, prefix, n.children, |n.children|, i);
    names, m := ChildIsReached(l, prefix, n.children[j], at);
  }

  lemma {:induction false} ReachedThroughChild(l: Limits, prefix: Path, c: Child, names: seq<string>, m: Node)
    returns (i: nat)
    requires names != [] && ThroughChild(l, c, names, m)
    ensures i < |ItemsAt(l, prefix, c)|
    ensures var x := ItemsAt(l, prefix, c)[i]; x.path == prefix + PathOf(names) && ItemShows(l, m, x)
    decreases c
  {
    var path := prefix + [Normal(c.name)];
    ItemsAtAre(l, prefix, c);
    if |names| == 1 {
      i := |ItemsAt(l, prefix, c)| - 1;
      OwnItemShows(l, path, c.node);
      assert prefix + PathOf(names) == path;
    } else {
      i := ReachedIsDiscovered(l, path, c.node, names[1..], m);
      PathOfMore(prefix, c.name, names[1..]);
      assert [c.name] + names[1..] == names;
    }
  }

  lemma {:induction false} OfFirstAt(l: Limits, prefix: Path, cs: seq<Child>, k: nat, j: nat, i: nat) returns (at: nat)
    requires j < k <= |cs| && i < |ItemsAt(l, prefix, cs[j])|
    ensures at < |ItemsOfFirst(l, prefix, cs, k)|
    ensures ItemsOfFirst(l, prefix, cs, k)[at] == ItemsAt(l, prefix, cs[j])[i]
  {
    if j == k - 1 {
      at := |ItemsOfFirst(l, prefix, cs, k - 1)| + i;
    } else {
      at := OfFirstAt(l, prefix, cs, k - 1, j, i);
    }
  }

  // And every node reached that way has its item.
  lemma {:induction false} ReachedIsDiscovered(l: Limits, prefix: Path, n: Node, names: seq<string>, m: Node)
    returns (i: nat)
    requires Reaches(l, n, names, m)
    ensures i < |ItemsBeneath(l, prefix, n)|
    ensures var x := ItemsBeneath(l, prefix, n)[i]; x.path == prefix + PathOf(names) && ItemShows(l, m, x)
    decreases n
  {
    var k :| 0 <= k < |n.children| && ThroughChild(l, n.children[k], names, m);
    var at := ReachedThroughChild(l, prefix, n.children[k], names, m);
    i := OfFirstAt(l, prefix, n.children, |n.children|, k, at);
  }

  // The first `k` names lead to a directory on an approved device, if more names follow.
  lemma {:induction false} PassesThrough(l: Limits, n: Node, names: seq<string>, m: Node, k: nat) returns (d: Node)
    requires Reaches(l, n, names, m) && 0 < k < |names|
    ensures Reaches(l, n, names[..k], d)
    ensures d.Node? && d.first.kind == DirectoryEntry && !Crosses(l, d.first) && d.listed
    decreases |names|
  {
    var j :| 0 <= j < |n.children| && ThroughChild(l, n.children[j], names, m);
    var c := n.children[j];
    assert Reaches(l, c.node, names[1..], m) && names[..k][0] == names[0];
    if k == 1 {
      d := c.node;
    } else {
      d := PassesThrough(l, c.node, names[1..], m, k - 1);
      assert names[1..][..k - 1] == names[..k][1..];
    }
    assert ThroughChild(l, n.children[j], names[..k], d);
  }

  lemma {:induction false} ReachesOne(l: Limits, n: Node, names: seq<string>, a: Node, b: Node)
    requires WellListed(n) && Reaches(l, n, names, a) && Reaches(l, n, names, b)
    ensures a == b
    decreases |names|
  {
    var i :| 0 <= i < |n.children| && ThroughChild(l, n.children[i], names, a);
    var j :| 0 <= j < |n.children| && ThroughChild(l, n.children[j], names, b);
    assert i == j;
    if |names| > 1 {
      ReachesOne(l, n.children[i].node, names[1..], a, b);
    }
  }

  // Without approval nothing is discovered beneath an entry on another device, and the entry itself
  // is never included.
  lemma {:induction false} NothingBeyondMounts(l: Limits, prefix: Path, n: Node, names: seq<string>, m: Node, i: nat)
    requires WellListed(n) && Reaches(l, n, names, m) && m.Node? && Crosses(l, m.first)
    requires i < |ItemsBeneath(l, prefix, n)|
    ensures var x := ItemsBeneath(l, prefix, n)[i];
      prefix + PathOf(names) <= x.path ==> x.path == prefix + PathOf(names) && x.disposition != Included
  {
    var x := ItemsBeneath(l, prefix, n)[i];
    var found, at := DiscoveredIsReached(l, prefix, n, i);
    if prefix + PathOf(names) <= x.path {
      NamesOfPrefix(prefix, names, found);
      if |names| < |found| {
        var d := PassesThrough(l, n, found, at, |names|);
        ReachesOne(l, n, names, m, d);
      } else {
        assert found == names;
        ReachesOne(l, n, names, m, at);
      }
    }
  }

  lemma NamesOfPrefix(prefix: Path, names: seq<string>, found: seq<string>)
    requires prefix + PathOf(names) <= prefix + PathOf(found)
    ensures |names| <= |found| && found[..|names|] == names
  {
    var a, b := prefix + PathOf(names), prefix + PathOf(found);
    forall i | 0 <= i < |names| ensures found[i] == names[i] {
      assert a[|prefix| + i] == b[|prefix| + i];
    }
  }

  // ---- Selected candidates ----

  datatype Candidate = Candidate(path: Path, requirement: Requirement, explanation: string)

  datatype ScanError = UnsafeRequest | Conflict | TooBroad | NotADirectory | UnavailableParent | NoMatch

  function CandidateLess(): (Candidate, Candidate) -> bool {
    (a: Candidate, b: Candidate) => PathLess()(a.path, b.path)
  }

  predicate IsSafeRequest(p: Path) {
    p != [] && forall c | c in p :: c.Normal?
  }

  // The source as selected paths see it: what it shows of each path.
  ghost predicate ListsWell(look: Path -> Node) {
    forall p :: WellListed(look(p))
  }

  // Equal to or beneath one of the retained paths, or an ancestor of one.
  ghost predicate Placed(p: Path, retained: seq<Path>) {
    exists r :: r in retained && (r <= p || p <= r)
  }

  // The root item first; every other item at its own safe path, near a retained one.
  ghost predicate Gathered(items: seq<Item>, retained: seq<Path>, root: Path) {
    && items != [] && items[0].path == ROOT_ITEM && items[0].id == Stable(root, ROOT_ITEM, items[0].kind)
    && DistinctPaths(items)
    && forall i | 1 <= i < |items| ::
         && IsSafeRequest(items[i].path) && items[i].id == Stable(root, items[i].path, items[i].kind)
         && Placed(items[i].path, retained)
  }

  lemma {:induction false} PrefixIsLess(a: Path, b: Path)
    requires a <= b && a != b
    ensures PathLess()(a, b)
    decreases |a|
  {
    if a != [] {
      assert a[0] == b[0];
      PrefixIsLess(a[1..], b[1..]);
    }
  }

  // The next candidate comes no earlier than the retained ones and is beneath none of them.
  ghost predicate ComesNext(s: Path, retained: seq<Path>) {
    IsSafeRequest(s) && forall r | r in retained :: !PathLess()(s, r) && !(r <= s)
  }

  lemma PrefixesCompare(s: Path, r: Path, p: Path)
    requires s <= p && (r <= p || p <= r)
    ensures r <= s || s <= r
  {
    if r <= p && |r| <= |s| {
      assert r == p[..|r|] == s[..|r|];
    }
  }

  lemma NothingBeneathYet(items: seq<Item>, retained: seq<Path>, root: Path, s: Path, i: nat)
    requires Gathered(items, retained, root) && ComesNext(s, retained) && i < |items|
    ensures !(s <= items[i].path)
  {
    assert s[0] in s && ROOT_ITEM[0] == CurDir;
    if i > 0 && s <= items[i].path {
      var p := items[i].path;
      assert Placed(p, retained);
      var r :| r in retained && (r <= p || p <= r);
      PrefixesCompare(s, r, p);
      PrefixIsLess(s, r);
    }
  }

  // ---- Parents ----

  ghost predicate IsDirectoryAt(items: seq<Item>, p: Path) {
    exists y :: y in items && y.path == p && y.kind == Directory
  }

  // Every item that could be looked at lies in a directory that is an item too.
  ghost predicate HasParents(items: seq<Item>) {
    forall x | x in items && x.kind != Unknown && |x.path| > 1 :: IsDirectoryAt(items, x.path[..|x.path| - 1])
  }

  // And what lies above the retained paths are directories.
  ghost predicate Rooted(items: seq<Item>, retained: seq<Path>) {
    && HasParents(items)
    && forall x | x in items && x.path != ROOT_ITEM && !Covered(retained, x.path) :: x.kind == Directory
  }

  lemma MoreDirectories(a: seq<Item>, b: seq<Item>, p: Path)
    requires IsDirectoryAt(a, p) && forall x | x in a :: x in b
    ensures IsDirectoryAt(b, p)
  {
    var y :| y in a && y.path == p && y.kind == Directory;
    assert y in b;
  }

  lemma ParentsAdded(items: seq<Item>, more: seq<Item>)
    requires HasParents(items)
    requires forall x | x in more && x.kind != Unknown && |x.path| > 1 ::
              IsDirectoryAt(items + more, x.path[..|x.path| - 1])
    ensures HasParents(items + more)
  {
    forall x | x in items + more && x.kind != Unknown && |x.path| > 1
      ensures IsDirectoryAt(items + more, x.path[..|x.path| - 1])
    {
      if x in items {
        MoreDirectories(items, items + more, x.path[..|x.path| - 1]);
      }
    }
  }

  lemma SameParents(a: seq<Item>, b: seq<Item>)
    requires forall x :: x in a <==> x in b
    ensures HasParents(a) ==> HasParents(b)
  {
    if HasParents(a) {
      forall x | x in b && x.kind != Unknown && |x.path| > 1 ensures IsDirectoryAt(b, x.path[..|x.path| - 1]) {
        MoreDirectories(a, b, x.path[..|x.path| - 1]);
      }
    }
  }

  lemma DirectoryStays(a: seq<Item>, b: seq<Item>, p: Path)
    requires |a| == |b| && forall i | 0 <= i < |a| :: a[i].path == b[i].path && a[i].kind == b[i].kind
    ensures IsDirectoryAt(a, p) ==> IsDirectoryAt(b, p)
  {
    if IsDirectoryAt(a, p) {
      var i :| 0 <= i < |a| && a[i].path == p && a[i].kind == Directory;
      assert b[i] in b;
    }
  }

  lemma ParentsStay(a: seq<Item>, b: seq<Item>)
    requires |a| == |b| && forall i | 0 <= i < |a| :: a[i].path == b[i].path && a[i].kind == b[i].kind
    ensures HasParents(a) ==> HasParents(b)
  {
    if HasParents(a) {
      forall x | x in b && x.kind != Unknown && |x.path| > 1 ensures IsDirectoryAt(b, x.path[..|x.path| - 1]) {
        var i :| 0 <= i < |b| && b[i] == x;
        assert a[i] in a;
        DirectoryStays(a, b, x.path[..|x.path| - 1]);
      }
    }
  }

  // A discovered item lies right in the directory it was discovered from or in a discovered one.
  lemma {:induction false} DiscoveredParent(l: Limits, prefix: Path, n: Node, i: nat)
    requires i < |ItemsBeneath(l, prefix, n)|
    ensures var p := ItemsBeneath(l, prefix, n)[i].path;
      && |p| > |prefix|
      && (p[..|p| - 1] == prefix || IsDirectoryAt(ItemsBeneath(l, prefix, n), p[..|p| - 1]))
  {
    var items := ItemsBeneath(l, prefix, n);
    var names, m := DiscoveredIsReached(l, prefix, n, i);
    var p, k := items[i].path, |names| - 1;
    assert p[..|p| - 1] == prefix + PathOf(names[..k]);
    if k == 0 {
      assert prefix + PathOf(names[..k]) == prefix;
    } else {
      var d := PassesThrough(l, n, names, m, k);
      var j := ReachedIsDiscovered(l, prefix, n, names[..k], d);
      assert items[j] in items && items[j].kind == Directory;
    }
  }

  // So does a candidate's, and what is added for one keeps the parents.
  lemma {:induction false} CandidateParent(items: seq<Item>, l: Limits, c: Candidate, node: Node, x: Item)
    requires node.Node? && x in CandidateItems(l, c, node)
    requires |c.path| > 1 ==> IsDirectoryAt(items, c.path[..|c.path| - 1])
    ensures c.path <= x.path
    ensures |x.path| > 1 ==> IsDirectoryAt(items + CandidateItems(l, c, node), x.path[..|x.path| - 1])
  {
    var found := if node.first.kind == DirectoryEntry then ItemsBeneath(l, c.path, node) else [];
    var beneath, own, all := Adopted(found, c), CandidateItem(l, c, node), items + CandidateItems(l, c, node);
    if x == own {
      if |c.path| > 1 {
        MoreDirectories(items, all, c.path[..|c.path| - 1]);
      }
    } else {
      var i :| 0 <= i < |beneath| && beneath[i] == x;
      DiscoveredBelow(l, c.path, node, i);
      DiscoveredParent(l, c.path, node, i);
      var p := x.path[..|x.path| - 1];
      if p == c.path {
        assert own in all && own.kind == Directory;
      } else {
        DirectoryStays(found, beneath, p);
        MoreDirectories(beneath, all, p);
      }
    }
  }

  lemma {:induction false} CandidateParents(items: seq<Item>, retained: seq<Path>, l: Limits, c: Candidate, node: Node)
    requires node.Node? && Rooted(items, retained + [c.path])
    requires |c.path| > 1 ==> IsDirectoryAt(items, c.path[..|c.path| - 1])
    ensures Rooted(items + CandidateItems(l, c, node), retained + [c.path])
  {
    var more := CandidateItems(l, c, node);
    forall x | x in more ensures c.path <= x.path
      ensures |x.path| > 1 ==> IsDirectoryAt(items + more, x.path[..|x.path| - 1])
    {
      CandidateParent(items, l, c, node, x);
    }
    ParentsAdded(items, more);
    assert c.path in retained + [c.path];
  }

  lemma {:induction false} DiscoveredBelow(l: Limits, prefix: Path, n: Node, i: nat)
    requires i < |ItemsBeneath(l, prefix, n)|
    ensures prefix <= ItemsBeneath(l, prefix, n)[i].path
  {
    var names, m := DiscoveredIsReached(l, prefix, n, i);
  }

  // The ancestor of a path that is beneath no retained one is not at or beneath one either.
  lemma AboveUncovered(retained: seq<Path>, c: Path, k: nat)
    requires ComesNext(c, retained) && 1 <= k < |c|
    ensures !Covered(retained + [c], c[..k]) && c[..k] != ROOT_ITEM
  {
    forall r | r in retained + [c] ensures !(r <= c[..k]) {
      assert r <= c[..k] ==> r <= c;
    }
    assert c[0] in c;
  }

  lemma RootedLater(items: seq<Item>, retained: seq<Path>, c: Path)
    requires Rooted(items, retained)
    ensures Rooted(items, retained + [c])
  {
    forall x | x in items && x.path != ROOT_ITEM && !Covered(retained + [c], x.path) ensures x.kind == Directory {
      forall r | r in retained ensures !(r <= x.path) {
        assert r in retained + [c];
      }
    }
  }

  // ---- Ancestors ----

  // An ancestor of a path is an item already or is found to be a directory.
  predicate ParentFound(items: seq<Item>, p: Path, look: Path -> Node, k: nat)
    requires k < |p|
  {
    (exists i :: 0 <= i < |items| && items[i].path == p[..k])
    || (look(p[..k]).Node? && look(p[..k]).first.kind == DirectoryEntry)
  }

  ghost predicate ParentsFound(items: seq<Item>, p: Path, look: Path -> Node) {
    forall k | 1 <= k < |p| :: ParentFound(items, p, look, k)
  }

  lemma StillGathered(items: seq<Item>, retained: seq<Path>, root: Path, c: Path)
    requires Gathered(items, retained, root) && ComesNext(c, retained)
    ensures Gathered(items, retained + [c], root) && forall i | 0 <= i < |items| :: !(c <= items[i].path)
  {
    forall i | 0 <= i < |items| ensures !(c <= items[i].path) {
      NothingBeneathYet(items, retained, root, c, i);
    }
    forall i | 1 <= i < |items| ensures Placed(items[i].path, retained + [c]) {
      assert Placed(items[i].path, retained);
      var q :| q in retained && (q <= items[i].path || items[i].path <= q);
      assert q in retained + [c];
    }
  }

  lemma WithAncestor(items: seq<Item>, retained: seq<Path>, root: Path, c: Path, own: Item)
    requires Gathered(items, retained, root) && c in retained && IsSafeRequest(c)
    requires own.path < c && own.path != [] && own.id == Stable(root, own.path, own.kind)
    requires forall i | 0 <= i < |items| :: items[i].path != own.path && !(c <= items[i].path)
    ensures Gathered(items + [own], retained, root)
    ensures forall i | 0 <= i < |items + [own]| :: !(c <= (items + [own])[i].path)
  {
    forall x | x in own.path ensures x.Normal? {
      var i :| 0 <= i < |own.path| && own.path[i] == x;
      assert c[i] == x && c[i] in c;
    }
  }

  // A directory above the candidate, taking over its requirement and explanation.
  ghost predicate IsAncestorItem(x: Item, c: Candidate, look: Path -> Node) {
    && x.path < c.path && look(x.path).Node? && x.size == look(x.path).first.size && x.kind == Directory
    && x.disposition == Included && x.requirement == c.requirement && x.explanation == c.explanation
  }

  lemma RootedWithAncestor(items: seq<Item>, retained: seq<Path>, c: Path, own: Item)
    requires Rooted(items, retained) && own.path < c && own.kind == Directory
    requires |own.path| > 1 ==> IsDirectoryAt(items, c[..|own.path| - 1])
    ensures Rooted(items + [own], retained) && IsDirectoryAt(items + [own], own.path)
  {
    assert own in items + [own];
    if |own.path| > 1 {
      assert own.path[..|own.path| - 1] == c[..|own.path| - 1];
      MoreDirectories(items, items + [own], c[..|own.path| - 1]);
    }
    ParentsAdded(items, [own]);
  }

  lemma ThereIsDirectory(items: seq<Item>, retained: seq<Path>, c: Path, k: nat)
    requires ComesNext(c, retained) && 1 <= k < |c| && Rooted(items, retained + [c])
    requires exists i :: 0 <= i < |items| && items[i].path == c[..k]
    ensures IsDirectoryAt(items, c[..k])
  {
    AboveUncovered(retained, c, k);
    var i :| 0 <= i < |items| && items[i].path == c[..k];
    assert items[i] in items;
  }

  // What the first `k` steps of the climb down to the candidate keep.
  ghost predicate Climbed(out: seq<Item>, items: seq<Item>, retained: seq<Path>, root: Path, c: Candidate,
                          look: Path -> Node, k: nat)
    requires 1 <= k <= |c.path|
  {
    && items <= out && Gathered(out, retained + [c.path], root) && Rooted(out, retained + [c.path])
    && (forall i | 0 <= i < |out| :: !(c.path <= out[i].path))
    && AddsAncestors(out, |items|, c, look, k) && FoundSoFar(items, c.path, look, k)
    && (k > 1 ==> IsDirectoryAt(out, c.path[..k - 1]))
  }

  // What has been added are ancestors of the candidate, shorter than `k`.
  ghost predicate AddsAncestors(out: seq<Item>, n: nat, c: Candidate, look: Path -> Node, k: nat) {
    forall i | n <= i < |out| :: |out[i].path| < k && IsAncestorItem(out[i], c, look)
  }

  ghost predicate FoundSoFar(items: seq<Item>, p: Path, look: Path -> Node, k: nat)
    requires k <= |p|
  {
    forall j | 1 <= j < k :: ParentFound(items, p, look, j)
  }

  lemma OneMoreAncestor(out: seq<Item>, n: nat, c: Candidate, look: Path -> Node, k: nat, item: Item)
    requires AddsAncestors(out, n, c, look, k) && |item.path| == k && IsAncestorItem(item, c, look)
    ensures AddsAncestors(out + [item], n, c, look, k + 1)
  {
  }

  lemma AncestorAmong(out: seq<Item>, items: seq<Item>, c: Candidate, look: Path -> Node, k: nat)
    requires 1 <= k < |c.path| && items <= out && AddsAncestors(out, |items|, c, look, k)
    requires FoundSoFar(items, c.path, look, k) && exists i :: 0 <= i < |out| && out[i].path == c.path[..k]
    ensures AddsAncestors(out, |items|, c, look, k + 1) && FoundSoFar(items, c.path, look, k + 1)
  {
    assert forall i | 0 <= i < |items| :: out[i] == items[i];
    assert ParentFound(items, c.path, look, k);
  }

  lemma ClimbsOver(out: seq<Item>, items: seq<Item>, retained: seq<Path>, root: Path, c: Candidate,
                   look: Path -> Node, k: nat)
    requires 1 <= k < |c.path| && ComesNext(c.path, retained) && Climbed(out, items, retained, root, c, look, k)
    requires exists i :: 0 <= i < |out| && out[i].path == c.path[..k]
    ensures Climbed(out, items, retained, root, c, look, k + 1)
  {
    ThereIsDirectory(out, retained, c.path, k);
    AncestorAmong(out, items, c, look, k);
  }

  lemma ClimbsWith(out: seq<Item>, items: seq<Item>, retained: seq<Path>, root: Path, c: Candidate,
                   look: Path -> Node, k: nat, item: Item)
    requires 1 <= k < |c.path| && ComesNext(c.path, retained) && Climbed(out, items, retained, root, c, look, k)
    requires !exists i :: 0 <= i < |out| && out[i].path == c.path[..k]
    requires item.path == c.path[..k] && item.id == Stable(root, item.path, item.kind) && IsAncestorItem(item, c, look)
    requires look(c.path[..k]).Node? && look(c.path[..k]).first.kind == DirectoryEntry
    ensures Climbed(out + [item], items, retained, root, c, look, k + 1)
  {
    WithAncestor(out, retained + [c.path], root, c.path, item);
    RootedWithAncestor(out, retained + [c.path], c.path, item);
    OneMoreAncestor(out, |items|, c, look, k, item);
    assert ParentFound(items, c.path, look, k);
  }

  lemma AncestorItemIs(root: Path, c: Candidate, look: Path -> Node, p: Path)
    requires p < c.path && look(p).Node? && look(p).first.kind == DirectoryEntry
    ensures var x := ItemFrom(root, p, look(p).first, c.explanation).(requirement := c.requirement);
      x.path == p && x.id == Stable(root, p, x.kind) && IsAncestorItem(x, c, look)
  {
  }

  lemma ClimbStarts(items: seq<Item>, retained: seq<Path>, root: Path, c: Candidate, look: Path -> Node)
    requires Gathered(items, retained, root) && ComesNext(c.path, retained) && Rooted(items, retained)
    ensures Climbed(items, items, retained, root, c, look, 1)
  {
    StillGathered(items, retained, root, c.path);
    RootedLater(items, retained, c.path);
  }

  lemma ClimbFails(out: seq<Item>, items: seq<Item>, retained: seq<Path>, root: Path, c: Candidate,
                   look: Path -> Node, k: nat)
    requires 1 <= k < |c.path| && Climbed(out, items, retained, root, c, look, k)
    requires !exists i :: 0 <= i < |out| && out[i].path == c.path[..k]
    requires look(c.path[..k]).Missing? || look(c.path[..k]).first.kind != DirectoryEntry
    ensures !ParentsFound(items, c.path, look)
  {
    assert forall i | 0 <= i < |items| :: out[i] == items[i];
    assert !ParentFound(items, c.path, look, k);
  }

  // One step: the item above the candidate is there already, or it is added.
  method AddAncestor(root: Path, c: Candidate, look: Path -> Node, out: seq<Item>, k: nat, ghost items: seq<Item>,
                     ghost retained: seq<Path>)
    returns (r: Option<seq<Item>>)
    requires 1 <= k < |c.path| && ComesNext(c.path, retained) && Climbed(out, items, retained, root, c, look, k)
    ensures r.Some? ==> Climbed(r.value, items, retained, root, c, look, k + 1)
    ensures r.None? ==> !ParentsFound(items, c.path, look)
  {
    var ancestor := c.path[..k];
    if exists i :: 0 <= i < |out| && out[i].path == ancestor {
      ClimbsOver(out, items, retained, root, c, look, k);
      return Some(out);
    }
    var node := look(ancestor);
    if node.Missing? || node.first.kind != DirectoryEntry {
      ClimbFails(out, items, retained, root, c, look, k);
      return None;
    }
    var item := ItemFrom(root, ancestor, node.first, c.explanation).(requirement := c.requirement);
    AncestorItemIs(root, c, look, ancestor);
    ClimbsWith(out, items, retained, root, c, look, k, item);
    r := Some(out + [item]);
  }

  method AddAncestors(root: Path, c: Candidate, look: Path -> Node, items: seq<Item>, ghost retained: seq<Path>)
    returns (r: Result<seq<Item>, ScanError>)
    requires Gathered(items, retained, root) && ComesNext(c.path, retained) && Rooted(items, retained)
    ensures r.Ok? ==> Climbed(r.value, items, retained, root, c, look, |c.path|)
    ensures r.Ok? <==> ParentsFound(items, c.path, look)
  {
    var out := items;
    ClimbStarts(items, retained, root, c, look);
    var k := 1;
    while k < |c.path|
      invariant 1 <= k <= |c.path| && Climbed(out, items, retained, root, c, look, k)
    {
      var next := AddAncestor(root, c, look, out, k, items, retained);
      if next.None? {
        return Err(UnavailableParent);
      }
      out := next.value;
      k := k + 1;
    }
    r := Ok(out);
  }

  // The discovered items take over the candidate's requirement and explanation.
  function Adopted(items: seq<Item>, c: Candidate): (r: seq<Item>)
    ensures |r| == |items|
  {
    seq(|items|, i requires 0 <= i < |items| => items[i].(requirement := c.requirement, explanation := c.explanation))
  }

  lemma CandidateGathered(items: seq<Item>, retained: seq<Path>, root: Path, c: Path, beneath: seq<Item>, own: Item)
    requires Gathered(items, retained, root) && c in retained && IsSafeRequest(c)
    requires forall i | 0 <= i < |items| :: !(c <= items[i].path)
    requires Beneath(beneath, c, root) && DistinctPaths(beneath)
    requires own.path == c && own.id == Stable(root, c, own.kind)
    ensures Gathered(items + beneath + [own], retained, root)
  {
    var all := items + beneath + [own];
    forall i | 1 <= i < |all|
      ensures IsSafeRequest(all[i].path)
      ensures all[i].id == Stable(root, all[i].path, all[i].kind) && Placed(all[i].path, retained)
    {
      if |items| <= i < |items| + |beneath| {
        var b := beneath[i - |items|];
        assert c <= b.path && c[0] == b.path[0] && c[0] in c;
      }
    }
    forall i, j | 0 <= i < j < |all| ensures all[i].path != all[j].path {
      if i < |items| <= j {
        assert c <= all[j].path;
      }
    }
  }

  lemma AdoptedStay(items: seq<Item>, c: Candidate, root: Path)
    requires Beneath(items, c.path, root) && DistinctPaths(items)
    ensures Beneath(Adopted(items, c), c.path, root) && DistinctPaths(Adopted(items, c))
  {
  }

  // A candidate's own item.
  function CandidateItem(l: Limits, c: Candidate, node: Node): Item {
    if node.Missing? then
      UnavailableItem(l.root, c.path).(requirement := c.requirement,
                                       explanation := c.explanation + "; source is unavailable")
    else
      var own := ItemFrom(l.root, c.path, node.first, c.explanation);
      (if node.first.kind == DirectoryEntry && !node.listed
       then MarkUnavailable(own, "selected Protection Candidate is not readable") else own)
      .(requirement := c.requirement)
  }

  // A candidate's own item takes over its requirement and says whether it could be seen; it is not
  // asked for a device or for a second look.
  lemma CandidateItemShows(l: Limits, c: Candidate, node: Node)
    ensures var x := CandidateItem(l, c, node);
      && x.path == c.path && x.requirement == c.requirement && (x.kind == Unknown <==> node.Missing?)
      && (x.disposition == Included <==>
            node.Node? && (node.first.kind == FileEntry || (node.first.kind == DirectoryEntry && node.listed)))
      && (x.disposition == Unavailable <==>
            node.Missing? || (node.first.kind == DirectoryEntry && !node.listed))
      && (x.disposition == RequiresReview <==> node.Node? && node.first.kind == LinkEntry)
      && (x.disposition == Disposition.Unsupported <==> node.Node? && node.first.kind == SpecialEntry)
  {
  }

  // All items that a candidate calls for.
  function CandidateItems(l: Limits, c: Candidate, node: Node): seq<Item> {
    Adopted(if node.Node? && node.first.kind == DirectoryEntry then ItemsBeneath(l, c.path, node) else [], c)
    + [CandidateItem(l, c, node)]
  }

  ghost predicate Includes(items: seq<Item>, l: Limits, c: Candidate, look: Path -> Node) {
    items != [] && forall x | x in CandidateItems(l, c, look(c.path)) :: x in items[1..]
  }

  // A candidate that can be observed: its own item and, for a directory, those beneath it.
  method ObserveCandidate(l: Limits, c: Candidate, node: Node) returns (beneath: seq<Item>, own: Item)
    requires node.Node? && WellListed(node) && IsSafeRequest(c.path)
    ensures Beneath(beneath, c.path, l.root) && DistinctPaths(beneath)
    ensures own.path == c.path && own.id == Stable(l.root, c.path, own.kind) && own.requirement == c.requirement
    ensures own == CandidateItem(l, c, node)
    ensures beneath == Adopted(if node.first.kind == DirectoryEntry then ItemsBeneath(l, c.path, node) else [], c)
  {
    own := ItemFrom(l.root, c.path, node.first, c.explanation);
    beneath := [];
    if node.first.kind == DirectoryEntry {
      var listed;
      listed, beneath := DiscoverChildren(l, c.path, node, []);
      assert beneath == ItemsBeneath(l, c.path, node);
      DiscoveredBeneath(l, c.path, node);
      if !listed {
        own := MarkUnavailable(own, "selected Protection Candidate is not readable");
      }
    }
    own := own.(requirement := c.requirement);
    AdoptedStay(beneath, c, l.root);
    beneath := Adopted(beneath, c);
  }

  // What adding a candidate comes to.
  ghost predicate WithCandidate(more: seq<Item>, items: seq<Item>, retained: seq<Path>, l: Limits, c: Candidate,
                                look: Path -> Node)
  {
    && items <= more && Gathered(more, retained + [c.path], l.root) && Rooted(more, retained + [c.path])
    && (exists i :: 0 <= i < |more| && more[i].path == c.path && more[i].requirement == c.requirement)
    && Includes(more, l, c, look)
  }

  lemma {:induction false} MissingAdded(items: seq<Item>, retained: seq<Path>, l: Limits, c: Candidate,
                                        look: Path -> Node)
    requires Gathered(items, retained, l.root) && ComesNext(c.path, retained) && Rooted(items, retained)
    requires look(c.path).Missing?
    ensures WithCandidate(items + [CandidateItem(l, c, look(c.path))], items, retained, l, c, look)
  {
    var own := CandidateItem(l, c, look(c.path));
    WithUnavailable(items, retained, l.root, c.path, own);
    RootedWithUnavailable(items, retained, c.path, own);
    assert CandidateItems(l, c, look(c.path)) == [own];
    assert (items + [own])[|items|] == own && own in (items + [own])[1..];
  }

  lemma {:induction false} ObservedAdded(climbed: seq<Item>, items: seq<Item>, retained: seq<Path>, l: Limits,
                                         c: Candidate, look: Path -> Node, beneath: seq<Item>, own: Item)
    requires IsSafeRequest(c.path) && Climbed(climbed, items, retained, l.root, c, look, |c.path|)
    requires look(c.path).Node? && WellListed(look(c.path)) && CandidateItems(l, c, look(c.path)) == beneath + [own]
    requires Beneath(beneath, c.path, l.root) && DistinctPaths(beneath)
    requires own.path == c.path && own.id == Stable(l.root, c.path, own.kind) && own.requirement == c.requirement
    ensures WithCandidate(climbed + beneath + [own], items, retained, l, c, look)
  {
    assert c.path in retained + [c.path];
    CandidateGathered(climbed, retained + [c.path], l.root, c.path, beneath, own);
    CandidateParents(climbed, retained, l, c, look(c.path));
    var all, more := climbed + beneath + [own], beneath + [own];
    assert all == climbed + more && all[|all| - 1] == own;
    LaterIn(climbed, more);
  }

  lemma LaterIn(a: seq<Item>, b: seq<Item>)
    requires a != []
    ensures forall x | x in b :: x in (a + b)[1..]
  {
    assert (a + b)[1..] == a[1..] + b;
  }

  method AddCandidate(l: Limits, c: Candidate, look: Path -> Node, items: seq<Item>, ghost retained: seq<Path>)
    returns (r: Result<seq<Item>, ScanError>)
    requires ListsWell(look) && Gathered(items, retained, l.root) && ComesNext(c.path, retained)
    requires Rooted(items, retained)
    ensures r.Ok? ==> WithCandidate(r.value, items, retained, l, c, look)
    ensures r.Err? <==> look(c.path).Node? && !ParentsFound(items, c.path, look)
  {
    var node := look(c.path);
    if node.Missing? {
      var unavailable := UnavailableItem(l.root, c.path).(requirement := c.requirement,
                                                          explanation := c.explanation + "; source is unavailable");
      MissingAdded(items, retained, l, c, look);
      r := Ok(items + [unavailable]);
    } else {
      r := AddAncestors(l.root, c, look, items, retained);
      if r.Ok? {
        var beneath, own := ObserveCandidate(l, c, node);
        ObservedAdded(r.value, items, retained, l, c, look, beneath, own);
        r := Ok(r.value + beneath + [own]);
      }
    }
  }

  lemma WithUnavailable(items: seq<Item>, retained: seq<Path>, root: Path, c: Path, own: Item)
    requires Gathered(items, retained, root) && ComesNext(c, retained)
    requires own.path == c && own.id == Stable(root, c, own.kind)
    ensures Gathered(items + [own], retained + [c], root)
  {
    StillGathered(items, retained, root, c);
    assert c in retained + [c];
  }

  lemma RootedWithUnavailable(items: seq<Item>, retained: seq<Path>, c: Path, own: Item)
    requires Rooted(items, retained) && own.path == c && own.kind == Unknown
    ensures Rooted(items + [own], retained + [c])
  {
    RootedLater(items, retained, c);
    ParentsAdded(items, [own]);
    assert c in retained + [c];
  }

  ghost predicate IsItem(items: seq<Item>, p: Path) {
    exists i :: 1 <= i < |items| && items[i].path == p
  }

  predicate Covered(retained: seq<Path>, p: Path) {
    exists r :: r in retained && r <= p
  }

  // What the loop over the sorted candidates keeps: no candidate to come is before a retained
  // path, each retained path is an item's, and each candidate so far is at or beneath one.
  ghost predicate Selecting(items: seq<Item>, retained: seq<Path>, sorted: seq<Candidate>, k: nat, root: Path)
    requires k <= |sorted|
  {
    && Gathered(items, retained, root) && Rooted(items, retained)
    && (forall p, j | p in retained && k <= j < |sorted| :: !PathLess()(sorted[j].path, p))
    && (forall p | p in retained :: IsItem(items, p))
    && (forall j | 0 <= j < k :: Covered(retained, sorted[j].path))
  }

  // No candidate before this one covers it.
  ghost predicate ComesFirst(sorted: seq<Candidate>, j: nat)
    requires j < |sorted|
  {
    forall i | 0 <= i < j :: !(sorted[i].path <= sorted[j].path)
  }

  // Only paths of earlier candidates are retained, and every one of them that comes first is included.
  ghost predicate Honours(items: seq<Item>, retained: seq<Path>, sorted: seq<Candidate>, k: nat, l: Limits,
                          look: Path -> Node)
    requires k <= |sorted|
  {
    && (forall p | p in retained :: exists j :: 0 <= j < k && sorted[j].path == p)
    && (forall j | 0 <= j < k && ComesFirst(sorted, j) :: Includes(items, l, sorted[j], look))
  }

  lemma OneMoreHonoured(items: seq<Item>, more: seq<Item>, retained: seq<Path>, kept: seq<Path>,
                        sorted: seq<Candidate>, k: nat, l: Limits, look: Path -> Node)
    requires k < |sorted| && Honours(items, retained, sorted, k, l, look) && items <= more
    requires if Covered(retained, sorted[k].path) then kept == retained
             else kept == retained + [sorted[k].path] && Includes(more, l, sorted[k], look)
    ensures Honours(more, kept, sorted, k + 1, l, look)
  {
    forall p | p in kept ensures exists j :: 0 <= j < k + 1 && sorted[j].path == p {
      if p in retained {
        var j :| 0 <= j < k && sorted[j].path == p;
      } else {
        assert sorted[k].path == p;
      }
    }
    forall j | 0 <= j < k + 1 && ComesFirst(sorted, j) ensures Includes(more, l, sorted[j], look) {
      if j < k {
        assert Includes(items, l, sorted[j], look);
      } else {
        FirstIsUncovered(retained, sorted, k);
      }
    }
  }

  lemma FirstIsUncovered(retained: seq<Path>, sorted: seq<Candidate>, k: nat)
    requires k < |sorted| && ComesFirst(sorted, k)
    requires forall p | p in retained :: exists j :: 0 <= j < k && sorted[j].path == p
    ensures !Covered(retained, sorted[k].path)
  {
    forall p | p in retained ensures !(p <= sorted[k].path) {
      var i :| 0 <= i < k && sorted[i].path == p;
    }
  }

  // The path is not a safe one, or can be observed although something above it is no directory.
  ghost predicate CannotSelect(p: Path, look: Path -> Node) {
    || !IsSafeRequest(p)
    || (look(p).Node? && exists k: nat :: 1 <= k < |p| && !(&& look(p[..k]).Node?
                                                            && look(p[..k]).first.kind == DirectoryEntry))
  }

  method SelectNext(l: Limits, sorted: seq<Candidate>, k: nat, look: Path -> Node, items: seq<Item>,
                    retained: seq<Path>)
    returns (r: Result<seq<Item>, ScanError>, kept: seq<Path>)
    requires ListsWell(look) && Ascending(CandidateLess(), sorted) && k < |sorted|
    requires Selecting(items, retained, sorted, k, l.root)
    ensures r.Ok? ==> items <= r.value && Selecting(r.value, kept, sorted, k + 1, l.root)
    ensures r.Ok? ==> if Covered(retained, sorted[k].path) then kept == retained
                      else kept == retained + [sorted[k].path] && Includes(r.value, l, sorted[k], look)
    ensures r.Err? ==> CannotSelect(sorted[k].path, look)
  {
    var c := sorted[k];
    r, kept := Ok(items), retained;
    if !Covered(retained, c.path) {
      if !IsSafeRequest(c.path) {
        return Err(UnsafeRequest), retained;
      }
      r := AddCandidate(l, c, look, items, retained);
      if r.Ok? {
        kept := retained + [c.path];
        RetainedStay(items, r.value, retained, c.path);
        OneMoreSelected(sorted, k, retained);
      }
    }
  }

  lemma OneMoreSelected(sorted: seq<Candidate>, k: nat, retained: seq<Path>)
    requires k < |sorted| && Ascending(CandidateLess(), sorted)
    requires forall p, j | p in retained && k <= j < |sorted| :: !PathLess()(sorted[j].path, p)
    requires forall j | 0 <= j < k :: Covered(retained, sorted[j].path)
    ensures var kept := retained + [sorted[k].path];
      && (forall p, j | p in kept && k + 1 <= j < |sorted| :: !PathLess()(sorted[j].path, p))
      && (forall j | 0 <= j < k + 1 :: Covered(kept, sorted[j].path))
  {
    var kept := retained + [sorted[k].path];
    forall p, j | p in kept && k + 1 <= j < |sorted| ensures !PathLess()(sorted[j].path, p) {
      assert !CandidateLess()(sorted[j], sorted[k]);
    }
    forall j | 0 <= j < k + 1 ensures Covered(kept, sorted[j].path) {
      if j < k {
        assert Covered(retained, sorted[j].path);
        var p :| p in retained && p <= sorted[j].path;
        assert p in kept;
      } else {
        assert sorted[k].path in kept;
      }
    }
  }

  function FirstAt(s: seq<Candidate>, p: Path): Option<Candidate> {
    if s == [] then None else if s[0].path == p then Some(s[0]) else FirstAt(s[1..], p)
  }

  // The first of the candidates with its path, and beneath no other.
  ghost predicate Leads(c: Candidate, selected: seq<Candidate>) {
    FirstAt(selected, c.path) == Some(c) && forall d | d in selected && d.path <= c.path :: d.path == c.path
  }

  lemma {:induction false} InsertedFirst(c: Candidate, s: seq<Candidate>, p: Path)
    requires Weak(CandidateLess()) && Ascending(CandidateLess(), s)
    ensures FirstAt(Insert(CandidateLess(), c, s), p) == if c.path == p then Some(c) else FirstAt(s, p)
    decreases |s|
  {
    var less := CandidateLess();
    if s != [] && less(s[0], c) {
      InsertedFirst(c, s[1..], p);
      assert ([s[0]] + Insert(less, c, s[1..]))[1..] == Insert(less, c, s[1..]);
      assert s[0].path != c.path by { OrdersAreTotal(); }
    } else {
      assert ([c] + s)[1..] == s;
    }
  }

  // Sorting keeps the order of candidates with the same path.
  lemma {:induction false} SortKeepsFirst(s: seq<Candidate>, p: Path)
    requires Weak(CandidateLess())
    ensures FirstAt(Sort(CandidateLess(), s), p) == FirstAt(s, p)
    decreases |s|
  {
    if s != [] {
      SortKeepsFirst(s[1..], p);
      SortSorts(CandidateLess(), s[1..]);
      InsertedFirst(s[0], Sort(CandidateLess(), s[1..]), p);
    }
  }

  lemma {:induction false} FirstIndex(s: seq<Candidate>, p: Path) returns (j: nat)
    requires FirstAt(s, p).Some?
    ensures j < |s| && s[j] == FirstAt(s, p).value && s[j].path == p && forall i | 0 <= i < j :: s[i].path != p
  {
    if s[0].path == p {
      j := 0;
    } else {
      j := FirstIndex(s[1..], p);
      j := j + 1;
    }
  }

  lemma {:induction false} LeadingIncluded(selected: seq<Candidate>, c: Candidate, items: seq<Item>,
                                           retained: seq<Path>, l: Limits, look: Path -> Node)
    requires Weak(CandidateLess()) && Leads(c, selected)
    requires var sorted := Sort(CandidateLess(), selected);
      && (forall d :: d in sorted <==> d in selected) && Honours(items, retained, sorted, |sorted|, l, look)
    ensures Includes(items, l, c, look)
  {
    var sorted := Sort(CandidateLess(), selected);
    SortKeepsFirst(selected, c.path);
    var j := FirstIndex(sorted, c.path);
    forall i | 0 <= i < j ensures !(sorted[i].path <= sorted[j].path) {
      assert sorted[i] in selected;
    }
    assert ComesFirst(sorted, j);
  }

  // Candidates in path order; one beneath a retained candidate, or equal to it, is passed over. Of
  // those with one path the first in the request counts.
  // Each candidate is at or beneath an item; the first with its path, if beneath no other, has all
  // its items; and no item is there but for a candidate at, above or beneath it.
  ghost predicate ShowsSelected(items: seq<Item>, l: Limits, selected: seq<Candidate>, look: Path -> Node) {
    && (forall c | c in selected :: exists i :: 1 <= i < |items| && items[i].path <= c.path)
    && (forall c | c in selected && Leads(c, selected) :: Includes(items, l, c, look))
    && (forall i | 1 <= i < |items| :: IsFor(items[i].path, selected))
  }

  ghost predicate IsFor(p: Path, selected: seq<Candidate>) {
    exists c :: c in selected && (c.path <= p || p <= c.path)
  }

  lemma SelectedOnly(selected: seq<Candidate>, items: seq<Item>, retained: seq<Path>, sorted: seq<Candidate>,
                     l: Limits, look: Path -> Node)
    requires Selecting(items, retained, sorted, |sorted|, l.root) && forall c :: c in sorted <==> c in selected
    requires Honours(items, retained, sorted, |sorted|, l, look)
    ensures forall i | 1 <= i < |items| :: IsFor(items[i].path, selected)
  {
    forall i | 1 <= i < |items| ensures IsFor(items[i].path, selected) {
      assert Placed(items[i].path, retained);
      var r :| r in retained && (r <= items[i].path || items[i].path <= r);
      var j :| 0 <= j < |sorted| && sorted[j].path == r;
      assert sorted[j] in selected;
    }
  }

  method DiscoverSelected(l: Limits, selected: seq<Candidate>, look: Path -> Node, first: Item)
    returns (r: Result<seq<Item>, ScanError>)
    requires ListsWell(look) && first.path == ROOT_ITEM && first.id == Stable(l.root, ROOT_ITEM, first.kind)
    ensures r.Ok? ==>
              |r.value| > 0 && r.value[0] == first && exists retained: seq<Path> :: Gathered(r.value, retained, l.root)
    ensures r.Ok? ==> ShowsSelected(r.value, l, selected, look) && HasParents(r.value)
    ensures r.Err? ==> exists c :: c in selected && CannotSelect(c.path, look)
  {
    var sorted := Sort(CandidateLess(), selected);
    CandidatesSort(selected);
    ghost var retained;
    r, retained := SelectAll(l, sorted, look, first);
    if r.Ok? {
      SelectedCovered(selected, r.value, retained, sorted, l.root);
      SelectedOnly(selected, r.value, retained, sorted, l, look);
      forall c | c in selected && Leads(c, selected) ensures Includes(r.value, l, c, look) {
        LeadingIncluded(selected, c, r.value, retained, l, look);
      }
    }
  }

  method SelectAll(l: Limits, sorted: seq<Candidate>, look: Path -> Node, first: Item)
    returns (r: Result<seq<Item>, ScanError>, ghost retained: seq<Path>)
    requires ListsWell(look) && first.path == ROOT_ITEM && first.id == Stable(l.root, ROOT_ITEM, first.kind)
    requires Ascending(CandidateLess(), sorted)
    ensures r.Ok? ==> Selecting(r.value, retained, sorted, |sorted|, l.root) && r.value[0] == first
    ensures r.Ok? ==> Honours(r.value, retained, sorted, |sorted|, l, look)
    ensures r.Err? ==> exists c :: c in sorted && CannotSelect(c.path, look)
  {
    var items, kept: seq<Path> := [first], [];
    var k := 0;
    while k < |sorted|
      invariant k <= |sorted| && Selecting(items, kept, sorted, k, l.root) && items[0] == first
      invariant Honours(items, kept, sorted, k, l, look)
    {
      var next, more := SelectNext(l, sorted, k, look, items, kept);
      if next.Err? {
        assert sorted[k] in sorted;
        return next, kept;
      }
      OneMoreHonoured(items, next.value, kept, more, sorted, k, l, look);
      items, kept := next.value, more;
      k := k + 1;
    }
    r, retained := Ok(items), kept;
  }

  lemma SelectedCovered(selected: seq<Candidate>, items: seq<Item>, retained: seq<Path>, sorted: seq<Candidate>,
                        root: Path)
    requires Selecting(items, retained, sorted, |sorted|, root) && forall c :: c in sorted <==> c in selected
    ensures forall c | c in selected :: exists i :: 1 <= i < |items| && items[i].path <= c.path
  {
    forall c | c in selected ensures exists i :: 1 <= i < |items| && items[i].path <= c.path {
      assert c in sorted;
      var j :| 0 <= j < |sorted| && sorted[j] == c;
      assert Covered(retained, sorted[j].path);
      var p :| p in retained && p <= sorted[j].path;
      assert IsItem(items, p);
    }
  }

  lemma {:induction false} CandidatesSort(selected: seq<Candidate>)
    ensures Weak(CandidateLess()) && Ascending(CandidateLess(), Sort(CandidateLess(), selected))
    ensures forall c :: c in Sort(CandidateLess(), selected) <==> c in selected
  {
    OrdersAreTotal();
    var less, path := CandidateLess(), PathLess();
    forall a, b, c | less(a, b) && less(b, c) ensures less(a, c) {
      assert path(a.path, b.path) && path(b.path, c.path);
    }
    forall a ensures !less(a, a) {
      assert !path(a.path, a.path);
    }
    forall a, b, c | less(a, c) ensures less(a, b) || less(b, c) {
      assert path(a.path, c.path) && (a.path == b.path || path(a.path, b.path) || path(b.path, a.path));
    }
    SortSorts(less, selected);
    SortPermutes(less, selected);
    SameElements(Sort(less, selected), selected);
  }

  lemma RetainedStay(items: seq<Item>, more: seq<Item>, retained: seq<Path>, c: Path)
    requires items <= more && items != [] && items[0].path == ROOT_ITEM && IsSafeRequest(c)
    requires forall p | p in retained :: IsItem(items, p)
    requires exists i :: 0 <= i < |more| && more[i].path == c
    ensures forall p | p in retained + [c] :: IsItem(more, p)
  {
    assert c[0] in c && ROOT_ITEM[0] == CurDir;
    forall p | p in retained + [c] ensures IsItem(more, p) {
      if p in retained {
        var i :| 1 <= i < |items| && items[i].path == p;
        assert more[i] == items[i];
      } else {
        var i :| 0 <= i < |more| && more[i].path == c;
        assert more[0] == items[0];
      }
    }
  }

  // ---- The request's policy ----

  datatype Request = Request(exclusions: seq<Path>, optional: seq<Path>, reviewed: seq<Path>,
                             selected: Option<seq<Candidate>>, crossMounts: bool, recipes: seq<string>,
                             destination: Option<Path>, policy: Policy)

  function WithPolicy(item: Item, request: Request): Item {
    var a := if Covered(request.optional, item.path) then item.(requirement := Optional) else item;
    var b := if Covered(request.exclusions, item.path)
             then a.(disposition := Disposition.Excluded, explanation := "excluded by reviewed Plan request") else a;
    if b.disposition == RequiresReview && Covered(request.reviewed, item.path)
    then b.(disposition := Included, explanation := "included by explicit owner review") else b
  }

  function AllWithPolicy(items: seq<Item>, request: Request): (r: seq<Item>)
    ensures |r| == |items|
  {
    seq(|items|, i requires 0 <= i < |items| => WithPolicy(items[i], request))
  }

  method ApplyRequestPolicy(items: array<Item>, request: Request)
    modifies items
    ensures items[..] == AllWithPolicy(old(items[..]), request)
  {
    var i := 0;
    while i < items.Length
      invariant i <= items.Length
      invariant forall k | 0 <= k < i :: items[k] == WithPolicy(old(items[k]), request)
      invariant forall k | i <= k < items.Length :: items[k] == old(items[k])
    {
      var item := items[i];
      if Covered(request.optional, item.path) {
        item := item.(requirement := Optional);
      }
      if Covered(request.exclusions, item.path) {
        item := item.(disposition := Disposition.Excluded, explanation := "excluded by reviewed Plan request");
      }
      if item.disposition == RequiresReview && Covered(request.reviewed, item.path) {
        item := item.(disposition := Included, explanation := "included by explicit owner review");
      }
      items[i] := item;
      i := i + 1;
    }
  }

  // A reviewed inclusion and an exclusion that both cover some item always conflict.
  predicate Conflicts(request: Request) {
    exists r, e :: r in request.reviewed && e in request.exclusions && (e <= r || r <= e)
  }

  lemma NothingBothReviewedAndExcluded(request: Request, p: Path)
    requires !Conflicts(request)
    ensures !(Covered(request.reviewed, p) && Covered(request.exclusions, p))
  {
    if Covered(request.reviewed, p) && Covered(request.exclusions, p) {
      var r :| r in request.reviewed && r <= p;
      var e :| e in request.exclusions && e <= p;
      PrefixesCompare(r, e, p);
    }
  }

  // A request conflicts exactly when some path is under both lists.
  lemma ConflictsExactly(request: Request)
    ensures Conflicts(request) <==> exists p :: Covered(request.reviewed, p) && Covered(request.exclusions, p)
  {
    if Conflicts(request) {
      var r, e :| r in request.reviewed && e in request.exclusions && (e <= r || r <= e);
      var p := if e <= r then r else e;
      assert Covered(request.reviewed, p) && Covered(request.exclusions, p);
    } else if p :| Covered(request.reviewed, p) && Covered(request.exclusions, p) {
      NothingBothReviewedAndExcluded(request, p);
    }
  }

  // ---- Scanning ----

  ghost predicate RequestIsSafe(request: Request) {
    && (forall p | p in request.exclusions :: IsSafeRequest(p))
    && (forall p | p in request.optional :: IsSafeRequest(p))
    && (forall p | p in request.reviewed :: IsSafeRequest(p)) && !Conflicts(request)
  }

  predicate ReviewMatches(items: seq<Item>, reviewed: seq<Path>) {
    && (forall p | p in reviewed ::
          exists i :: 0 <= i < |items| && p <= items[i].path && items[i].disposition == RequiresReview)
    && (forall p, i | p in reviewed && 0 <= i < |items| && p <= items[i].path ::
          items[i].disposition == RequiresReview ==> items[i].kind == SymbolicLink)
  }

  // What the request makes of each item of an accepted scan. An exclusion always wins, a review
  // includes symbolic links only, what is still to be reviewed was neither reviewed nor excluded,
  // and nothing else about an item changes but how it is protected and explained.
  lemma PolicyOutcome(items: seq<Item>, request: Request, i: nat)
    requires !Conflicts(request) && ReviewMatches(items, request.reviewed) && i < |items|
    ensures var before, after := items[i], AllWithPolicy(items, request)[i];
      && (after.disposition == Disposition.Excluded <==>
            Covered(request.exclusions, before.path) || before.disposition == Disposition.Excluded)
      && (after.disposition == RequiresReview <==>
            before.disposition == RequiresReview && !Covered(request.exclusions, before.path)
            && !Covered(request.reviewed, before.path))
      && (after.disposition == Included && before.disposition != Included ==>
            && before.kind == SymbolicLink && before.disposition == RequiresReview
            && Covered(request.reviewed, before.path))
      && (after.requirement == Optional <==> Covered(request.optional, before.path) || before.requirement == Optional)
      && after == before.(disposition := after.disposition, requirement := after.requirement,
                          explanation := after.explanation)
  {
    var p := items[i].path;
    if Covered(request.reviewed, p) {
      NothingBothReviewedAndExcluded(request, p);
    }
  }

  // Every reviewed inclusion includes a symbolic link that was waiting for review.
  lemma ReviewTakesEffect(items: seq<Item>, request: Request, p: Path)
    requires !Conflicts(request) && ReviewMatches(items, request.reviewed) && p in request.reviewed
    ensures exists i :: && 0 <= i < |items| && p <= items[i].path && items[i].kind == SymbolicLink
                        && items[i].disposition == RequiresReview
                        && AllWithPolicy(items, request)[i].disposition == Included
  {
    var i :| 0 <= i < |items| && p <= items[i].path && items[i].disposition == RequiresReview;
    NothingBothReviewedAndExcluded(request, items[i].path);
    assert Covered(request.reviewed, items[i].path);
    assert AllWithPolicy(items, request)[i].disposition == Included;
  }

  // Items as a scan gathers them: the root's first, all at their own safe paths.
  ghost predicate Scanned(items: seq<Item>, root: Path) {
    && items != [] && items[0].path == ROOT_ITEM && Identified(items, root) && DistinctPaths(items)
  }

  lemma GatheredIsScanned(items: seq<Item>, retained: seq<Path>, root: Path)
    requires Gathered(items, retained, root)
    ensures Scanned(items, root)
  {
  }

  lemma {:induction false} DiscoveredIsScanned(first: Item, l: Limits, n: Node)
    requires WellListed(n) && first.path == ROOT_ITEM && first.id == Stable(l.root, ROOT_ITEM, first.kind)
    ensures Scanned([first] + ItemsBeneath(l, [], n), l.root)
  {
    DiscoveredBeneath(l, [], n);
    DiscoveredNormal(l, [], n);
  }

  lemma {:induction false} DiscoveredHasParents(first: Item, l: Limits, n: Node)
    requires first.path == ROOT_ITEM
    ensures HasParents([first] + ItemsBeneath(l, [], n))
  {
    var items := ItemsBeneath(l, [], n);
    forall x | x in items && |x.path| > 1 ensures IsDirectoryAt([first] + items, x.path[..|x.path| - 1]) {
      var i :| 0 <= i < |items| && items[i] == x;
      DiscoveredParent(l, [], n, i);
      MoreDirectories(items, [first] + items, x.path[..|x.path| - 1]);
    }
    ParentsAdded([first], items);
  }

  // Discovered paths are made of names only, so none of them is the root item's.
  lemma {:induction false} DiscoveredNormal(l: Limits, prefix: Path, n: Node)
    requires WellListed(n) && AllNormal(prefix)
    ensures forall i | 0 <= i < |ItemsBeneath(l, prefix, n)| :: ItemsBeneath(l, prefix, n)[i].path != ROOT_ITEM
  {
    if n.Node? && n.listed {
      DiscoveredFirst(l, prefix, n.children, |n.children|);
      forall i | 0 <= i < |ItemsBeneath(l, prefix, n)| ensures ItemsBeneath(l, prefix, n)[i].path != ROOT_ITEM {
        var items := ItemsOfFirst(l, prefix, n.children, |n.children|);
        var m :| 0 <= m < |n.children| && items[i].path[|prefix|] == Normal(n.children[m].name);
        assert prefix == [] || ROOT_ITEM[0] == CurDir;
        assert prefix != [] ==> prefix[0] in prefix;
      }
    }
  }

  function BeneathRoot(root: Path, node: Node, request: Request): seq<Item>
    requires node.Node?
  {
    ItemsBeneath(Limits(root, node.first.device, request.crossMounts), [], node)
  }

  // The root's own item: unavailable when it is scanned whole but cannot be listed, changed when
  // it was not the same before and after.
  function RootItem(root: Path, node: Node, request: Request): Item
    requires node.Node?
  {
    var first := ItemFrom(root, ROOT_ITEM, node.first, "explicitly approved directory");
    var listed := if request.selected.Some? || node.listed then first
                  else MarkUnavailable(first, "source directory is not readable");
    if node.again != Some(node.first) then MarkChanged(listed) else listed
  }

  lemma RootItemShows(root: Path, node: Node, request: Request)
    requires node.Node? && node.first.kind == DirectoryEntry
    ensures var x, unlisted := RootItem(root, node, request), request.selected.None? && !node.listed;
      && x.path == ROOT_ITEM && x.kind == Directory && x.size == node.first.size && x.requirement == MustProtect
      && (x.disposition == Included <==> node.again == Some(node.first) && !unlisted)
      && (x.disposition == Unavailable <==> node.again == Some(node.first) && unlisted)
      && (x.disposition == RequiresReview <==> node.again != Some(node.first))
  {
  }

  ghost predicate SelectionFails(request: Request, look: Path -> Node) {
    request.selected.Some? && exists c :: c in request.selected.value && CannotSelect(c.path, look)
  }

  // What a scan gathers besides the root item: everything beneath the root, or what the selected
  // candidates call for.
  ghost predicate GatheredFor(items: seq<Item>, root: Path, node: Node, request: Request, look: Path -> Node)
    requires node.Node?
  {
    && Scanned(items, root) && HasParents(items)
    && (request.selected.None? ==> items[1..] == BeneathRoot(root, node, request))
    && (request.selected.Some? ==>
          ShowsSelected(items, Limits(root, node.first.device, request.crossMounts), request.selected.value, look))
  }

  lemma {:induction false} FirstReplaced(items: seq<Item>, first: Item, root: Path, node: Node, request: Request,
                                         look: Path -> Node)
    requires node.Node? && GatheredFor(items, root, node, request, look)
    requires first.path == items[0].path && first.id == items[0].id && first.kind == items[0].kind
    ensures GatheredFor(items[0 := first], root, node, request, look)
  {
    var all := items[0 := first];
    assert all[1..] == items[1..];
    ParentsStay(items, all);
    if request.selected.Some? {
      ShownByTheRest(items, all, Limits(root, node.first.device, request.crossMounts), request.selected.value, look);
    }
  }

  lemma ShownByTheRest(a: seq<Item>, b: seq<Item>, l: Limits, selected: seq<Candidate>, look: Path -> Node)
    requires ShowsSelected(a, l, selected, look) && |a| == |b| > 0 && a[1..] == b[1..]
    ensures ShowsSelected(b, l, selected, look)
  {
    assert forall i | 1 <= i < |a| :: a[i] == a[1..][i - 1] == b[i];
    forall c | c in selected && Leads(c, selected) ensures Includes(b, l, c, look) {
      assert Includes(a, l, c, look);
    }
  }

  // The items of the root's own walk, and whether the root could be listed.
  method GatherWhole(l: Limits, node: Node, first: Item, request: Request, ghost look: Path -> Node)
    returns (readable: bool, items: seq<Item>)
    requires WellListed(node) && node.Node? && l == Limits(l.root, node.first.device, request.crossMounts)
    requires first.path == ROOT_ITEM && first.id == Stable(l.root, ROOT_ITEM, first.kind) && request.selected.None?
    ensures GatheredFor(items, l.root, node, request, look) && items[0] == first && readable == node.listed
  {
    DiscoveredIsScanned(first, l, node);
    DiscoveredHasParents(first, l, node);
    readable, items := DiscoverChildren(l, [], node, [first]);
    assert items[1..] == ItemsBeneath(l, [], node);
  }

  method GatherItems(root: Path, node: Node, request: Request, look: Path -> Node)
    returns (r: Result<seq<Item>, ScanError>)
    requires WellListed(node) && ListsWell(look) && node.Node?
    ensures r.Ok? ==> GatheredFor(r.value, root, node, request, look) && r.value[0] == RootItem(root, node, request)
    ensures r.Err? ==> SelectionFails(request, look)
  {
    var l := Limits(root, node.first.device, request.crossMounts);
    var first := ItemFrom(root, ROOT_ITEM, node.first, "explicitly approved directory");
    var readable, items := true, [first];
    if request.selected.Some? {
      var selected := DiscoverSelected(l, request.selected.value, look, first);
      if selected.Err? {
        return selected;
      }
      ghost var retained: seq<Path> :| Gathered(selected.value, retained, root);
      GatheredIsScanned(selected.value, retained, root);
      items := selected.value;
    } else {
      readable, items := GatherWhole(l, node, first, request, look);
    }
    if !readable {
      FirstReplaced(items, MarkUnavailable(items[0], "source directory is not readable"), root, node, request, look);
      items := items[0 := MarkUnavailable(items[0], "source directory is not readable")];
    }
    if node.again != Some(node.first) {
      FirstReplaced(items, MarkChanged(items[0]), root, node, request, look);
      items := items[0 := MarkChanged(items[0])];
    }
    r := Ok(items);
  }

  lemma PolicyKeepsScanned(items: seq<Item>, request: Request, root: Path)
    requires Scanned(items, root)
    ensures Scanned(AllWithPolicy(items, request), root) && Distinct(AllWithPolicy(items, request))
    ensures HasParents(items) ==> HasParents(AllWithPolicy(items, request))
  {
    var all := AllWithPolicy(items, request);
    forall i | 0 <= i < |all|
      ensures all[i].path == items[i].path && all[i].kind == items[i].kind && all[i].id == items[i].id
    {
      PolicyKeepsPlace(items[i], request);
    }
    ScannedByPlace(items, all, root);
    ParentsStay(items, all);
  }

  lemma PolicyKeepsPlace(item: Item, request: Request)
    ensures var w := WithPolicy(item, request); w.path == item.path && w.kind == item.kind && w.id == item.id
  {
  }

  lemma ScannedByPlace(items: seq<Item>, all: seq<Item>, root: Path)
    requires Scanned(items, root) && |all| == |items|
    requires forall i | 0 <= i < |all| ::
              all[i].path == items[i].path && all[i].kind == items[i].kind && all[i].id == items[i].id
    ensures Scanned(all, root) && Distinct(all)
  {
    forall i, j | 0 <= i < j < |all| ensures all[i].path != all[j].path && all[i].id != all[j].id {
      assert items[i].path != items[j].path;
    }
  }

  // A scan of a directory gives a directory Plan without an approval, or there is a reason why not.
  // Its items are the gathered ones under the request's policy; a whole scan gathers everything.
  method Scan(root: Path, node: Node, request: Request, look: Path -> Node)
    returns (r: Result<Plan, ScanError>, ghost gathered: seq<Item>)
    requires IsAbsolute(root) && WellListed(node) && ListsWell(look)
    ensures r.Ok? ==> IsDirectoryPlan(r.value) && r.value.approved.None? && r.value.roots == [root]
    ensures r.Ok? ==> RequestIsSafe(request) && node.Node? && node.first.kind == DirectoryEntry && |root| > 1
    ensures r.Ok? ==> Scanned(gathered, root) && ReviewMatches(gathered, request.reviewed)
    ensures r.Ok? ==> multiset(r.value.items) == multiset(AllWithPolicy(gathered, request))
    ensures r.Ok? ==> AsRequested(r.value, request) && HasParents(r.value.items)
    ensures gathered != [] ==>
              && node.Node? && GatheredFor(gathered, root, node, request, look)
              && gathered[0] == RootItem(root, node, request)
    ensures r.Err? ==> || !RequestIsSafe(request) || |root| <= 1 || node.Missing? || node.first.kind != DirectoryEntry
                       || SelectionFails(request, look)
                       || (gathered != [] && !ReviewMatches(gathered, request.reviewed))
  {
    gathered := [];
    if (exists p :: p in request.exclusions && !IsSafeRequest(p))
       || (exists p :: p in request.optional && !IsSafeRequest(p))
       || (exists p :: p in request.reviewed && !IsSafeRequest(p)) {
      return Err(UnsafeRequest), gathered;
    }
    if Conflicts(request) {
      return Err(Conflict), gathered;
    }
    if |root| <= 1 {
      return Err(TooBroad), gathered;
    }
    if node.Missing? || node.first.kind != DirectoryEntry {
      return Err(NotADirectory), gathered;
    }
    var found := GatherItems(root, node, request, look);
    if found.Err? {
      return Err(found.error), gathered;
    }
    gathered := found.value;
    if !ReviewMatches(found.value, request.reviewed) {
      return Err(NoMatch), gathered;
    }
    var items := new Item[|found.value|](i requires 0 <= i < |found.value| => found.value[i]);
    assert items[..] == found.value;
    ApplyRequestPolicy(items, request);
    PolicyKeepsScanned(found.value, request, root);
    ScannedPlan(items[..], root, request);
    r := Ok(PlanFrom(items[..], root, request));
  }

  function PlanFrom(items: seq<Item>, root: Path, request: Request): Plan {
    var sorted := Sort(ItemLess(), items);
    Plan(SourceName(root), LogicalSize(sorted), [root], sorted, Canonical(TextLess(), request.recipes),
         Canonical(PathLess(), request.exclusions), request.destination, request.policy, request.crossMounts, None)
  }

  // What the owner asked for is what the Plan says and its approval covers.
  ghost predicate AsRequested(p: Plan, request: Request) {
    && p.crossMounts == request.crossMounts && p.destination == request.destination && p.policy == request.policy
    && (forall x :: x in p.recipes <==> x in request.recipes)
    && (forall x :: x in p.exclusions <==> x in request.exclusions)
  }

  lemma ScannedPlan(items: seq<Item>, root: Path, request: Request)
    requires Scanned(items, root) && Distinct(items) && IsAbsolute(root) && RequestIsSafe(request)
    ensures IsDirectoryPlan(PlanFrom(items, root, request))
    ensures multiset(PlanFrom(items, root, request).items) == multiset(items)
    ensures AsRequested(PlanFrom(items, root, request), request)
    ensures HasParents(items) ==> HasParents(PlanFrom(items, root, request).items)
  {
    OrdersAreTotal();
    RootSortsFirst(items, root);
    Permuted(items, Sort(ItemLess(), items), root);
    SortPermutes(ItemLess(), items);
    SameElements(items, Sort(ItemLess(), items));
    SameParents(items, Sort(ItemLess(), items));
    CanonicalIsIncreasing(TextLess(), request.recipes);
    CanonicalIsIncreasing(PathLess(), request.exclusions);
  }

  // So a scanned Plan has the root item first and pairwise distinct safe paths, and survives
  // encoding and decoding with its approval, given or not.
  lemma ScannedPlanRoundTrips(p: Plan, reviewed: Option<ApprovalHash>)
    requires IsDirectoryPlan(p)
    ensures var q := p.(approved := reviewed);
      && Decode(Encode(q, true)) == Some(q) && StateOf(Decode(Encode(q, true)).value) == StateOf(q)
      && q.items[0].path == ROOT_ITEM && DistinctPaths(q.items)
      && forall i | 0 <= i < |q.items| :: IsSafe(q.items[i].path)
  {
    EncodeThenDecode(p.(approved := reviewed), true);
  }
}
