// The directory Plan, its document form, and the approval hash over it. Text syntax and the
// hash function are taken as injective; a path is the sequence of its components.
module PlanDocument {
  import opened Outcomes
  import opened Ordering

  // ---- Plans ----

  datatype Component = RootDir | CurDir | ParentDir | Normal(name: string)

  type Path = seq<Component>

  datatype Kind = Directory | RegularFile | SymbolicLink | Special | Unknown

  datatype Disposition = Included | Excluded | RequiresReview | Unsupported | Unavailable

  datatype Requirement = MustProtect | Optional

  datatype Policy = ProtectLocallyOnly | ReviewSeparately

  // The stable identifier: an injective hash of the root, the path and the kind.
  datatype Identifier = Stable(root: Path, path: Path, kind: Kind) | Other(text: string)

  datatype Item = Item(id: Identifier, path: Path, kind: Kind, size: nat, disposition: Disposition,
                       requirement: Requirement, explanation: string)

  datatype ApprovalHash = ApprovalHash(document: Document) | OtherHash(text: string)

  datatype Plan = Plan(sourceName: string, logicalSize: nat, roots: seq<Path>, items: seq<Item>, recipes: seq<string>,
                       exclusions: seq<Path>, destination: Option<Path>, policy: Policy, crossMounts: bool,
                       approved: Option<ApprovalHash>)

  const SCHEMA_VERSION := 2

  datatype Document = Document(schemaVersion: nat, planKind: string, roots: seq<Path>, recipes: seq<string>,
                               exclusions: seq<Path>, destination: Option<Path>, policy: Policy, crossMounts: bool,
                               approval: Option<ApprovalHash>, items: seq<Item>)

  const ROOT_ITEM: Path := [CurDir]

  predicate IsSafe(p: Path) {
    p == ROOT_ITEM || (p != [] && forall c | c in p :: c.Normal?)
  }

  predicate IsAbsolute(p: Path) {
    p != [] && p[0] == RootDir
  }

  // ---- Orders ----

  function CharLess(): (char, char) -> bool {
    (a: char, b: char) => a < b
  }

  function TextLess(): (string, string) -> bool {
    Lex(CharLess())
  }

  function Rank(c: Component): nat {
    match c
    case RootDir => 0
    case CurDir => 1
    case ParentDir => 2
    case Normal(_) => 3
  }

  predicate Before(a: Component, b: Component) {
    if a.Normal? && b.Normal? then TextLess()(a.name, b.name) else Rank(a) < Rank(b)
  }

  function ComponentLess(): (Component, Component) -> bool {
    (a: Component, b: Component) => Before(a, b)
  }

  function PathLess(): (Path, Path) -> bool {
    Lex(ComponentLess())
  }

  function ItemLess(): (Item, Item) -> bool {
    (a: Item, b: Item) => PathLess()(a.path, b.path)
  }

  lemma TextIsTotal()
    ensures Total(TextLess())
  {
    assert Total(CharLess());
    LexIsTotal(CharLess());
  }

  lemma ComponentsAreTotal()
    ensures Total(ComponentLess())
  {
    TextIsTotal();
    forall a, b, c | Before(a, b) && Before(b, c) ensures Before(a, c) {
      if a.Normal? && b.Normal? && c.Normal? {
        assert TextLess()(a.name, b.name) && TextLess()(b.name, c.name);
      }
    }
    forall a, b ensures a == b || Before(a, b) || Before(b, a) {
      if a.Normal? && b.Normal? {
        assert a.name == b.name || TextLess()(a.name, b.name) || TextLess()(b.name, a.name);
      }
    }
    forall a ensures !Before(a, a) {
    }
  }

  lemma OrdersAreTotal()
    ensures Total(TextLess()) && Total(PathLess()) && Strict(ItemLess())
  {
    TextIsTotal();
    ComponentsAreTotal();
    LexIsTotal(ComponentLess());
    var less, path := ItemLess(), PathLess();
    forall a, b, c | less(a, b) && less(b, c) ensures less(a, c) {
      assert path(a.path, b.path) && path(b.path, c.path);
    }
    forall a ensures !less(a, a) {
      assert !path(a.path, a.path);
    }
  }

  // The order the encoder puts items in: by the text of their paths, components joined by '/'.
  function Text(p: Path): string {
    if p == [] then ""
    else
      var first := match p[0] case RootDir => "" case CurDir => "." case ParentDir => ".." case Normal(name) => name;
      if |p| == 1 then first else first + "/" + Text(p[1..])
  }

  function ItemTextLess(): (Item, Item) -> bool {
    (a: Item, b: Item) => TextLess()(Text(a.path), Text(b.path))
  }

  function PathTextLess(): (Path, Path) -> bool {
    (a: Path, b: Path) => TextLess()(Text(a), Text(b))
  }

  // ---- Encoding ----

  function Encode(p: Plan, includeApproval: bool): Document {
    Document(SCHEMA_VERSION, "directory", Sort(PathTextLess(), p.roots), Canonical(TextLess(), p.recipes),
             Canonical(PathTextLess(), p.exclusions), p.destination, p.policy, p.crossMounts,
             if includeApproval then p.approved else None, Sort(ItemTextLess(), p.items))
  }

  function HashOf(p: Plan): ApprovalHash {
    ApprovalHash(Encode(p, false))
  }

  // ---- Decoding ----

  datatype PlanError = BadVersion | BadKind | BadRoots | UnsafePath | Duplicate | WrongIdentity | NoRootItem

  function LogicalSize(items: seq<Item>): nat {
    if items == [] then 0
    else LogicalSize(items[..|items| - 1])
         + (if items[|items| - 1].kind == RegularFile then items[|items| - 1].size else 0)
  }

  // The sum of the regular files' sizes, in whatever order the items come.
  lemma {:induction false} LogicalSizeAdds(a: seq<Item>, b: seq<Item>)
    ensures LogicalSize(a + b) == LogicalSize(a) + LogicalSize(b)
    ensures |b| == 1 ==> LogicalSize(b) == if b[0].kind == RegularFile then b[0].size else 0
    decreases |b|
  {
    if b == [] {
      assert a + b == a;
    } else {
      var n := |b| - 1;
      assert (a + b)[..|a + b| - 1] == a + b[..n];
      LogicalSizeAdds(a, b[..n]);
    }
  }

  function SourceName(root: Path): string {
    if root != [] && root[|root| - 1].Normal? then root[|root| - 1].name else "approved-root"
  }

  // The source is called after the last name of its root, if it has one.
  lemma SourceNameIs(parent: Path, name: string)
    ensures SourceName(parent + [Normal(name)]) == name && SourceName([RootDir]) == "approved-root"
  {
  }

  ghost predicate Distinct(items: seq<Item>) {
    forall i, j | 0 <= i < j < |items| :: items[i].id != items[j].id && items[i].path != items[j].path
  }

  ghost predicate Identified(items: seq<Item>, root: Path) {
    forall i | 0 <= i < |items| :: IsSafe(items[i].path) && items[i].id == Stable(root, items[i].path, items[i].kind)
  }

  function PlanOf(d: Document, root: Path, items: seq<Item>): Plan {
    Plan(SourceName(root), LogicalSize(items), [root], items, Canonical(TextLess(), d.recipes),
         Canonical(PathLess(), d.exclusions), d.destination, d.policy, d.crossMounts, d.approval)
  }

  ghost predicate Accepted(d: Document) {
    && d.schemaVersion == SCHEMA_VERSION && d.planKind == "directory" && |d.roots| == 1 && IsAbsolute(d.roots[0])
    && Identified(d.items, d.roots[0]) && Distinct(d.items)
    && (exists i :: 0 <= i < |d.items| && d.items[i].path == ROOT_ITEM)
    && forall p | p in d.exclusions :: IsSafe(p)
  }

  ghost function Decode(d: Document): Option<Plan> {
    if Accepted(d) then Some(PlanOf(d, d.roots[0], Sort(ItemLess(), d.items))) else None
  }

  method DecodeItems(documents: seq<Item>, root: Path) returns (r: Result<seq<Item>, PlanError>)
    ensures r.Ok? <==> Identified(documents, root) && Distinct(documents)
    ensures r.Ok? ==> r.value == documents
  {
    var seenIds: set<Identifier>, seenPaths: set<Path> := {}, {};
    var items: seq<Item> := [];
    var i := 0;
    while i < |documents|
      invariant i <= |documents| && items == documents[..i]
      invariant seenIds == (set k | 0 <= k < i :: documents[k].id)
      invariant seenPaths == (set k | 0 <= k < i :: documents[k].path)
      invariant Identified(items, root) && Distinct(items)
    {
      var item := documents[i];
      if !IsSafe(item.path) {
        return Err(UnsafePath);
      }
      if item.id in seenIds || item.path in seenPaths {
        return Err(Duplicate);
      }
      if item.id != Stable(root, item.path, item.kind) {
        return Err(WrongIdentity);
      }
      seenIds, seenPaths := seenIds + {item.id}, seenPaths + {item.path};
      items := items + [item];
      i := i + 1;
    }
    assert documents[..|documents|] == documents;
    r := Ok(items);
  }

  method DecodePlan(d: Document) returns (r: Result<Plan, PlanError>)
    ensures r.Ok? <==> Decode(d).Some?
    ensures r.Ok? ==> Decode(d) == Some(r.value)
  {
    if d.schemaVersion != SCHEMA_VERSION {
      return Err(BadVersion);
    }
    if d.planKind != "directory" {
      return Err(BadKind);
    }
    if |d.roots| != 1 || !IsAbsolute(d.roots[0]) {
      return Err(BadRoots);
    }
    var root := d.roots[0];
    var decoded := DecodeItems(d.items, root);
    if decoded.Err? {
      return Err(decoded.error);
    }
    var items := Sort(ItemLess(), decoded.value);
    RootSortsFirst(d.items, root);
    if items == [] || items[0].path != ROOT_ITEM {
      return Err(NoRootItem);
    }
    if exists p :: p in d.exclusions && !IsSafe(p) {
      return Err(UnsafePath);
    }
    r := Ok(PlanOf(d, root, items));
  }

  // Among safe paths the root item's comes first.
  lemma RootIsLeast(p: Path)
    requires IsSafe(p) && p != ROOT_ITEM
    ensures PathLess()(ROOT_ITEM, p)
  {
    assert p[0] in p;
    assert ROOT_ITEM[0] == CurDir && Before(CurDir, p[0]);
  }

  lemma ItemsComparable(items: seq<Item>, root: Path)
    requires Identified(items, root) && Distinct(items)
    ensures Comparable(ItemLess(), items)
  {
    OrdersAreTotal();
    forall i, j | 0 <= i < j < |items| ensures ItemLess()(items[i], items[j]) || ItemLess()(items[j], items[i]) {
      assert items[i].path != items[j].path;
    }
  }

  lemma {:induction false} RootSortsFirst(items: seq<Item>, root: Path)
    requires Identified(items, root) && Distinct(items)
    ensures var sorted := Sort(ItemLess(), items);
      && Increasing(ItemLess(), sorted) && multiset(sorted) == multiset(items)
      && ((sorted != [] && sorted[0].path == ROOT_ITEM) <==> exists i :: 0 <= i < |items| && items[i].path == ROOT_ITEM)
  {
    OrdersAreTotal();
    ItemsComparable(items, root);
    SortIncreases(ItemLess(), items);
    SortPermutes(ItemLess(), items);
    SameElements(Sort(ItemLess(), items), items);
    var sorted := Sort(ItemLess(), items);
    if sorted != [] && sorted[0].path == ROOT_ITEM {
      assert sorted[0] in items;
    }
    if i :| 0 <= i < |items| && items[i].path == ROOT_ITEM {
      assert items[i] in sorted;
      var k :| 0 <= k < |sorted| && sorted[k] == items[i];
      if k > 0 {
        assert ItemLess()(sorted[0], sorted[k]) && sorted[0] in items;
        RootIsLeast(sorted[0].path);
      }
    }
  }

  // ---- Round trips ----

  // The Plans that decoding can give.
  ghost predicate IsDirectoryPlan(p: Plan) {
    && |p.roots| == 1 && IsAbsolute(p.roots[0])
    && Identified(p.items, p.roots[0]) && Distinct(p.items) && Increasing(ItemLess(), p.items)
    && p.items != [] && p.items[0].path == ROOT_ITEM
    && Increasing(TextLess(), p.recipes)
    && Increasing(PathLess(), p.exclusions) && (forall e | e in p.exclusions :: IsSafe(e))
    && p.sourceName == SourceName(p.roots[0]) && p.logicalSize == LogicalSize(p.items)
  }

  lemma Permuted(a: seq<Item>, b: seq<Item>, root: Path)
    requires multiset(a) == multiset(b) && Identified(a, root) && Distinct(a)
    ensures Identified(b, root) && Distinct(b)
  {
    SameElements(a, b);
    forall i | 0 <= i < |b| ensures IsSafe(b[i].path) && b[i].id == Stable(root, b[i].path, b[i].kind) {
      assert b[i] in a;
    }
    PermutedNoDuplicates(a, b);
    forall i, j | 0 <= i < j < |b| ensures b[i].id != b[j].id && b[i].path != b[j].path {
      assert b[i] in a && b[j] in a;
      var k :| 0 <= k < |a| && a[k] == b[i];
      var l :| 0 <= l < |a| && a[l] == b[j];
      assert k != l;
    }
  }

  lemma DecodedIsDirectoryPlan(d: Document)
    requires Decode(d).Some?
    ensures IsDirectoryPlan(Decode(d).value)
  {
    OrdersAreTotal();
    RootSortsFirst(d.items, d.roots[0]);
    Permuted(d.items, Sort(ItemLess(), d.items), d.roots[0]);
    CanonicalIsIncreasing(TextLess(), d.recipes);
    CanonicalIsIncreasing(PathLess(), d.exclusions);
  }

  lemma Settled<T(!new)>(less: (T, T) -> bool, s: seq<T>, t: seq<T>)
    requires Total(less) && Increasing(less, s) && forall x :: x in t <==> x in s
    ensures Canonical(less, t) == s
  {
    CanonicalIsIncreasing(less, t);
    IncreasingIsUnique(less, Canonical(less, t), s);
  }

  lemma ElementsStay<T(!new)>(less: (T, T) -> bool, s: seq<T>)
    ensures forall x :: x in Canonical(less, s) <==> x in s
  {
    SortPermutes(less, s);
    SameElements(Sort(less, s), s);
    DedupKeepsElements(Sort(less, s));
  }

  lemma EncodedIsAccepted(p: Plan, includeApproval: bool)
    requires IsDirectoryPlan(p)
    ensures var d := Encode(p, includeApproval);
      Accepted(d) && d.roots == p.roots && multiset(d.items) == multiset(p.items)
  {
    var d := Encode(p, includeApproval);
    SortPermutes(ItemTextLess(), p.items);
    Permuted(p.items, d.items, p.roots[0]);
    SameElements(d.items, p.items);
    assert p.items[0] in d.items;
    ElementsStay(PathTextLess(), p.exclusions);
    assert p.roots == [p.roots[0]];
    SortOne(PathTextLess(), p.roots[0]);
  }

  lemma {:induction false} ItemsComeBack(items: seq<Item>, encoded: seq<Item>, root: Path)
    requires Identified(items, root) && Distinct(items) && Increasing(ItemLess(), items)
    requires multiset(encoded) == multiset(items)
    ensures Sort(ItemLess(), encoded) == items
  {
    OrdersAreTotal();
    Permuted(items, encoded, root);
    RootSortsFirst(encoded, root);
    SameElements(Sort(ItemLess(), encoded), items);
    IncreasingIsUnique(ItemLess(), Sort(ItemLess(), encoded), items);
  }

  // Encoding a Plan and decoding it again gives the same Plan, with its approval if that was kept.
  lemma EncodeThenDecode(p: Plan, includeApproval: bool)
    requires IsDirectoryPlan(p)
    ensures Decode(Encode(p, includeApproval)) == Some(if includeApproval then p else p.(approved := None))
  {
    OrdersAreTotal();
    var d := Encode(p, includeApproval);
    EncodedIsAccepted(p, includeApproval);
    ItemsComeBack(p.items, d.items, p.roots[0]);
    ElementsStay(TextLess(), p.recipes);
    ElementsStay(PathTextLess(), p.exclusions);
    Settled(TextLess(), p.recipes, d.recipes);
    Settled(PathLess(), p.exclusions, d.exclusions);
    assert [p.roots[0]] == p.roots;
  }

  // The Plans that decode are exactly these.
  lemma DirectoryPlansAreTheDecodedOnes(p: Plan)
    ensures IsDirectoryPlan(p) <==> exists d :: Decode(d) == Some(p)
  {
    if IsDirectoryPlan(p) {
      EncodeThenDecode(p, true);
    }
    if d :| Decode(d) == Some(p) {
      DecodedIsDirectoryPlan(d);
    }
  }

  // The approval hash is the same exactly when everything but the approval itself is.
  lemma HashDecides(p: Plan, q: Plan)
    requires IsDirectoryPlan(p) && IsDirectoryPlan(q)
    ensures HashOf(p) == HashOf(q) <==> p.(approved := None) == q.(approved := None)
  {
    if HashOf(p) == HashOf(q) {
      EncodeThenDecode(p, false);
      EncodeThenDecode(q, false);
    }
    assert Encode(p, false) == Encode(p.(approved := None), false);
    assert Encode(q, false) == Encode(q.(approved := None), false);
  }

  // ---- Approval ----

  datatype ApprovalState = Unapproved | Approved | Stale

  function StateOf(p: Plan): ApprovalState {
    if p.approved.None? then Unapproved
    else if p.approved.value == HashOf(p) then Approved
    else Stale
  }

  function Approve(p: Plan, reviewed: ApprovalHash): Option<Plan> {
    if reviewed == HashOf(p) then Some(p.(approved := Some(reviewed))) else None
  }

  // Only the hash of the Plan itself approves it, and an approval survives the round trip.
  lemma ApprovalSurvives(p: Plan, reviewed: ApprovalHash)
    requires IsDirectoryPlan(p)
    ensures Approve(p, reviewed).Some? <==> reviewed == HashOf(p)
    ensures Approve(p, reviewed).Some? ==> var q := Approve(p, reviewed).value;
      && StateOf(q) == Approved && IsDirectoryPlan(q) && HashOf(q) == HashOf(p)
      && Decode(Encode(q, true)) == Some(q) && StateOf(Decode(Encode(q, true)).value) == Approved
  {
    if reviewed == HashOf(p) {
      var q := p.(approved := Some(reviewed));
      assert Encode(q, false) == Encode(p, false);
      EncodeThenDecode(q, true);
    }
  }
}
