// The difference between two Plans as reviewers see it, and what it has to do with approval.
module PlanComparison {
  import opened Outcomes
  import opened Ordering
  import opened PlanDocument

  datatype Change =
    | RootsChanged | DestinationChanged | PolicyChanged | MountsChanged
    | RecipeAdded(recipe: string) | RecipeRemoved(recipe: string)
    | ExclusionAdded(path: Path) | ExclusionRemoved(path: Path)
    | ItemAdded(id: Identifier) | ItemRemoved(id: Identifier)
    | DispositionChanged(id: Identifier) | RequirementChanged(id: Identifier)
    | SizeChanged(id: Identifier) | ExplanationChanged(id: Identifier)

  // ---- What there is to report ----

  function When(condition: bool, c: Change): set<Change> {
    if condition then {c} else {}
  }

  function PolicyChanges(before: Plan, after: Plan): set<Change> {
    When(before.roots != after.roots, RootsChanged)
    + When(before.destination != after.destination, DestinationChanged)
    + When(before.policy != after.policy, PolicyChanged)
    + When(before.crossMounts != after.crossMounts, MountsChanged)
  }

  function RecipeChanges(before: seq<string>, after: seq<string>): set<Change> {
    (set x | x in before && x !in after :: RecipeRemoved(x)) + (set x | x in after && x !in before :: RecipeAdded(x))
  }

  function ExclusionChanges(before: seq<Path>, after: seq<Path>): set<Change> {
    (set x | x in before && x !in after :: ExclusionRemoved(x))
    + (set x | x in after && x !in before :: ExclusionAdded(x))
  }

  // The items by identifier; of two with the same identifier the later one counts.
  function ById(items: seq<Item>): map<Identifier, Item> {
    if items == [] then map[]
    else ById(items[..|items| - 1])[items[|items| - 1].id := items[|items| - 1]]
  }

  function ChangesBetween(id: Identifier, before: Item, after: Item): set<Change> {
    When(before.disposition != after.disposition, DispositionChanged(id))
    + When(before.requirement != after.requirement, RequirementChanged(id))
    + When(before.size != after.size, SizeChanged(id))
    + When(before.explanation != after.explanation, ExplanationChanged(id))
  }

  function ItemChanges(id: Identifier, before: map<Identifier, Item>, after: map<Identifier, Item>): set<Change> {
    if id in before && id in after then ChangesBetween(id, before[id], after[id])
    else When(id in before, ItemRemoved(id)) + When(id in after, ItemAdded(id))
  }

  function AllItemChanges(ids: set<Identifier>, before: map<Identifier, Item>, after: map<Identifier, Item>):
    set<Change>
  {
    set id, c | id in ids && c in ItemChanges(id, before, after) :: c
  }

  function HeadChanges(before: Plan, after: Plan): set<Change> {
    PolicyChanges(before, after) + RecipeChanges(before.recipes, after.recipes)
    + ExclusionChanges(before.exclusions, after.exclusions)
  }

  // Every approval-relevant difference between two Plans.
  function Differences(before: Plan, after: Plan): set<Change> {
    var b, a := ById(before.items), ById(after.items);
    HeadChanges(before, after) + AllItemChanges(b.Keys + a.Keys, b, a)
  }

  // ---- The loops that report it ----

  ghost predicate NoRepeats(changes: seq<Change>) {
    forall i, j | 0 <= i < j < |changes| :: changes[i] != changes[j]
  }

  // Each expected change is in the list, once, and nothing else is.
  ghost predicate ListsExactly(changes: seq<Change>, expected: set<Change>) {
    (forall c :: c in changes <==> c in expected) && NoRepeats(changes)
  }

  lemma Together(a: seq<Change>, b: seq<Change>, s: set<Change>, t: set<Change>)
    requires ListsExactly(a, s) && ListsExactly(b, t) && s !! t
    ensures ListsExactly(a + b, s + t)
  {
    forall i, j | 0 <= i < j < |a + b| ensures (a + b)[i] != (a + b)[j] {
      if i < |a| <= j {
        assert a[i] in a && b[j - |a|] in b;
      }
    }
  }

  method Push(changes: seq<Change>, condition: bool, c: Change, ghost expected: set<Change>) returns (r: seq<Change>)
    requires ListsExactly(changes, expected) && c !in expected
    ensures ListsExactly(r, expected + When(condition, c))
  {
    r := changes;
    if condition {
      Together(changes, [c], expected, {c});
      r := changes + [c];
    }
  }

  method ComparePolicies(before: Plan, after: Plan) returns (changes: seq<Change>)
    ensures ListsExactly(changes, PolicyChanges(before, after))
  {
    changes := Push([], before.roots != after.roots, RootsChanged, {});
    ghost var s := {} + When(before.roots != after.roots, RootsChanged);
    changes := Push(changes, before.destination != after.destination, DestinationChanged, s);
    s := s + When(before.destination != after.destination, DestinationChanged);
    changes := Push(changes, before.policy != after.policy, PolicyChanged, s);
    s := s + When(before.policy != after.policy, PolicyChanged);
    changes := Push(changes, before.crossMounts != after.crossMounts, MountsChanged, s);
    assert {} + When(before.roots != after.roots, RootsChanged) == When(before.roots != after.roots, RootsChanged);
  }

  method CompareStringSets(before: seq<string>, after: seq<string>) returns (changes: seq<Change>)
    ensures ListsExactly(changes, RecipeChanges(before, after))
  {
    changes := [];
    var removed, added := set x | x in before && x !in after, set x | x in after && x !in before;
    ghost var all := RecipeChanges(before, after);
    while removed != {}
      invariant removed <= set x | x in before && x !in after
      invariant ListsExactly(changes, set x | x in before && x !in after && x !in removed :: RecipeRemoved(x))
      decreases |removed|
    {
      var x :| x in removed;
      ghost var listed := set y | y in before && y !in after && y !in removed :: RecipeRemoved(y);
      Together(changes, [RecipeRemoved(x)], listed, {RecipeRemoved(x)});
      changes, removed := changes + [RecipeRemoved(x)], removed - {x};
      assert listed + {RecipeRemoved(x)} == set y | y in before && y !in after && y !in removed :: RecipeRemoved(y);
    }
    ghost var gone := set x | x in before && x !in after :: RecipeRemoved(x);
    assert gone == set x | x in before && x !in after && x !in removed :: RecipeRemoved(x);
    while added != {}
      invariant added <= set x | x in after && x !in before
      invariant ListsExactly(changes, gone + set x | x in after && x !in before && x !in added :: RecipeAdded(x))
      decreases |added|
    {
      var x :| x in added;
      ghost var listed := gone + set y | y in after && y !in before && y !in added :: RecipeAdded(y);
      Together(changes, [RecipeAdded(x)], listed, {RecipeAdded(x)});
      changes, added := changes + [RecipeAdded(x)], added - {x};
      assert listed + {RecipeAdded(x)} == gone + set y | y in after && y !in before && y !in added :: RecipeAdded(y);
    }
    assert all == gone + set x | x in after && x !in before && x !in added :: RecipeAdded(x);
  }

  method ComparePathSets(before: seq<Path>, after: seq<Path>) returns (changes: seq<Change>)
    ensures ListsExactly(changes, ExclusionChanges(before, after))
  {
    changes := [];
    var removed, added := set x | x in before && x !in after, set x | x in after && x !in before;
    ghost var all := ExclusionChanges(before, after);
    while removed != {}
      invariant removed <= set x | x in before && x !in after
      invariant ListsExactly(changes, set x | x in before && x !in after && x !in removed :: ExclusionRemoved(x))
      decreases |removed|
    {
      var x :| x in removed;
      ghost var listed := set y | y in before && y !in after && y !in removed :: ExclusionRemoved(y);
      Together(changes, [ExclusionRemoved(x)], listed, {ExclusionRemoved(x)});
      changes, removed := changes + [ExclusionRemoved(x)], removed - {x};
      assert listed + {ExclusionRemoved(x)}
          == set y | y in before && y !in after && y !in removed :: ExclusionRemoved(y);
    }
    ghost var gone := set x | x in before && x !in after :: ExclusionRemoved(x);
    assert gone == set x | x in before && x !in after && x !in removed :: ExclusionRemoved(x);
    while added != {}
      invariant added <= set x | x in after && x !in before
      invariant ListsExactly(changes, gone + set x | x in after && x !in before && x !in added :: ExclusionAdded(x))
      decreases |added|
    {
      var x :| x in added;
      ghost var listed := gone + set y | y in after && y !in before && y !in added :: ExclusionAdded(y);
      Together(changes, [ExclusionAdded(x)], listed, {ExclusionAdded(x)});
      changes, added := changes + [ExclusionAdded(x)], added - {x};
      assert listed + {ExclusionAdded(x)}
          == gone + set y | y in after && y !in before && y !in added :: ExclusionAdded(y);
    }
    assert all == gone + set x | x in after && x !in before && x !in added :: ExclusionAdded(x);
  }

  method IndexItems(items: seq<Item>) returns (r: map<Identifier, Item>)
    ensures r == ById(items)
  {
    r := map[];
    var i := 0;
    while i < |items|
      invariant i <= |items| && r == ById(items[..i])
    {
      assert items[..i + 1][..i] == items[..i];
      r := r[items[i].id := items[i]];
      i := i + 1;
    }
    assert items[..|items|] == items;
  }

  method CompareItem(id: Identifier, before: Item, after: Item) returns (changes: seq<Change>)
    ensures ListsExactly(changes, ChangesBetween(id, before, after))
  {
    ghost var s := When(before.disposition != after.disposition, DispositionChanged(id));
    changes := Push([], before.disposition != after.disposition, DispositionChanged(id), {});
    assert {} + s == s;
    changes := Push(changes, before.requirement != after.requirement, RequirementChanged(id), s);
    s := s + When(before.requirement != after.requirement, RequirementChanged(id));
    changes := Push(changes, before.size != after.size, SizeChanged(id), s);
    s := s + When(before.size != after.size, SizeChanged(id));
    changes := Push(changes, before.explanation != after.explanation, ExplanationChanged(id), s);
  }

  // Which item a change is about, if it is about one.
  function Subject(c: Change): Option<Identifier> {
    if c.ItemAdded? || c.ItemRemoved? || c.DispositionChanged? || c.RequirementChanged? || c.SizeChanged?
       || c.ExplanationChanged?
    then Some(c.id) else None
  }

  lemma ChangesHaveTheirSubject(id: Identifier, before: map<Identifier, Item>, after: map<Identifier, Item>)
    ensures forall c | c in ItemChanges(id, before, after) :: Subject(c) == Some(id)
  {
  }

  method CompareOne(id: Identifier, before: map<Identifier, Item>, after: map<Identifier, Item>)
    returns (changes: seq<Change>)
    requires id in before || id in after
    ensures ListsExactly(changes, ItemChanges(id, before, after))
  {
    if id in before && id in after {
      changes := CompareItem(id, before[id], after[id]);
    } else if id in before {
      changes := [ItemRemoved(id)];
    } else {
      changes := [ItemAdded(id)];
    }
  }

  method CompareItems(before: map<Identifier, Item>, after: map<Identifier, Item>) returns (changes: seq<Change>)
    ensures ListsExactly(changes, AllItemChanges(before.Keys + after.Keys, before, after))
  {
    changes := [];
    ghost var ids := before.Keys + after.Keys;
    var rest := before.Keys + after.Keys;
    while rest != {}
      invariant rest <= ids && ListsExactly(changes, AllItemChanges(ids - rest, before, after))
      decreases |rest|
    {
      var id :| id in rest;
      var these := CompareOne(id, before, after);
      OneMoreListed(changes, these, ids - rest, id, before, after);
      assert ids - (rest - {id}) == (ids - rest) + {id};
      changes, rest := changes + these, rest - {id};
    }
    assert ids - rest == ids;
  }

  lemma OneMoreListed(changes: seq<Change>, these: seq<Change>, ids: set<Identifier>, id: Identifier,
                      before: map<Identifier, Item>, after: map<Identifier, Item>)
    requires id !in ids && ListsExactly(changes, AllItemChanges(ids, before, after))
    requires ListsExactly(these, ItemChanges(id, before, after))
    ensures ListsExactly(changes + these, AllItemChanges(ids + {id}, before, after))
  {
    OneMoreId(ids, id, before, after);
    Together(changes, these, AllItemChanges(ids, before, after), ItemChanges(id, before, after));
  }

  lemma OneMoreId(ids: set<Identifier>, id: Identifier, before: map<Identifier, Item>, after: map<Identifier, Item>)
    requires id !in ids
    ensures AllItemChanges(ids, before, after) !! ItemChanges(id, before, after)
    ensures AllItemChanges(ids + {id}, before, after)
         == AllItemChanges(ids, before, after) + ItemChanges(id, before, after)
  {
    forall c | c in AllItemChanges(ids, before, after) && c in ItemChanges(id, before, after) ensures false {
      var other :| other in ids && c in ItemChanges(other, before, after);
      ChangesHaveTheirSubject(other, before, after);
      ChangesHaveTheirSubject(id, before, after);
    }
  }

  // The comparison lists every difference once and nothing else.
  method Compare(before: Plan, after: Plan) returns (changes: seq<Change>)
    ensures ListsExactly(changes, Differences(before, after))
  {
    var policies := ComparePolicies(before, after);
    var recipes := CompareStringSets(before.recipes, after.recipes);
    var exclusions := ComparePathSets(before.exclusions, after.exclusions);
    var b := IndexItems(before.items);
    var a := IndexItems(after.items);
    var items := CompareItems(b, a);
    HeadTogether(before, after, policies, recipes, exclusions);
    ItemChangesApart(before, after);
    Together(policies + recipes + exclusions, items, HeadChanges(before, after), AllItemChanges(b.Keys + a.Keys, b, a));
    changes := policies + recipes + exclusions + items;
  }

  lemma HeadTogether(before: Plan, after: Plan, policies: seq<Change>, recipes: seq<Change>, exclusions: seq<Change>)
    requires ListsExactly(policies, PolicyChanges(before, after))
    requires ListsExactly(recipes, RecipeChanges(before.recipes, after.recipes))
    requires ListsExactly(exclusions, ExclusionChanges(before.exclusions, after.exclusions))
    ensures ListsExactly(policies + recipes + exclusions, HeadChanges(before, after))
  {
    var p, r := PolicyChanges(before, after), RecipeChanges(before.recipes, after.recipes);
    Together(policies, recipes, p, r);
    Together(policies + recipes, exclusions, p + r, ExclusionChanges(before.exclusions, after.exclusions));
  }

  lemma Apart(a: set<Change>, b: set<Change>)
    requires forall c | c in a :: Subject(c).None?
    requires forall c | c in b :: Subject(c).Some?
    ensures a !! b
  {
  }

  lemma ItemsHaveSubjects(ids: set<Identifier>, before: map<Identifier, Item>, after: map<Identifier, Item>)
    ensures forall c | c in AllItemChanges(ids, before, after) :: Subject(c).Some?
  {
    forall c | c in AllItemChanges(ids, before, after) ensures Subject(c).Some? {
      var id :| id in ids && c in ItemChanges(id, before, after);
      ChangesHaveTheirSubject(id, before, after);
    }
  }

  lemma ItemChangesApart(before: Plan, after: Plan)
    ensures var b, a := ById(before.items), ById(after.items);
      HeadChanges(before, after) !! AllItemChanges(b.Keys + a.Keys, b, a)
  {
    var b, a := ById(before.items), ById(after.items);
    ItemsHaveSubjects(b.Keys + a.Keys, b, a);
    Apart(HeadChanges(before, after), AllItemChanges(b.Keys + a.Keys, b, a));
  }

  // ---- What the reported changes say ----

  // What a reported change says; of two items with one identifier the later one counts.
  ghost predicate IsSo(c: Change, before: Plan, after: Plan) {
    if Subject(c).Some? then IsSoOfItem(c, ById(before.items), ById(after.items))
    else
      match c
      case RootsChanged => before.roots != after.roots
      case DestinationChanged => before.destination != after.destination
      case PolicyChanged => before.policy != after.policy
      case MountsChanged => before.crossMounts != after.crossMounts
      case RecipeAdded(x) => x in after.recipes && x !in before.recipes
      case RecipeRemoved(x) => x in before.recipes && x !in after.recipes
      case ExclusionAdded(x) => x in after.exclusions && x !in before.exclusions
      case ExclusionRemoved(x) => x in before.exclusions && x !in after.exclusions
      case _ => false
  }

  ghost predicate IsSoOfItem(c: Change, b: map<Identifier, Item>, a: map<Identifier, Item>) {
    match c
    case ItemAdded(id) => id in a && id !in b
    case ItemRemoved(id) => id in b && id !in a
    case DispositionChanged(id) => id in a && id in b && a[id].disposition != b[id].disposition
    case RequirementChanged(id) => id in a && id in b && a[id].requirement != b[id].requirement
    case SizeChanged(id) => id in a && id in b && a[id].size != b[id].size
    case ExplanationChanged(id) => id in a && id in b && a[id].explanation != b[id].explanation
    case _ => false
  }

  lemma HeadSays(before: Plan, after: Plan, c: Change)
    requires Subject(c).None?
    ensures c in HeadChanges(before, after) <==> IsSo(c, before, after)
  {
    match c
    case RootsChanged =>
    case DestinationChanged =>
    case PolicyChanged =>
    case MountsChanged =>
    case RecipeAdded(x) =>
    case RecipeRemoved(x) =>
    case ExclusionAdded(x) =>
    case ExclusionRemoved(x) =>
    case _ =>
  }

  lemma ItemSays(c: Change, b: map<Identifier, Item>, a: map<Identifier, Item>)
    requires Subject(c).Some?
    ensures c in ItemChanges(Subject(c).value, b, a) <==> IsSoOfItem(c, b, a)
  {
    match c
    case ItemAdded(id) =>
    case ItemRemoved(id) =>
    case DispositionChanged(id) =>
    case RequirementChanged(id) =>
    case SizeChanged(id) =>
    case ExplanationChanged(id) =>
    case _ =>
  }

  lemma ListedByItem(ids: set<Identifier>, c: Change, b: map<Identifier, Item>, a: map<Identifier, Item>)
    requires ids == b.Keys + a.Keys && Subject(c).Some?
    ensures c in AllItemChanges(ids, b, a) <==> c in ItemChanges(Subject(c).value, b, a)
  {
    if c in AllItemChanges(ids, b, a) {
      var id :| id in ids && c in ItemChanges(id, b, a);
      ChangesHaveTheirSubject(id, b, a);
    }
  }

  // A change is reported exactly when it is so.
  lemma ReportedExactly(before: Plan, after: Plan, c: Change)
    ensures c in Differences(before, after) <==> IsSo(c, before, after)
  {
    var b, a := ById(before.items), ById(after.items);
    if Subject(c).None? {
      HeadSays(before, after, c);
      ItemsHaveSubjects(b.Keys + a.Keys, b, a);
    } else {
      ItemSays(c, b, a);
      ListedByItem(b.Keys + a.Keys, c, b, a);
    }
  }

  // ---- The difference and the approval hash ----

  lemma {:induction false} ByIdKeys(items: seq<Item>, id: Identifier)
    ensures id in ById(items) <==> exists i :: 0 <= i < |items| && items[i].id == id
  {
    if items != [] {
      var n := |items| - 1;
      ByIdKeys(items[..n], id);
      if i :| 0 <= i < n && items[i].id == id {
        assert items[..n][i].id == id;
      }
    }
  }

  lemma {:induction false} ByIdFinds(items: seq<Item>, i: nat)
    requires Distinct(items) && i < |items|
    ensures items[i].id in ById(items) && ById(items)[items[i].id] == items[i]
  {
    if i < |items| - 1 {
      ByIdFinds(items[..|items| - 1], i);
    }
  }

  lemma NothingBetween(id: Identifier, before: Item, after: Item)
    requires before.id == after.id && before.path == after.path && before.kind == after.kind
    ensures ChangesBetween(id, before, after) == {} <==> before == after
  {
    assert before.disposition != after.disposition ==> DispositionChanged(id) in ChangesBetween(id, before, after);
    assert before.requirement != after.requirement ==> RequirementChanged(id) in ChangesBetween(id, before, after);
    assert before.size != after.size ==> SizeChanged(id) in ChangesBetween(id, before, after);
    assert before.explanation != after.explanation ==> ExplanationChanged(id) in ChangesBetween(id, before, after);
  }

  lemma ChangesAreListed(id: Identifier, ids: set<Identifier>, before: map<Identifier, Item>,
                         after: map<Identifier, Item>)
    requires id in ids
    ensures ItemChanges(id, before, after) <= AllItemChanges(ids, before, after)
  {
  }

  lemma MirrorOne(id: Identifier, before: map<Identifier, Item>, after: map<Identifier, Item>)
    requires ItemChanges(id, before, after) == {}
    ensures ItemChanges(id, after, before) == {}
  {
    assert id in before && id !in after ==> ItemRemoved(id) in ItemChanges(id, before, after);
    assert id in after && id !in before ==> ItemAdded(id) in ItemChanges(id, before, after);
    if id in before && id in after {
      var b, a := before[id], after[id];
      assert b.disposition != a.disposition ==> DispositionChanged(id) in ChangesBetween(id, b, a);
      assert b.requirement != a.requirement ==> RequirementChanged(id) in ChangesBetween(id, b, a);
      assert b.size != a.size ==> SizeChanged(id) in ChangesBetween(id, b, a);
      assert b.explanation != a.explanation ==> ExplanationChanged(id) in ChangesBetween(id, b, a);
    }
  }

  // Every item of the one Plan is an item of the other when no item change is reported between
  // them: an unchanged identifier means an unchanged path and kind.
  lemma ItemsCarryOver(p: Plan, q: Plan, i: nat)
    requires IsDirectoryPlan(p) && IsDirectoryPlan(q) && p.roots == q.roots && i < |p.items|
    requires var b, a := ById(p.items), ById(q.items); AllItemChanges(b.Keys + a.Keys, b, a) == {}
    ensures p.items[i] in q.items
  {
    var b, a := ById(p.items), ById(q.items);
    var item := p.items[i];
    ByIdFinds(p.items, i);
    ByIdKeys(q.items, item.id);
    ChangesAreListed(item.id, b.Keys + a.Keys, b, a);
    assert item.id !in a ==> ItemRemoved(item.id) in ItemChanges(item.id, b, a);
    var k: nat :| k < |q.items| && q.items[k].id == item.id;
    ByIdFinds(q.items, k);
    NothingBetween(item.id, item, q.items[k]);
  }

  lemma ItemChangesMirror(ids: set<Identifier>, before: map<Identifier, Item>, after: map<Identifier, Item>)
    requires AllItemChanges(ids, before, after) == {}
    ensures AllItemChanges(ids, after, before) == {}
  {
    forall id | id in ids ensures ItemChanges(id, after, before) == {} {
      ChangesAreListed(id, ids, before, after);
      MirrorOne(id, before, after);
    }
  }

  lemma NoDifferenceSamePlan(p: Plan, q: Plan)
    requires IsDirectoryPlan(p) && IsDirectoryPlan(q) && Differences(p, q) == {}
    ensures p.(approved := None) == q.(approved := None)
  {
    var b, a := ById(p.items), ById(q.items);
    OrdersAreTotal();
    PoliciesAgree(p, q);
    assert AllItemChanges(b.Keys + a.Keys, b, a) <= Differences(p, q);
    ItemChangesMirror(b.Keys + a.Keys, b, a);
    assert b.Keys + a.Keys == a.Keys + b.Keys;
    forall x ensures x in p.items <==> x in q.items {
      if x in p.items {
        var i :| 0 <= i < |p.items| && p.items[i] == x;
        ItemsCarryOver(p, q, i);
      }
      if x in q.items {
        var i :| 0 <= i < |q.items| && q.items[i] == x;
        ItemsCarryOver(q, p, i);
      }
    }
    IncreasingIsUnique(ItemLess(), p.items, q.items);
  }

  lemma PoliciesAgree(p: Plan, q: Plan)
    requires IsDirectoryPlan(p) && IsDirectoryPlan(q) && Differences(p, q) == {}
    ensures p.roots == q.roots && p.destination == q.destination
    ensures p.policy == q.policy && p.crossMounts == q.crossMounts
    ensures p.recipes == q.recipes && p.exclusions == q.exclusions
  {
    OrdersAreTotal();
    var d := Differences(p, q);
    assert RootsChanged !in d && DestinationChanged !in d && PolicyChanged !in d && MountsChanged !in d;
    forall x ensures x in p.recipes <==> x in q.recipes {
      assert RecipeRemoved(x) !in d && RecipeAdded(x) !in d;
    }
    forall x ensures x in p.exclusions <==> x in q.exclusions {
      assert ExclusionRemoved(x) !in d && ExclusionAdded(x) !in d;
    }
    IncreasingIsUnique(TextLess(), p.recipes, q.recipes);
    IncreasingIsUnique(PathLess(), p.exclusions, q.exclusions);
  }

  lemma SamePlanNoDifference(p: Plan, q: Plan)
    requires p.(approved := None) == q.(approved := None)
    ensures Differences(p, q) == {}
  {
    var b := ById(p.items);
    assert forall id :: id in b ==> ItemChanges(id, b, b) == {};
  }

  // For decoded directory Plans the reported difference is empty exactly when the approval
  // hashes are equal: no approval-relevant change escapes review.
  lemma EmptyDifferenceMeansSameHash(p: Plan, q: Plan)
    requires IsDirectoryPlan(p) && IsDirectoryPlan(q)
    ensures Differences(p, q) == {} <==> HashOf(p) == HashOf(q)
  {
    HashDecides(p, q);
    if Differences(p, q) == {} {
      NoDifferenceSamePlan(p, q);
    }
    if HashOf(p) == HashOf(q) {
      SamePlanNoDifference(p, q);
    }
  }

  // A revised Plan that carries the approval of an earlier one is approved exactly when no
  // difference from it is reported, and stale otherwise.
  lemma ApprovalFollowsDifference(p: Plan, q: Plan)
    requires IsDirectoryPlan(p) && IsDirectoryPlan(q) && q.approved == Some(HashOf(p))
    ensures StateOf(q) == if Differences(p, q) == {} then Approved else Stale
  {
    EmptyDifferenceMeansSameHash(p, q);
  }
}
