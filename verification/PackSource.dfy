// What a pack reads: the planned items, how the source behaves while each is captured, and
// what each captured item comes to, however its content was split over reads and attempts.
module PackSource {
  import opened Outcomes
  import opened Cells
  import opened Records
  import opened CapturedItems

  datatype Disposition = Included | Excluded | Unsupported | RequiresReview | Unavailable

  datatype PlanItem = PlanItem(id: string, relativePath: string, kind: ItemKind, disposition: Disposition,
                               estimatedSize: nat)

  datatype Observation = Observation(length: nat, identity: nat, changeToken: nat, mode: Option<nat>)

  // One attempt at a regular file: it cannot be observed or opened, or it is read to its end
  // or to a failed read, and observed again.
  datatype Attempt = Unobserved | Unopenable
                   | Streamed(before: Observation, blocks: seq<Bytes>, broken: bool, after: Option<Observation>)

  datatype LinkReads = LinkReads(before: Option<string>, after: Option<string>)

  datatype ItemSource = ItemSource(attempts: seq<Attempt>, links: seq<LinkReads>, directoryMode: Option<nat>)

  const CAPTURE_ATTEMPTS := 3

  ghost predicate Readable(attempt: Attempt) {
    attempt.Streamed? ==> forall k | 0 <= k < |attempt.blocks| :: 1 <= |attempt.blocks[k]| <= MAX_CHUNK
  }

  // A read fills at most the buffer it is given, and returns nothing only at the end.
  ghost predicate Behaves(src: ItemSource) {
    && |src.attempts| == CAPTURE_ATTEMPTS && |src.links| == CAPTURE_ATTEMPTS
    && forall k | 0 <= k < CAPTURE_ATTEMPTS :: Readable(src.attempts[k])
  }

  function Concat(blocks: seq<Bytes>): Bytes {
    if blocks == [] then [] else Concat(blocks[..|blocks| - 1]) + blocks[|blocks| - 1]
  }

  // ---- What an item comes to ----

  datatype Facts = Facts(outcome: CaptureOutcome, content: Option<Bytes>, mode: Option<nat>, link: Option<string>,
                         changed: bool)

  const NOTHING_CAPTURED := Facts(Unverified, None, None, None, false)

  predicate Steady(attempt: Attempt)
    requires attempt.Streamed?
  {
    attempt.after == Some(attempt.before) && |Concat(attempt.blocks)| == attempt.before.length
  }

  // The first attempt that ends as it began decides; None when a read fails before one does.
  function FileFacts(attempts: seq<Attempt>, changed: bool): Option<Facts> {
    if attempts == [] then Some(NOTHING_CAPTURED.(changed := changed))
    else if !attempts[0].Streamed? then FileFacts(attempts[1..], changed)
    else if attempts[0].broken then None
    else if !Steady(attempts[0]) then FileFacts(attempts[1..], true)
    else Some(Facts(if changed then Changed else CaptureOutcome.Included, Some(Concat(attempts[0].blocks)),
                    attempts[0].before.mode, None,
                    changed))
  }

  // A link is read twice until both reads agree; a failed read ends it at once.
  function LinkTarget(links: seq<LinkReads>): Option<string> {
    if links == [] || links[0].before.None? || links[0].after.None? then None
    else if links[0].before == links[0].after then links[0].before
    else LinkTarget(links[1..])
  }

  function FactsOf(item: PlanItem, src: ItemSource): Option<Facts> {
    if item.kind == Special then Some(NOTHING_CAPTURED.(outcome := CaptureOutcome.Unsupported))
    else match item.disposition
      case Included =>
        (match item.kind
         case Directory => Some(NOTHING_CAPTURED.(outcome := CaptureOutcome.Included, mode := src.directoryMode))
         case SymbolicLink =>
           var target := LinkTarget(src.links);
           Some(NOTHING_CAPTURED.(outcome := if target.Some? then CaptureOutcome.Included else Unverified,
                                  link := target))
         case RegularFile => FileFacts(src.attempts, false)
         case _ => Some(NOTHING_CAPTURED.(outcome := CaptureOutcome.Unsupported)))
      case Excluded => Some(NOTHING_CAPTURED.(outcome := CaptureOutcome.Excluded))
      case Unsupported => Some(NOTHING_CAPTURED.(outcome := CaptureOutcome.Unsupported))
      case _ => Some(NOTHING_CAPTURED)
  }

  // ---- The counters ----

  datatype Counts = Counts(included: nat, changed: nat, unsupported: nat, unverified: nat)

  const ZERO := Counts(0, 0, 0, 0)

  predicate IsSelectedFile(item: PlanItem) {
    item.disposition == Disposition.Included && item.kind == RegularFile
  }

  function Tallied(c: Counts, item: PlanItem, f: Facts): Counts {
    if f.outcome == CaptureOutcome.Excluded then c
    else if f.outcome == CaptureOutcome.Unsupported then c.(unsupported := c.unsupported + 1)
    else if IsSelectedFile(item) then
      c.(included := c.included + 1, changed := c.changed + (if f.changed then 1 else 0),
         unverified := c.unverified + (if f.content.None? then 1 else 0))
    else if f.outcome == Unverified then c.(unverified := c.unverified + 1)
    else c.(included := c.included + 1)
  }

  function Tally(plan: seq<PlanItem>, facts: seq<Facts>): Counts
    requires |plan| <= |facts|
  {
    if plan == [] then ZERO
    else
      var n := |plan| - 1;
      Tallied(Tally(plan[..n], facts[..n]), plan[n], facts[n])
  }

  // ---- What the manifest says of it ----

  ghost predicate HoldsContent(f: Facts, group: seq<Piece>) {
    && (f.content.None? <==> group == [])
    && (f.content.Some? ==> Content(group) == f.content.value)
  }

  ghost function ManifestItemFor(item: PlanItem, f: Facts, group: seq<Piece>): ManifestItem {
    ManifestItem(item.id, item.relativePath, item.kind, item.estimatedSize, f.outcome, GroupSequences(group),
                 if f.content.None? then None else Some(Hash(f.content.value)), f.mode, f.link)
  }

  ghost predicate CapturedAs(plan: seq<PlanItem>, facts: seq<Facts>, items: seq<ManifestItem>, groups: Groups) {
    && |items| == |groups| <= |plan| == |facts|
    && forall i | 0 <= i < |items| ::
         HoldsContent(facts[i], groups[i]) && items[i] == ManifestItemFor(plan[i], facts[i], groups[i])
  }

  // ---- Properties ----

  function ExcludedCount(plan: seq<PlanItem>, facts: seq<Facts>): nat
    requires |plan| <= |facts|
  {
    if plan == [] then 0
    else
      var n := |plan| - 1;
      ExcludedCount(plan[..n], facts[..n]) + (if facts[n].outcome == CaptureOutcome.Excluded then 1 else 0)
  }

  function UnverifiedFiles(plan: seq<PlanItem>, facts: seq<Facts>): nat
    requires |plan| <= |facts|
  {
    if plan == [] then 0
    else
      var n := |plan| - 1;
      UnverifiedFiles(plan[..n], facts[..n])
      + (if IsSelectedFile(plan[n]) && facts[n].outcome == Unverified then 1 else 0)
  }

  ghost predicate AreFacts(plan: seq<PlanItem>, sources: seq<ItemSource>, facts: seq<Facts>) {
    && |plan| == |sources| == |facts|
    && forall i | 0 <= i < |plan| :: FactsOf(plan[i], sources[i]) == Some(facts[i])
  }

  lemma {:induction false} FileOutcome(attempts: seq<Attempt>, changed: bool)
    ensures var f := FileFacts(attempts, changed);
      f.Some? ==> && (f.value.content.Some? <==>
                        f.value.outcome == CaptureOutcome.Included || f.value.outcome == Changed)
                  && (f.value.content.None? ==> f.value.outcome == Unverified && f.value.mode == None)
                  && (f.value.outcome == Changed ==> f.value.changed)
                  && (f.value.outcome == CaptureOutcome.Included ==> !f.value.changed)
                  && f.value.link == None
    decreases |attempts|
  {
    if attempts != [] {
      FileOutcome(attempts[1..], changed);
      FileOutcome(attempts[1..], true);
    }
  }

  // ---- What the facts are, item by item ----

  // Attempt `k` was read to its end, the file was the same before and after and as long as it was
  // said to be, and no earlier attempt was, or failed while it was read.
  ghost predicate Held(attempts: seq<Attempt>, k: nat) {
    && k < |attempts| && attempts[k].Streamed? && !attempts[k].broken
    && attempts[k].after == Some(attempts[k].before) && |Concat(attempts[k].blocks)| == attempts[k].before.length
    && Passed(attempts, k)
  }

  // The first `k` attempts decided nothing.
  ghost predicate Passed(attempts: seq<Attempt>, k: nat)
    requires k <= |attempts|
  {
    forall i | 0 <= i < k && attempts[i].Streamed? ::
      !attempts[i].broken && !(attempts[i].after == Some(attempts[i].before)
                               && |Concat(attempts[i].blocks)| == attempts[i].before.length)
  }

  ghost predicate Breaks(attempts: seq<Attempt>, k: nat) {
    k < |attempts| && attempts[k].Streamed? && attempts[k].broken && Passed(attempts, k)
  }

  ghost predicate Retried(attempts: seq<Attempt>, k: nat) {
    exists i :: 0 <= i < k && i < |attempts| && attempts[i].Streamed?
  }

  lemma {:induction false} Shifted(attempts: seq<Attempt>, k: nat)
    requires attempts != [] && Passed(attempts, 1)
    ensures Held(attempts, k + 1) <==> Held(attempts[1..], k)
    ensures Breaks(attempts, k + 1) <==> Breaks(attempts[1..], k)
    ensures Retried(attempts, k + 1) <==> attempts[0].Streamed? || Retried(attempts[1..], k)
  {
    var rest := attempts[1..];
    if k < |rest| {
      assert rest[k] == attempts[k + 1];
      assert forall i | 0 <= i < k :: rest[i] == attempts[i + 1];
      assert Passed(attempts, k + 1) ==> Passed(rest, k);
      if Passed(rest, k) {
        assert forall i | 1 <= i < k + 1 :: attempts[i] == rest[i - 1];
      }
    }
    if Retried(rest, k) {
      var i :| 0 <= i < k && i < |rest| && rest[i].Streamed?;
      assert attempts[i + 1] == rest[i];
    }
    if Retried(attempts, k + 1) && !attempts[0].Streamed? {
      var i :| 0 <= i < k + 1 && i < |attempts| && attempts[i].Streamed?;
      assert rest[i - 1] == attempts[i];
    }
  }

  // A regular file comes to what its first held attempt read; to nothing if a read breaks first,
  // and to an unverified item if no attempt holds.
  ghost predicate FileIs(attempts: seq<Attempt>, changed: bool, f: Option<Facts>) {
    && (f.None? <==> exists k: nat :: Breaks(attempts, k))
    && (f.Some? ==> f.value.link == None && (f.value.content.Some? <==> exists k: nat :: Held(attempts, k)))
    && (f.Some? && f.value.content.None? ==>
          && f.value.outcome == Unverified && f.value.mode == None
          && (f.value.changed <==> changed || Retried(attempts, |attempts|)))
    && forall k: nat | Held(attempts, k) ::
         f == Some(Facts(if changed || Retried(attempts, k) then Changed else CaptureOutcome.Included,
                         Some(Concat(attempts[k].blocks)), attempts[k].before.mode, None,
                         changed || Retried(attempts, k)))
  }

  lemma {:induction false} FileFactsAre(attempts: seq<Attempt>, changed: bool)
    ensures FileIs(attempts, changed, FileFacts(attempts, changed))
    decreases |attempts|
  {
    if attempts != [] {
      if Passed(attempts, 1) {
        var more := changed || attempts[0].Streamed?;
        FileFactsAre(attempts[1..], more);
        assert FileFacts(attempts, changed) == FileFacts(attempts[1..], more);
        LaterDecides(attempts, changed, FileFacts(attempts, changed));
      } else {
        FirstDecides(attempts, changed);
      }
    }
  }

  lemma {:induction false} LaterDecides(attempts: seq<Attempt>, changed: bool, f: Option<Facts>)
    requires attempts != [] && Passed(attempts, 1) && FileIs(attempts[1..], changed || attempts[0].Streamed?, f)
    ensures FileIs(attempts, changed, f)
  {
    var rest := attempts[1..];
    Shifted(attempts, |rest|);
    forall k: nat | Held(attempts, k) ensures k > 0 && Held(rest, k - 1) && rest[k - 1] == attempts[k] {
      if k > 0 { Shifted(attempts, k - 1); }
    }
    forall k: nat | Breaks(attempts, k) ensures k > 0 && Breaks(rest, k - 1) {
      if k > 0 { Shifted(attempts, k - 1); }
    }
    forall k: nat | Held(rest, k) ensures Held(attempts, k + 1) { Shifted(attempts, k); }
    forall k: nat | Breaks(rest, k) ensures Breaks(attempts, k + 1) { Shifted(attempts, k); }
    forall k: nat | Held(attempts, k)
      ensures Retried(attempts, k) <==> attempts[0].Streamed? || Retried(rest, k - 1)
    {
      Shifted(attempts, k - 1);
    }
  }

  lemma {:induction false} FirstDecides(attempts: seq<Attempt>, changed: bool)
    requires attempts != [] && !Passed(attempts, 1)
    ensures FileIs(attempts, changed, FileFacts(attempts, changed))
  {
    assert attempts[0].Streamed?;
    assert attempts[0].broken ==> Breaks(attempts, 0);
    assert !attempts[0].broken ==> Held(attempts, 0);
    assert forall k: nat | Held(attempts, k) :: k == 0;
    assert forall k: nat | Breaks(attempts, k) :: k == 0;
  }

  // The reads of a link agree for the first time at `k`, and none failed until then.
  ghost predicate Agrees(links: seq<LinkReads>, k: nat) {
    && k < |links| && links[k].before == links[k].after && links[k].before.Some?
    && forall i | 0 <= i < k :: links[i].before.Some? && links[i].after.Some? && links[i].before != links[i].after
  }

  lemma {:induction false} LinkTargetIs(links: seq<LinkReads>)
    ensures LinkTarget(links).Some? <==> exists k: nat :: Agrees(links, k)
    ensures forall k: nat | Agrees(links, k) :: LinkTarget(links) == links[k].before
    decreases |links|
  {
    if links != [] {
      var rest := links[1..];
      LinkTargetIs(rest);
      if links[0].before.Some? && links[0].after.Some? && links[0].before != links[0].after {
        forall k: nat | Agrees(links, k) ensures k > 0 && Agrees(rest, k - 1) && rest[k - 1] == links[k] {
          assert forall i | 0 <= i < k - 1 :: rest[i] == links[i + 1];
        }
        forall k: nat | Agrees(rest, k) ensures Agrees(links, k + 1) {
          assert forall i | 1 <= i < k + 1 :: links[i] == rest[i - 1];
        }
      } else {
        assert forall k: nat | Agrees(links, k) :: k == 0;
        assert links[0].before.Some? && links[0].after.Some? ==> Agrees(links, 0);
      }
    }
  }

  // Nothing was captured of an item that should have been.
  ghost predicate NothingHeld(item: PlanItem, src: ItemSource) {
    || (item.kind == SymbolicLink && forall k: nat :: !Agrees(src.links, k))
    || (item.kind == RegularFile && forall k: nat :: !Held(src.attempts, k))
  }

  // What a recorded item must say, by its disposition and kind and what the source showed.
  ghost predicate IsRecorded(item: PlanItem, src: ItemSource, m: ManifestItem, content: Option<Bytes>) {
    var included := item.kind != Special && item.disposition == Disposition.Included;
    && m.id == item.id && m.relativePath == item.relativePath && m.kind == item.kind
    && m.estimatedSize == item.estimatedSize
    && (m.outcome == CaptureOutcome.Excluded <==> item.kind != Special && item.disposition == Disposition.Excluded)
    && (m.outcome == CaptureOutcome.Unsupported <==>
          item.kind == Special || item.disposition == Disposition.Unsupported || (included && item.kind == Unknown))
    && (m.outcome == Unverified <==>
          item.kind != Special && (|| item.disposition == RequiresReview || item.disposition == Unavailable
                                   || (included && NothingHeld(item, src))))
    && (m.outcome == Changed <==>
          included && item.kind == RegularFile && exists k: nat :: Held(src.attempts, k) && Retried(src.attempts, k))
    && (m.mode.Some? ==> included && (item.kind == Directory || item.kind == RegularFile))
    && (included && item.kind == Directory ==> m.mode == src.directoryMode)
    && (m.symlinkTarget.Some? <==> included && item.kind == SymbolicLink && exists k: nat :: Agrees(src.links, k))
    && (included && item.kind == SymbolicLink ==>
          forall k: nat | Agrees(src.links, k) :: m.symlinkTarget == src.links[k].before)
    && (content.Some? <==> included && item.kind == RegularFile && exists k: nat :: Held(src.attempts, k))
    && (included && item.kind == RegularFile ==>
          forall k: nat | Held(src.attempts, k) ::
            content == Some(Concat(src.attempts[k].blocks)) && m.mode == src.attempts[k].before.mode)
    && m.contentHash == (if content.None? then None else Some(Hash(content.value)))
  }

  // A pack stops at an item exactly when it is a selected file and a read of it breaks.
  lemma {:induction false} StopsAtBrokenRead(item: PlanItem, src: ItemSource)
    ensures FactsOf(item, src).None? <==> IsSelectedFile(item) && exists k: nat :: Breaks(src.attempts, k)
  {
    FileFactsAre(src.attempts, false);
  }

  lemma {:induction false} FactsAreRecorded(item: PlanItem, src: ItemSource, f: Facts, m: ManifestItem)
    requires FactsOf(item, src) == Some(f) && m.id == item.id && m.relativePath == item.relativePath
    requires m.kind == item.kind && m.estimatedSize == item.estimatedSize && m.outcome == f.outcome
    requires m.mode == f.mode && m.symlinkTarget == f.link
    requires m.contentHash == if f.content.None? then None else Some(Hash(f.content.value))
    ensures IsRecorded(item, src, m, f.content)
  {
    if IsSelectedFile(item) {
      FileFactsAre(src.attempts, false);
    } else {
      LinkTargetIs(src.links);
    }
  }

  // ---- Counting ----

  function OutcomeCount(facts: seq<Facts>, outcome: CaptureOutcome): nat {
    if facts == [] then 0
    else OutcomeCount(facts[..|facts| - 1], outcome) + (if facts[|facts| - 1].outcome == outcome then 1 else 0)
  }

  // Selected files without an attempt that holds, and those of them that were read at all.
  function LostFiles(plan: seq<PlanItem>, facts: seq<Facts>, readOnly: bool): nat
    requires |plan| <= |facts|
  {
    if plan == [] then 0
    else
      var n := |plan| - 1;
      LostFiles(plan[..n], facts[..n], readOnly)
      + (if IsSelectedFile(plan[n]) && facts[n].content.None? && (facts[n].changed || !readOnly) then 1 else 0)
  }

  // Each counter counts an outcome. Selected files that were lost count as included too, and those
  // that were read at all as changed.
  lemma {:induction false} CountersCount(plan: seq<PlanItem>, sources: seq<ItemSource>, facts: seq<Facts>)
    requires AreFacts(plan, sources, facts)
    ensures var c := Tally(plan, facts);
      && c.unsupported == OutcomeCount(facts, CaptureOutcome.Unsupported)
      && c.unverified == OutcomeCount(facts, Unverified)
      && c.included == OutcomeCount(facts, CaptureOutcome.Included) + OutcomeCount(facts, Changed)
                       + LostFiles(plan, facts, false)
      && c.changed == OutcomeCount(facts, Changed) + LostFiles(plan, facts, true)
    decreases |plan|
  {
    if plan != [] {
      var n := |plan| - 1;
      CountersCount(plan[..n], sources[..n], facts[..n]);
      FileOutcome(sources[n].attempts, false);
    }
  }

  // The counters exceed the number of items by the selected files left unverified, which are
  // counted as included too; they partition the items exactly when there is none.
  lemma {:induction false} CountersAgainstItems(plan: seq<PlanItem>, sources: seq<ItemSource>, facts: seq<Facts>)
    requires AreFacts(plan, sources, facts)
    ensures var c := Tally(plan, facts);
      && c.included + c.unsupported + c.unverified + ExcludedCount(plan, facts) == |plan| + UnverifiedFiles(plan, facts)
      && c.changed <= c.included
    decreases |plan|
  {
    if plan != [] {
      var n := |plan| - 1;
      CountersAgainstItems(plan[..n], sources[..n], facts[..n]);
      FileOutcome(sources[n].attempts, false);
    }
  }

  // How the reads split the content does not matter.
  lemma {:induction false} ChunkingDoesNotMatter(a: Attempt, b: Attempt, rest: seq<Attempt>, changed: bool)
    requires a.Streamed? && b.Streamed? && b == a.(blocks := b.blocks) && Concat(a.blocks) == Concat(b.blocks)
    ensures FileFacts([a] + rest, changed) == FileFacts([b] + rest, changed)
  {
    assert ([a] + rest)[1..] == rest && ([b] + rest)[1..] == rest;
  }
}
