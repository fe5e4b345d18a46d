// What a finished Bundle opens to: the planned items as their facts say and the captured bytes,
// however often the pack was paused. A paused pack opens to nothing.
module BundleViews {
  import opened Outcomes
  import opened Cells
  import opened Records
  import opened PublicHeader
  import opened BundleReader
  import opened BundleContents
  import opened CapturedItems
  import opened PackSource
  import opened BundlePack

  // ---- What the finished Bundle opens to ----

  function HashOf(content: Option<Bytes>): Option<Bytes> {
    if content.None? then None else Some(Hash(content.value))
  }

  // The manifest item that an item's facts call for; only its chunk numbering is left open.
  function ExpectedItem(item: PlanItem, f: Facts): ManifestItem {
    ManifestItem(item.id, item.relativePath, item.kind, item.estimatedSize, f.outcome, [], HashOf(f.content), f.mode,
                 f.link)
  }

  ghost predicate ManifestShows(m: Manifest, plan: Plan, facts: seq<Facts>)
    requires |plan.items| == |facts|
  {
    var c := Tally(plan.items, facts);
    && m.sourceName == plan.sourceName && m.planHash == plan.hash && |m.items| == |plan.items|
    && m.includedItems == c.included && m.changedItems == c.changed
    && m.unsupportedItems == c.unsupported && m.unverifiedItems == c.unverified
    && forall i | 0 <= i < |m.items| :: m.items[i].(chunkSequences := []) == ExpectedItem(plan.items[i], facts[i])
  }

  ghost predicate ContentsShow(contents: map<nat, Bytes>, facts: seq<Facts>) {
    && (forall i: nat :: i in contents <==> i < |facts| && facts[i].content.Some?)
    && (forall i: nat | i in contents :: contents[i] == facts[i].content.value)
  }

  // What the reader makes of a Bundle of the Plan: it accepts the Bundle exactly when the source
  // name has an acceptable length, and then shows every item as its facts say and, verified,
  // every item's captured content.
  ghost predicate ReadsAs(r: Result<OpenedBundle, FormatError>, plan: Plan, facts: seq<Facts>, verify: bool)
    requires |plan.items| == |facts|
  {
    && (r.Ok? <==> 1 <= |plan.sourceName| <= 4096)
    && (r.Ok? ==> ManifestShows(r.value.manifest, plan, facts) && (verify ==> ContentsShow(r.value.contents, facts)))
  }

  lemma {:induction false} ItemsShow(plan: Plan, facts: seq<Facts>, items: seq<ManifestItem>, groups: Groups)
    requires |plan.items| == |facts| == |items| && CapturedAs(plan.items, facts, items, groups)
    ensures ItemsHold(items, groups)
    ensures ManifestShows(ManifestOf(plan, ContentSize(groups), Tally(plan.items, facts), items), plan, facts)
  {
    forall i | 0 <= i < |items|
      ensures ItemHolds(items[i], groups[i]) && items[i].(chunkSequences := []) == ExpectedItem(plan.items[i], facts[i])
    {
      assert HoldsContent(facts[i], groups[i]) && items[i] == ManifestItemFor(plan.items[i], facts[i], groups[i]);
    }
  }

  lemma ContentsFromGroups(contents: map<nat, Bytes>, facts: seq<Facts>, groups: Groups)
    requires |facts| == |groups| && ContentsAre(contents, groups)
    requires forall i | 0 <= i < |facts| :: HoldsContent(facts[i], groups[i])
    ensures ContentsShow(contents, facts)
  {
    forall i: nat
      ensures i in contents <==> i < |facts| && facts[i].content.Some?
      ensures i in contents ==> contents[i] == facts[i].content.value
    {
      assert ContentIs(contents, groups, i);
    }
  }

  lemma ReadsFromGroups(r: Result<OpenedBundle, FormatError>, plan: Plan, facts: seq<Facts>, m: Manifest,
                        groups: Groups, verify: bool)
    requires |plan.items| == |facts| == |groups| && ManifestShows(m, plan, facts)
    requires forall i | 0 <= i < |facts| :: HoldsContent(facts[i], groups[i])
    requires (r.Ok? <==> 1 <= |plan.sourceName| <= 4096) && (r.Ok? ==> r.value.manifest == m)
    requires r.Ok? && verify ==> ContentsAre(r.value.contents, groups)
    ensures ReadsAs(r, plan, facts, verify)
  {
    if r.Ok? && verify {
      ContentsFromGroups(r.value.contents, facts, groups);
    }
  }

  // Writing then opening gives back the items and the captured bytes, with either secret.
  lemma CompletedBundleOpens(plan: Plan, facts: seq<Facts>, h: Header, bundle: Bytes, secret: RecoverySecret,
                             verify: bool)
    requires CompletedAs(plan, facts, h, bundle) && (secret == h.first.secret || secret == h.second.secret)
    ensures ReadsAs(Open(bundle, secret, verify), plan, facts, verify)
  {
    var groups: Groups, items: seq<ManifestItem>, size: nat, next: nat :|
      CompletedWith(plan, facts, h, bundle, groups, items, size, next);
    var m := ManifestOf(plan, ContentSize(groups), Tally(plan.items, facts), items);
    ItemsShow(plan, facts, items, groups);
    CapturedBundleOpens(h, secret, groups, m, size, next, verify, bundle);
    ReadsFromGroups(Open(bundle, secret, verify), plan, facts, m, groups, verify);
  }

  // What the Bundle records of an item whose source did not break while it was read: the outcome its
  // disposition and kind call for, the modes and targets that were seen, and the bytes of the first
  // attempt that held.
  lemma CompletedBundleRecords(plan: Plan, input: Run, facts: seq<Facts>, h: Header, bundle: Bytes,
                               secret: RecoverySecret, i: nat)
    requires CompletedAs(plan, facts, h, bundle) && (secret == h.first.secret || secret == h.second.secret)
    requires Shows(input, plan, facts) && i < |plan.items|
    requires IsSelectedFile(plan.items[i]) ==> forall k: nat :: !Breaks(input.sources[i].attempts, k)
    ensures var r := Open(bundle, secret, true);
      r.Ok? ==> && |r.value.manifest.items| == |plan.items|
                && IsRecorded(plan.items[i], input.sources[i], r.value.manifest.items[i],
                              if i in r.value.contents then Some(r.value.contents[i]) else None)
  {
    CompletedBundleOpens(plan, facts, h, bundle, secret, true);
    StopsAtBrokenRead(plan.items[i], input.sources[i]);
    var r := Open(bundle, secret, true);
    if r.Ok? {
      var m := r.value.manifest.items[i];
      assert m.(chunkSequences := []) == ExpectedItem(plan.items[i], facts[i]);
      assert m.outcome == m.(chunkSequences := []).outcome && m.mode == m.(chunkSequences := []).mode;
      FactsAreRecorded(plan.items[i], input.sources[i], facts[i], m);
    }
  }

  // Two opened Bundles show the same items, up to the chunks' numbers, and the same contents.
  ghost predicate SameView(a: Result<OpenedBundle, FormatError>, b: Result<OpenedBundle, FormatError>) {
    && (a.Ok? <==> b.Ok?)
    && (a.Ok? ==> && a.value.contents == b.value.contents && |a.value.manifest.items| == |b.value.manifest.items|
                  && forall i | 0 <= i < |a.value.manifest.items| ::
                       a.value.manifest.items[i].(chunkSequences := [])
                       == b.value.manifest.items[i].(chunkSequences := []))
  }

  lemma SameFactsSameView(a: Result<OpenedBundle, FormatError>, b: Result<OpenedBundle, FormatError>, plan: Plan,
                          facts: seq<Facts>)
    requires |plan.items| == |facts| && ReadsAs(a, plan, facts, true) && ReadsAs(b, plan, facts, true)
    ensures SameView(a, b)
  {
    if a.Ok? {
      var x, y := a.value.contents, b.value.contents;
      assert forall i | i in x :: i in y && x[i] == y[i];
      assert x == y;
    }
  }

  // Two Bundles of the same Plan that were packed according to the same facts, under any keys, with
  // any pauses and read sizes, open to the same view.
  lemma PausesLeaveNoTrace(plan: Plan, facts: seq<Facts>, h: Header, bundle: Bytes, secret: RecoverySecret, h': Header,
                           bundle': Bytes, secret': RecoverySecret)
    requires CompletedAs(plan, facts, h, bundle) && (secret == h.first.secret || secret == h.second.secret)
    requires CompletedAs(plan, facts, h', bundle') && (secret' == h'.first.secret || secret' == h'.second.secret)
    ensures SameView(Open(bundle, secret, true), Open(bundle', secret', true))
  {
    CompletedBundleOpens(plan, facts, h, bundle, secret, true);
    CompletedBundleOpens(plan, facts, h', bundle', secret', true);
    SameFactsSameView(Open(bundle, secret, true), Open(bundle', secret', true), plan, facts);
  }

  // A paused pack is never mistaken for a Bundle.
  lemma PausedPackIsIncomplete(plan: Plan, facts: seq<Facts>, h: Header, file: Bytes, saved: SealedCheckpoint,
                               secret: RecoverySecret, verify: bool)
    requires PausedAs(plan, facts, h, file, saved) && (secret == h.first.secret || secret == h.second.secret)
    ensures Open(file, secret, verify) == Err(if |file| == HEADER_LENGTH then Truncated else Incomplete)
  {
    var groups :| SavedWith(plan, facts, h, file, saved.checkpoint, groups);
    var chunks := Chunks(groups);
    CapturedSize(groups);
    HeaderOpensWithEitherMethod(h, secret);
    PausedFileIsIncomplete(SessionFor(h), EncodeHeader(h), chunks, secret, verify);
    assert |file| == HEADER_LENGTH + RecordsLength(chunks);
  }
}
