// Authenticating the checkpoint of a paused pack against the Plan, the partial file and the source,
// and exactly when a checkpoint that a run wrote still passes.
module PackCheckpoints {
  import opened Outcomes
  import opened Cells
  import opened Records
  import opened PublicHeader
  import opened BundleReader
  import opened BundleContents
  import opened CapturedItems
  import opened PackSource
  import opened BundlePack

  // ---- Authenticating a checkpoint ----

  predicate SameItem(captured: ManifestItem, planned: PlanItem) {
    captured.id == planned.id && captured.relativePath == planned.relativePath && captured.kind == planned.kind
  }

  // Every selected file was seen when the pack paused and is seen the same now.
  ghost predicate SourceUnchanged(plan: seq<PlanItem>, observations: map<nat, Option<Observation>>,
                                  now: seq<Option<Observation>>)
    requires |plan| == |now|
  {
    forall i: nat | i < |plan| && IsSelectedFile(plan[i]) ::
      i in observations && observations[i].Some? && now[i] == observations[i]
  }

  ghost predicate Authentic(plan: Plan, header: Bytes, o: Opened, file: Bytes, saved: SealedCheckpoint,
                            now: seq<Option<Observation>>)
    requires |plan.items| == |now|
  {
    var c := saved.checkpoint;
    && saved.key == CheckpointKey(SessionOf(header, o)) && saved.headerHash == Hash(header)
    && c.planHash == plan.hash && c.partialLength == |file| && c.partialHash == Hash(file)
    && c.capturedItems == |c.items| <= |plan.items| && IndexFits(c.index)
    && (forall i | 0 <= i < |c.items| :: SameItem(c.items[i], plan.items[i]))
    && SourceUnchanged(plan.items, c.observations, now)
  }

  method CheckItems(items: seq<ManifestItem>, plan: seq<PlanItem>) returns (ok: bool)
    requires |items| <= |plan|
    ensures ok <==> forall i | 0 <= i < |items| :: SameItem(items[i], plan[i])
  {
    var i := 0;
    while i < |items|
      invariant i <= |items| && forall j | 0 <= j < i :: SameItem(items[j], plan[j])
    {
      if !SameItem(items[i], plan[i]) {
        return false;
      }
      i := i + 1;
    }
    ok := true;
  }

  method CheckSource(plan: seq<PlanItem>, observations: map<nat, Option<Observation>>, now: seq<Option<Observation>>)
    returns (ok: bool)
    requires |plan| == |now|
    ensures ok <==> SourceUnchanged(plan, observations, now)
  {
    var i := 0;
    while i < |plan|
      invariant i <= |plan|
      invariant forall j: nat | j < i && IsSelectedFile(plan[j]) ::
        j in observations && observations[j].Some? && now[j] == observations[j]
    {
      if IsSelectedFile(plan[i]) && (i !in observations || observations[i].None? || now[i] != observations[i]) {
        return false;
      }
      i := i + 1;
    }
    ok := true;
  }

  method AuthenticateCheckpoint(plan: Plan, file: Bytes, saved: SealedCheckpoint, offline: RecoverySecret,
                                vaultwarden: RecoverySecret, now: seq<Option<Observation>>)
    returns (r: Option<Opened>)
    requires |plan.items| == |now|
    ensures r.Some? <==> && |file| >= HEADER_LENGTH
                         && DecodeHeader(file[..HEADER_LENGTH], offline).Ok?
                         && DecodeHeader(file[..HEADER_LENGTH], vaultwarden)
                            == DecodeHeader(file[..HEADER_LENGTH], offline)
                         && Authentic(plan, file[..HEADER_LENGTH], DecodeHeader(file[..HEADER_LENGTH], offline).value,
                                      file, saved, now)
    ensures r.Some? ==> DecodeHeader(file[..HEADER_LENGTH], offline) == Ok(r.value)
  {
    r := None;
    if |file| < HEADER_LENGTH {
      return;
    }
    var header := file[..HEADER_LENGTH];
    var first := ParseHeader(header, offline);
    var second := ParseHeader(header, vaultwarden);
    if first.Err? || second.Err? || first.value.dataKey != second.value.dataKey {
      return;
    }
    SameHeaderSameMaterial(header, offline, vaultwarden);
    var c := saved.checkpoint;
    if saved.key != CheckpointKey(SessionOf(header, first.value)) || saved.headerHash != Hash(header) {
      return;
    }
    if c.planHash != plan.hash || c.partialLength != |file| || c.capturedItems != |c.items|
       || |c.items| > |plan.items| {
      return;
    }
    if c.partialHash != Hash(file) || !IndexFits(c.index) {
      return;
    }
    var items := CheckItems(c.items, plan.items);
    var source := CheckSource(plan.items, c.observations, now);
    if items && source {
      r := Some(first.value);
    }
  }

  lemma SameHeaderSameMaterial(header: Bytes, a: RecoverySecret, b: RecoverySecret)
    requires |header| == HEADER_LENGTH && DecodeHeader(header, a).Ok? && DecodeHeader(header, b).Ok?
    ensures DecodeHeader(header, a).value.(dataKey := []) == DecodeHeader(header, b).value.(dataKey := [])
  {
  }

  // ---- Checkpoints that a run wrote ----

  // A saved header opens only to its own material, whatever secret opens it.
  lemma SavedMaterial(h: Header, file: Bytes, secret: RecoverySecret)
    requires FitsHeader(h) && |file| >= HEADER_LENGTH && file[..HEADER_LENGTH] == EncodeHeader(h)
    requires DecodeHeader(file[..HEADER_LENGTH], secret).Ok?
    ensures SessionOf(file[..HEADER_LENGTH], DecodeHeader(file[..HEADER_LENGTH], secret).value) == SessionFor(h)
  {
    HeaderOpensWithEitherMethod(h, secret);
  }

  // A checkpoint that a run wrote is authentic exactly when its index is within the format's
  // limit and every selected file has been, and still is, seen as it was when it was written.
  lemma SavedCheckpointIsAuthentic(plan: Plan, facts: seq<Facts>, h: Header, file: Bytes, saved: SealedCheckpoint,
                                   now: seq<Option<Observation>>)
    requires PausedAs(plan, facts, h, file, saved) && |now| == |plan.items|
    ensures |file| >= HEADER_LENGTH && file[..HEADER_LENGTH] == EncodeHeader(h)
    ensures Authentic(plan, EncodeHeader(h), Opened(h.dataKey, h.identifier, h.salt, h.noncePrefix), file, saved, now)
       <==> IndexFits(saved.checkpoint.index) && SourceUnchanged(plan.items, saved.checkpoint.observations, now)
  {
    var c := saved.checkpoint;
    var groups :| SavedWith(plan, facts, h, file, c, groups);
    assert file == PartialFile(SessionFor(h), EncodeHeader(h), Chunks(groups));
    forall i | 0 <= i < |c.items| ensures SameItem(c.items[i], plan.items[i]) {
      assert c.items[i] == ManifestItemFor(plan.items[i], facts[i], groups[i]);
    }
  }

  // A checkpoint that a run wrote is authentic only for its own Plan, its own partial file, byte for
  // byte, and under its own header.
  lemma OnlyItsOwnCheckpoint(plan: Plan, facts: seq<Facts>, h: Header, file: Bytes, saved: SealedCheckpoint,
                             other: Plan, header: Bytes, o: Opened, found: Bytes, now: seq<Option<Observation>>)
    requires PausedAs(plan, facts, h, file, saved) && |now| == |other.items|
    requires Authentic(other, header, o, found, saved, now)
    ensures other.hash == plan.hash && found == file && header == EncodeHeader(h)
    ensures saved.checkpoint.capturedItems <= |other.items|
    ensures var seen := saved.checkpoint.observations;
      forall i: nat | i < |other.items| && IsSelectedFile(other.items[i]) ::
        i in seen && seen[i].Some? && now[i].Some? && now[i].value == seen[i].value
    ensures forall i | 0 <= i < saved.checkpoint.capturedItems ::
              && other.items[i].id == plan.items[i].id && other.items[i].relativePath == plan.items[i].relativePath
              && other.items[i].kind == plan.items[i].kind
  {
    var c := saved.checkpoint;
    var groups :| SavedWith(plan, facts, h, file, c, groups);
    HashIsInjective(file, found);
    HashIsInjective(EncodeHeader(h), header);
    forall i | 0 <= i < c.capturedItems
      ensures && other.items[i].id == plan.items[i].id && other.items[i].relativePath == plan.items[i].relativePath
              && other.items[i].kind == plan.items[i].kind
    {
      assert c.items[i] == ManifestItemFor(plan.items[i], facts[i], groups[i]) && SameItem(c.items[i], other.items[i]);
    }
  }

  // Nothing is authentic that was sealed under another key.
  lemma OtherKeyRefused(plan: Plan, header: Bytes, o: Opened, file: Bytes, saved: SealedCheckpoint,
                        now: seq<Option<Observation>>)
    requires |now| == |plan.items| && saved.key != CheckpointKey(SessionOf(header, o))
    ensures !Authentic(plan, header, o, file, saved, now)
  {
  }

  // A selected file left unverified rules out every later resume.
  lemma UnverifiedFileBlocksResume(plan: Plan, facts: seq<Facts>, h: Header, header: Bytes, o: Opened, file: Bytes,
                                   saved: SealedCheckpoint, now: seq<Option<Observation>>, i: nat)
    requires PausedAs(plan, facts, h, file, saved) && |now| == |plan.items|
    requires i < |saved.checkpoint.items| && IsSelectedFile(plan.items[i]) && facts[i].content.None?
    ensures !Authentic(plan, header, o, file, saved, now)
  {
    var groups :| SavedWith(plan, facts, h, file, saved.checkpoint, groups);
    assert Watched(saved.checkpoint.observations, plan.items, facts, |saved.checkpoint.items|);
  }

  // Both secrets open the saved header, the index is within the format's limit, and every
  // selected file was and is seen as it was.
  ghost predicate Resumable(plan: Plan, h: Header, saved: SealedCheckpoint, offline: RecoverySecret,
                            vaultwarden: RecoverySecret, now: seq<Option<Observation>>)
    requires FitsHeader(h) && |now| == |plan.items|
  {
    && DecodeHeader(EncodeHeader(h), offline).Ok? && DecodeHeader(EncodeHeader(h), vaultwarden).Ok?
    && IndexFits(saved.checkpoint.index) && SourceUnchanged(plan.items, saved.checkpoint.observations, now)
  }

  lemma ResumableIsAuthentic(plan: Plan, facts: seq<Facts>, h: Header, file: Bytes, saved: SealedCheckpoint,
                             offline: RecoverySecret, vaultwarden: RecoverySecret, now: seq<Option<Observation>>)
    requires PausedAs(plan, facts, h, file, saved) && |now| == |plan.items|
    ensures |file| >= HEADER_LENGTH && file[..HEADER_LENGTH] == EncodeHeader(h)
    ensures Resumable(plan, h, saved, offline, vaultwarden, now)
       <==> && DecodeHeader(file[..HEADER_LENGTH], offline).Ok?
            && DecodeHeader(file[..HEADER_LENGTH], vaultwarden) == DecodeHeader(file[..HEADER_LENGTH], offline)
            && Authentic(plan, file[..HEADER_LENGTH], DecodeHeader(file[..HEADER_LENGTH], offline).value, file, saved,
                         now)
  {
    SavedCheckpointIsAuthentic(plan, facts, h, file, saved, now);
    HeaderOpensWithEitherMethod(h, offline);
    HeaderOpensWithEitherMethod(h, vaultwarden);
  }

  lemma SavedWithinPlan(plan: Plan, facts: seq<Facts>, h: Header, file: Bytes, saved: SealedCheckpoint)
    requires PausedAs(plan, facts, h, file, saved)
    ensures |saved.checkpoint.items| <= |plan.items|
  {
    var groups :| SavedWith(plan, facts, h, file, saved.checkpoint, groups);
  }
}
