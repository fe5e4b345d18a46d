// Resuming a paused pack: its checkpoint is authenticated, its records are sealed again under fresh
// keys, and the pack goes on, any number of times.
module BundleResume {
  import opened Outcomes
  import opened Cells
  import opened Records
  import opened PublicHeader
  import opened BundleReader
  import opened CapturedItems
  import opened PackSource
  import opened BundleWriter
  import opened BundlePack
  import opened PackCheckpoints
  import opened BundleRekey

  method StartRun(input: Run, h: Header) returns (ok: bool, run: PackRun)
    requires FitsHeader(h)
    ensures fresh(run) && fresh(run.writer) && fresh(run.media) && run.media.granted == input.power
    ensures Belongs(run, h) && run.media.used == [] && (!ok ==> run.media.Ended())
    ensures ok ==> run.Open() && run.sequence == 0 && run.writer.file == run.header && run.writer.recordCount == 0
  {
    var header := EncodeHeader(h);
    var session := SessionOf(header, Opened(h.dataKey, h.identifier, h.salt, h.noncePrefix));
    var media := new Media(input.power);
    var writer := new StreamWriter(media, session);
    ok := writer.WriteHashed(header);
    run := new PackRun(media, session, header, writer);
    assert ok ==> writer.file == header;
  }

  // A saved pack that cannot be resumed is refused before anything is written; otherwise the run
  // fails only for a reason of its own.
  method PackResumed(plan: Plan, input: Run, h: Header, file: Bytes, saved: SealedCheckpoint, offline: RecoverySecret,
                     vaultwarden: RecoverySecret, ghost facts: seq<Facts>, ghost before: Header)
    returns (state: PackState, media: Media)
    requires Fits(plan, input) && Shows(input, plan, facts)
    requires FitsHeader(h) && PausedAs(plan, facts, before, file, saved)
    ensures fresh(media) && media.granted == input.power && Increasing(media.used)
    ensures EndsWell(state, plan, facts, h, |saved.checkpoint.items|)
    ensures if Resumable(plan, before, saved, offline, vaultwarden, input.now)
            then EndsFor(state, SpentOn(media), plan, input, |saved.checkpoint.items|)
            else state.Failed? && SpentOn(media) == Spent(input.power, 0, [])
  {
    var o := AuthenticateCheckpoint(plan, file, saved, offline, vaultwarden, input.now);
    state := Failed;
    media := new Media(input.power);
    ResumableIsAuthentic(plan, facts, before, file, saved, offline, vaultwarden, input.now);
    if o.None? {
      return;
    }
    ghost var groups :| SavedWith(plan, facts, before, file, saved.checkpoint, groups);
    SavedMaterial(before, file, offline);
    state, media := ResumeSaved(plan, input, h, file, saved, SessionOf(file[..HEADER_LENGTH], o.value), facts, before,
                                groups);
  }

  method ResumeSaved(plan: Plan, input: Run, h: Header, file: Bytes, saved: SealedCheckpoint, session: Session,
                     ghost facts: seq<Facts>, ghost before: Header, ghost groups: Groups)
    returns (state: PackState, media: Media)
    requires Fits(plan, input) && Shows(input, plan, facts) && FitsHeader(h) && FitsHeader(before)
    requires session == SessionFor(before) && IndexFits(saved.checkpoint.index)
    requires SavedWith(plan, facts, before, file, saved.checkpoint, groups)
    ensures fresh(media) && media.granted == input.power && Increasing(media.used)
    ensures EndsWell(state, plan, facts, h, |saved.checkpoint.items|)
    ensures EndsFor(state, SpentOn(media), plan, input, |saved.checkpoint.items|)
  {
    var ok, run := StartRun(input, h);
    if ok {
      NothingRekeyed(run, Chunks(groups));
      ok := RekeyPrefix(run, session, file, saved.checkpoint, plan, facts, before, groups);
    }
    state := Failed;
    if ok {
      state := FinishRun(run, plan, input, facts, h, |saved.checkpoint.items|);
    }
    media := run.media;
  }

  // ---- Any number of pauses ----

  // What stands beside the destination between two runs: nothing, a saved pair, a saved pair and a
  // newer one that has not taken its place, or the Bundle.
  datatype Standing =
    | Nothing
    | OneSaved(file: Bytes, checkpoint: SealedCheckpoint)
    | Both(file: Bytes, checkpoint: SealedCheckpoint, newer: Bytes, advanced: SealedCheckpoint)
    | Published(bundle: Bytes)

  // What a run sees of the source when it authenticates the two pairs that an earlier run left, and
  // when it authenticates the pair that it has written itself.
  datatype Looks = Looks(saved: seq<Option<Observation>>, advanced: seq<Option<Observation>>,
                         own: seq<Option<Observation>>)

  predicate Looked(looks: Looks, plan: Plan) {
    |looks.saved| == |looks.advanced| == |looks.own| == |plan.items|
  }

  ghost predicate CanRun(plan: Plan, input: Run, looks: Looks, h: Header, facts: seq<Facts>) {
    Fits(plan, input) && Shows(input, plan, facts) && FitsHeader(h) && Looked(looks, plan)
  }

  // `h` is the header of the run that left the newest file, `older` that of the pair it replaces.
  ghost predicate Stands(s: Standing, pauses: nat, plan: Plan, facts: seq<Facts>, h: Header, older: Header) {
    match s
    case Nothing => pauses == 0 && FitsHeader(h)
    case OneSaved(file, saved) =>
      PausedAs(plan, facts, h, file, saved) && pauses <= |saved.checkpoint.items| <= |plan.items|
    case Both(file, saved, newer, advanced) =>
      && PausedAs(plan, facts, older, file, saved) && PausedAs(plan, facts, h, newer, advanced)
      && |saved.checkpoint.items| < |advanced.checkpoint.items| <= |plan.items| && pauses <= |advanced.checkpoint.items|
    case Published(bundle) => pauses <= |plan.items| && CompletedAs(plan, facts, h, bundle)
  }

  // The items whose capture is not lost.
  function Kept(s: Standing, plan: Plan): nat {
    match s
    case Nothing => 0
    case OneSaved(_, saved) => |saved.checkpoint.items|
    case Both(_, _, _, advanced) => |advanced.checkpoint.items|
    case Published(_) => |plan.items|
  }

  lemma OneMoreRun(s: Standing, pauses: nat, plan: Plan, facts: seq<Facts>, before: Header, older: Header,
                   next: PackState, h: Header)
    requires Stands(s, pauses, plan, facts, before, older) && (s.Nothing? || s.OneSaved?)
    requires EndsWell(next, plan, facts, h, Kept(s, plan))
    ensures next.Complete? ==> Stands(Published(next.bundle), pauses, plan, facts, h, before)
    ensures next.Paused? ==> Stands(OneSaved(next.file, next.checkpoint), pauses + 1, plan, facts, h, before)
    ensures next.Paused? && s.OneSaved? ==>
              Stands(Both(s.file, s.checkpoint, next.file, next.checkpoint), pauses + 1, plan, facts, h, before)
  {
    if next.Paused? {
      SavedWithinPlan(plan, facts, h, next.file, next.checkpoint);
    }
  }

  // Why a run has not completed the Bundle: it was cancelled after the last item captured, one of
  // its own; it failed for a reason of its own; or what stands beside the destination cannot be
  // resumed or promoted. `kept` items had been captured before it.
  ghost predicate StopsFor(s: Standing, kept: nat, spent: Spent, plan: Plan, input: Run, looks: Looks, h: Header,
                           older: Header, offline: RecoverySecret, vaultwarden: RecoverySecret)
  {
    || (kept < Kept(s, plan) && CancelledAfter(input.cancelled, Kept(s, plan))) || MayFail(spent, plan, input)
    || (s.OneSaved? && FitsHeader(h) && |input.now| == |plan.items|
        && !Resumable(plan, h, s.checkpoint, offline, vaultwarden, input.now))
    || (s.Both? && FitsHeader(h) && FitsHeader(older) && Looked(looks, plan)
        && !(&& Resumable(plan, older, s.checkpoint, offline, vaultwarden, looks.saved)
             && Resumable(plan, h, s.advanced, offline, vaultwarden, looks.advanced)))
  }

  method Accepts(plan: Plan, file: Bytes, saved: SealedCheckpoint, offline: RecoverySecret, vaultwarden: RecoverySecret,
                 now: seq<Option<Observation>>, ghost facts: seq<Facts>, ghost h: Header)
    returns (ok: bool)
    requires |now| == |plan.items| && PausedAs(plan, facts, h, file, saved)
    ensures ok <==> Resumable(plan, h, saved, offline, vaultwarden, now)
  {
    var o := AuthenticateCheckpoint(plan, file, saved, offline, vaultwarden, now);
    ResumableIsAuthentic(plan, facts, h, file, saved, offline, vaultwarden, now);
    ok := o.Some?;
  }

  // A newer pair takes the place of the saved one only if both are authentic.
  method PromoteNewer(plan: Plan, s: Standing, looks: Looks, offline: RecoverySecret, vaultwarden: RecoverySecret,
                      ghost pauses: nat, ghost facts: seq<Facts>, ghost h: Header, ghost older: Header)
    returns (after: Standing)
    requires Looked(looks, plan) && s.Both? && Stands(s, pauses, plan, facts, h, older)
    ensures Stands(after, pauses, plan, facts, h, older) && Kept(after, plan) == Kept(s, plan)
    ensures if && Resumable(plan, older, s.checkpoint, offline, vaultwarden, looks.saved)
               && Resumable(plan, h, s.advanced, offline, vaultwarden, looks.advanced)
            then after == OneSaved(s.newer, s.advanced) else after == s
  {
    after := s;
    var saved := Accepts(plan, s.file, s.checkpoint, offline, vaultwarden, looks.saved, facts, older);
    if saved {
      var advanced := Accepts(plan, s.newer, s.advanced, offline, vaultwarden, looks.advanced, facts, h);
      if advanced {
        after := OneSaved(s.newer, s.advanced);
      }
    }
  }

  method PackFirst(plan: Plan, input: Run, h: Header, ghost looks: Looks, ghost offline: RecoverySecret,
                   ghost vaultwarden: RecoverySecret, ghost facts: seq<Facts>, ghost before: Header,
                   ghost older: Header)
    returns (after: Standing, total: nat, ghost owner: Header, media: Media)
    requires CanRun(plan, input, looks, h, facts) && FitsHeader(before)
    ensures Stands(after, total, plan, facts, owner, older) && (owner == h || owner == before)
    ensures fresh(media) && media.granted == input.power
    ensures !after.Published? ==>
              StopsFor(after, 0, SpentOn(media), plan, input, looks, owner, older, offline, vaultwarden)
  {
    var next;
    next, media := PackFresh(plan, input, h, facts);
    OneMoreRun(Nothing, 0, plan, facts, before, before, next, h);
    match next {
      case Failed => after, total, owner := Nothing, 0, before;
      case Complete(bundle) => after, total, owner := Published(bundle), 0, h;
      case Paused(file, saved) => after, total, owner := OneSaved(file, saved), 1, h;
    }
  }

  // The saved pair is resumed. A run that pauses authenticates its own pair before that takes the
  // saved one's place; otherwise both are kept.
  method PackAgain(plan: Plan, input: Run, looks: Looks, h: Header, s: Standing, pauses: nat, offline: RecoverySecret,
                   vaultwarden: RecoverySecret, ghost facts: seq<Facts>, ghost before: Header, ghost older: Header)
    returns (after: Standing, total: nat, ghost owner: Header, ghost replaced: Header, media: Media)
    requires CanRun(plan, input, looks, h, facts)
    requires s.OneSaved? && Stands(s, pauses, plan, facts, before, older)
    ensures Stands(after, total, plan, facts, owner, replaced) && Kept(s, plan) <= Kept(after, plan)
    ensures owner == h || owner == before
    ensures after.OneSaved? ==> after == s || Resumable(plan, owner, after.checkpoint, offline, vaultwarden, looks.own)
    ensures after.Both? ==> after.file == s.file && after.checkpoint == s.checkpoint
    ensures after.Both? ==> !Resumable(plan, owner, after.advanced, offline, vaultwarden, looks.own)
    ensures fresh(media) && media.granted == input.power
    ensures !after.Published? ==>
              StopsFor(after, Kept(s, plan), SpentOn(media), plan, input, looks, owner, replaced, offline, vaultwarden)
  {
    var next;
    next, media := PackResumed(plan, input, h, s.file, s.checkpoint, offline, vaultwarden, facts, before);
    OneMoreRun(s, pauses, plan, facts, before, older, next, h);
    match next {
      case Failed => after, total, owner, replaced := s, pauses, before, older;
      case Complete(bundle) => after, total, owner, replaced := Published(bundle), pauses, h, before;
      case Paused(file, saved) =>
        total, owner, replaced := pauses + 1, h, before;
        var own := Accepts(plan, file, saved, offline, vaultwarden, looks.own, facts, h);
        after := if own then OneSaved(file, saved) else Both(s.file, s.checkpoint, file, saved);
    }
  }

  // One run: a first one, or the promotion of what an earlier one left and then a resume.
  method PackNext(plan: Plan, input: Run, looks: Looks, h: Header, s: Standing, pauses: nat, offline: RecoverySecret,
                  vaultwarden: RecoverySecret, ghost facts: seq<Facts>, ghost before: Header, ghost older: Header)
    returns (after: Standing, total: nat, ghost owner: Header, ghost replaced: Header, media: Media)
    requires CanRun(plan, input, looks, h, facts)
    requires !s.Published? && Stands(s, pauses, plan, facts, before, older)
    ensures Stands(after, total, plan, facts, owner, replaced) && Kept(s, plan) <= Kept(after, plan)
    ensures owner == h || owner == before
    ensures fresh(media) && media.granted == input.power
    ensures !after.Published? ==>
              StopsFor(after, Kept(s, plan), SpentOn(media), plan, input, looks, owner, replaced, offline, vaultwarden)
  {
    after, total, owner, replaced := s, pauses, before, older;
    media := new Media(input.power);
    if s.Nothing? {
      after, total, owner, media := PackFirst(plan, input, h, looks, offline, vaultwarden, facts, before, older);
      return;
    }
    if s.Both? {
      after := PromoteNewer(plan, s, looks, offline, vaultwarden, pauses, facts, before, older);
    }
    if after.OneSaved? {
      after, total, owner, replaced, media :=
        PackAgain(plan, input, looks, h, after, pauses, offline, vaultwarden, facts, before, older);
    }
  }

  // Packs until the Bundle is complete or there are no more runs.
  method PackUntilDone(plan: Plan, inputs: seq<Run>, looks: seq<Looks>, headers: seq<Header>, offline: RecoverySecret,
                       vaultwarden: RecoverySecret, ghost facts: seq<Facts>)
    returns (s: Standing, pauses: nat, ghost owner: Header, ghost replaced: Header, media: Media, ghost kept: nat)
    requires 0 < |inputs| == |headers| == |looks|
    requires forall k | 0 <= k < |inputs| :: CanRun(plan, inputs[k], looks[k], headers[k], facts)
    ensures Stands(s, pauses, plan, facts, owner, replaced) && owner in headers && pauses <= |plan.items|
    ensures !s.Published? ==> var last := |inputs| - 1;
      && media.granted == inputs[last].power
      && StopsFor(s, kept, SpentOn(media), plan, inputs[last], looks[last], owner, replaced, offline, vaultwarden)
  {
    s, pauses, owner, replaced, kept := Nothing, 0, headers[0], headers[0], 0;
    media := new Media(inputs[0].power);
    var k := 0;
    while k < |inputs| && !s.Published?
      invariant k <= |inputs| && Stands(s, pauses, plan, facts, owner, replaced) && owner in headers
      invariant k > 0 && !s.Published? ==> media.granted == inputs[k - 1].power
      invariant k > 0 && !s.Published? ==>
                  StopsFor(s, kept, SpentOn(media), plan, inputs[k - 1], looks[k - 1], owner, replaced, offline,
                           vaultwarden)
      decreases |inputs| - k
    {
      kept := Kept(s, plan);
      s, pauses, owner, replaced, media :=
        PackNext(plan, inputs[k], looks[k], headers[k], s, pauses, offline, vaultwarden, facts, owner, replaced);
      k := k + 1;
    }
  }
}
