// Promotion under crashes: every reachable directory is one of nine layouts and recovery reads
// off which one. A recovery that sees the selected files as the checkpoints it still needs
// recorded them leads to the advanced pair; any other does nothing.
module PromotionRecovery {
  import opened Outcomes
  import opened PackPromotion

  // One promotion: the saved pair, the advanced pair, and what their checkpoints record.
  datatype Case = Case(plan: Plan, saved: Pair, advanced: Pair, savedRun: nat, advancedRun: nat,
                       savedItems: nat, advancedItems: nat, savedSeen: Observations, advancedSeen: Observations)

  function Saved(c: Case): Progress {
    Progress(c.saved, c.savedRun, c.savedItems)
  }

  function Advanced(c: Case): Progress {
    Progress(c.advanced, c.advancedRun, c.advancedItems)
  }

  ghost predicate Holds(c: Case, files: map<Inode, Content>) {
    && c.savedItems <= c.advancedItems
    && c.saved.partial in files && files[c.saved.partial] == PartialFile(c.savedRun)
    && c.saved.checkpoint in files
    && files[c.saved.checkpoint] == CheckpointFile(c.savedRun, c.plan.hash, c.savedItems, c.savedSeen)
    && c.advanced.partial in files && files[c.advanced.partial] == PartialFile(c.advancedRun)
    && c.advanced.checkpoint in files
    && files[c.advanced.checkpoint] == CheckpointFile(c.advancedRun, c.plan.hash, c.advancedItems, c.advancedSeen)
  }

  // The advanced pair is what its run wrote for the Plan.
  ghost predicate HoldsAdvanced(c: Case, files: map<Inode, Content>) {
    && c.advanced.partial in files && files[c.advanced.partial] == PartialFile(c.advancedRun)
    && c.advanced.checkpoint in files
    && files[c.advanced.checkpoint] == CheckpointFile(c.advancedRun, c.plan.hash, c.advancedItems, c.advancedSeen)
  }

  ghost predicate JournalOf(c: Case, files: map<Inode, Content>, j: Inode) {
    j in files && files[j] == JournalFile(c.advancedRun, c.plan.hash, c.saved, c.advanced)
  }

  // The directory after k of the eight operations.
  ghost function Layout(c: Case, j: Inode, k: nat): Directory
    requires k <= 8
  {
    var s, a := c.saved, c.advanced;
    match k
    case 0 => map[Partial := s.partial, Checkpoint := s.checkpoint, Resumed := a.partial,
                  ResumedCheckpoint := a.checkpoint]
    case 1 => map[Partial := s.partial, Checkpoint := s.checkpoint, Resumed := a.partial,
                  ResumedCheckpoint := a.checkpoint, Promotion := j]
    case 2 => map[Previous := s.partial, Checkpoint := s.checkpoint, Resumed := a.partial,
                  ResumedCheckpoint := a.checkpoint, Promotion := j]
    case 3 => map[Previous := s.partial, PreviousCheckpoint := s.checkpoint, Resumed := a.partial,
                  ResumedCheckpoint := a.checkpoint, Promotion := j]
    case 4 => map[Previous := s.partial, PreviousCheckpoint := s.checkpoint, Partial := a.partial,
                  ResumedCheckpoint := a.checkpoint, Promotion := j]
    case 5 => map[Previous := s.partial, PreviousCheckpoint := s.checkpoint, Partial := a.partial,
                  Checkpoint := a.checkpoint, Promotion := j]
    case 6 => map[PreviousCheckpoint := s.checkpoint, Partial := a.partial, Checkpoint := a.checkpoint, Promotion := j]
    case 7 => map[Partial := a.partial, Checkpoint := a.checkpoint, Promotion := j]
    case 8 => map[Partial := a.partial, Checkpoint := a.checkpoint]
  }

  lemma NextLayout(c: Case, j: Inode, k: nat)
    requires k < 8
    ensures Change(Steps(c.saved, c.advanced, j)[k], Layout(c, j, k)) == Some(Layout(c, j, k + 1))
  {
    var next := Change(Steps(c.saved, c.advanced, j)[k], Layout(c, j, k));
    assert next.Some?;
    assert next.value.Keys == Layout(c, j, k + 1).Keys;
    assert next.value == Layout(c, j, k + 1);
  }

  lemma {:induction false} LayoutAfter(c: Case, j: Inode, lo: nat, hi: nat)
    requires lo <= hi <= 8
    ensures Changes(Steps(c.saved, c.advanced, j)[lo..hi], Layout(c, j, lo)) == Some(Layout(c, j, hi))
    decreases hi - lo
  {
    var steps := Steps(c.saved, c.advanced, j);
    if lo < hi {
      NextLayout(c, j, lo);
      assert steps[lo..hi][0] == steps[lo];
      assert steps[lo..hi][1..] == steps[lo + 1..hi];
      LayoutAfter(c, j, lo + 1, hi);
    }
  }

  // `lo` operations are durable, `hi` have been done.
  ghost predicate Tracked(c: Case, d: Disk, j: Inode, lo: nat, hi: nat) {
    && lo <= hi <= 8
    && Holds(c, d.files)
    && d.durable == Layout(c, j, lo)
    && d.pending == Steps(c.saved, c.advanced, j)[lo..hi]
    && (hi > 0 ==> JournalOf(c, d.files, j))
  }

  ghost predicate OnTrack(c: Case, d: Disk) {
    exists j, lo, hi :: Tracked(c, d, j, lo, hi)
  }

  // ---- What one instruction does to a tracked disk ----

  lemma {:induction false} ChangesSplit(a: seq<Op>, b: seq<Op>, d: Directory)
    requires Changes(a, d).Some?
    ensures Changes(a + b, d) == Changes(b, Changes(a, d).value)
  {
    if a == [] {
      assert a + b == b;
    } else {
      assert (a + b)[1..] == a[1..] + b;
      ChangesSplit(a[1..], b, Change(a[0], d).value);
    }
  }

  lemma CurrentLayout(c: Case, d: Disk, j: Inode, lo: nat, hi: nat)
    requires Tracked(c, d, j, lo, hi)
    ensures Changes(d.pending, d.durable) == Some(Layout(c, j, hi))
  {
    LayoutAfter(c, j, lo, hi);
  }

  lemma DoTracks(c: Case, d: Disk, j: Inode, lo: nat, hi: nat)
    requires Tracked(c, d, j, lo, hi) && hi < 8 && JournalOf(c, d.files, j)
    ensures var op := Steps(c.saved, c.advanced, j)[hi];
      Apply(Do(op), d).Some? && Tracked(c, Apply(Do(op), d).value, j, lo, hi + 1)
  {
    var steps := Steps(c.saved, c.advanced, j);
    assert steps[lo..hi] + [steps[hi]] == steps[lo..hi + 1];
    LayoutAfter(c, j, lo, hi + 1);
  }

  lemma SyncTracks(c: Case, d: Disk, j: Inode, lo: nat, hi: nat)
    requires Tracked(c, d, j, lo, hi)
    ensures Apply(Sync, d).Some? && Tracked(c, Apply(Sync, d).value, j, hi, hi)
  {
    CurrentLayout(c, d, j, lo, hi);
  }

  lemma SliceOfSlice(ops: seq<Op>, lo: nat, hi: nat, k: nat)
    requires lo <= k <= hi <= |ops|
    ensures ops[lo..hi][..k - lo] == ops[lo..k]
  {
  }

  // If no operation survives without the earlier ones, the survivors are the first ones.
  lemma {:induction false} FirstSurvive(ops: seq<Op>, kept: seq<bool>) returns (k: nat)
    requires KeepsFirst(|ops|, kept)
    ensures k <= |ops| && Survivors(ops, kept) == ops[..k]
  {
    if ops == [] || kept == [] {
      k := 0;
    } else if kept[0] {
      assert forall i, j | 0 <= i < j < |ops| - 1 && j < |kept| - 1 && kept[1..][j] :: kept[1..][i] by {
        assert forall i | 0 <= i < |kept| - 1 :: kept[1..][i] == kept[i + 1];
      }
      k := FirstSurvive(ops[1..], kept[1..]);
      assert ops[..k + 1] == [ops[0]] + ops[1..][..k];
      k := k + 1;
    } else {
      assert forall j | 0 < j < |ops| && j < |kept| :: !kept[j];
      NoneSurvive(ops[1..], kept[1..]);
      k := 0;
    }
  }

  lemma {:induction false} NoneSurvive(ops: seq<Op>, kept: seq<bool>)
    requires forall j | 0 <= j < |ops| && j < |kept| :: !kept[j]
    ensures Survivors(ops, kept) == []
  {
    if ops != [] && kept != [] {
      assert forall j | 0 <= j < |kept| - 1 :: kept[1..][j] == kept[j + 1];
      NoneSurvive(ops[1..], kept[1..]);
    }
  }

  lemma CrashTracks(c: Case, d: Disk, j: Inode, lo: nat, hi: nat, kept: seq<bool>) returns (k: nat)
    requires Tracked(c, d, j, lo, hi) && KeepsFirst(hi - lo, kept)
    ensures Crash(d, kept).Some?
    ensures lo <= k <= hi && Tracked(c, Crash(d, kept).value, j, k, k)
  {
    var steps := Steps(c.saved, c.advanced, j);
    assert |d.pending| == hi - lo;
    var n := FirstSurvive(d.pending, kept);
    k := lo + n;
    SliceOfSlice(steps, lo, hi, k);
    LayoutAfter(c, j, lo, k);
  }

  lemma Retarget(c: Case, d: Disk, j: Inode, j': Inode)
    requires Tracked(c, d, j, 0, 0)
    ensures Tracked(c, d, j', 0, 0)
  {
  }

  // Instructions that succeed one after the other, through tracked disks only.
  ghost predicate Runs(c: Case, program: seq<Instr>, d: Disk, e: Disk) {
    && OnTrack(c, d)
    && if program == [] then d == e
       else Apply(program[0], d).Some? && Runs(c, program[1..], Apply(program[0], d).value, e)
  }

  lemma {:induction false} RunsCompose(c: Case, a: seq<Instr>, b: seq<Instr>, d: Disk, e: Disk, f: Disk)
    requires Runs(c, a, d, e) && Runs(c, b, e, f)
    ensures Runs(c, a + b, d, f)
  {
    if a == [] {
      assert a + b == b;
    } else {
      assert (a + b)[1..] == a[1..] + b;
      RunsCompose(c, a[1..], b, Apply(a[0], d).value, e, f);
    }
  }

  lemma {:induction false} RunsPrefix(c: Case, program: seq<Instr>, d: Disk, e: Disk, k: nat)
    requires Runs(c, program, d, e) && k <= |program|
    ensures Execute(program[..k], d).Some? && OnTrack(c, Execute(program[..k], d).value)
    ensures k == |program| ==> Execute(program[..k], d).value == e
  {
    if k > 0 {
      assert program[..k][1..] == program[1..][..k - 1];
      RunsPrefix(c, program[1..], Apply(program[0], d).value, e, k - 1);
    }
  }

  lemma {:induction false} TwoRun(c: Case, x: Instr, y: Instr, d: Disk)
    requires OnTrack(c, d) && Apply(x, d).Some? && OnTrack(c, Apply(x, d).value)
    requires Apply(y, Apply(x, d).value).Some? && OnTrack(c, Apply(y, Apply(x, d).value).value)
    ensures Runs(c, [x, y], d, Apply(y, Apply(x, d).value).value)
  {
    var m := Apply(x, d).value;
    assert [x, y][1..] == [y];
    assert [y][1..] == [];
    assert Runs(c, [y], m, Apply(y, m).value);
  }

  lemma {:induction false} RemainingStepsRun(c: Case, d: Disk, j: Inode, lo: nat, hi: nat) returns (e: Disk)
    requires Tracked(c, d, j, lo, hi) && JournalOf(c, d.files, j)
    ensures Runs(c, Synced(Steps(c.saved, c.advanced, j)[hi..]), d, e)
    ensures if hi == 8 then e == d else Tracked(c, e, j, 8, 8)
    ensures e.files == d.files
    decreases 8 - hi
  {
    var steps := Steps(c.saved, c.advanced, j);
    if hi == 8 {
      e := d;
    } else {
      DoTracks(c, d, j, lo, hi);
      var m := Apply(Do(steps[hi]), d).value;
      SyncTracks(c, m, j, lo, hi + 1);
      var n := Apply(Sync, m).value;
      TwoRun(c, Do(steps[hi]), Sync, d);
      e := RemainingStepsRun(c, n, j, hi + 1, hi + 1);
      RunsCompose(c, [Do(steps[hi]), Sync], Synced(steps[hi + 1..]), d, n, e);
      assert steps[hi..][0] == steps[hi] && steps[hi..][1..] == steps[hi + 1..];
    }
  }

  lemma JournalRuns(c: Case, d: Disk, unused: Inode) returns (e: Disk)
    requires Tracked(c, d, unused, 0, 0) && unused !in d.files
    ensures Runs(c, JournalWrite(c.plan, c.saved, Advanced(c), unused), d, e)
    ensures Tracked(c, e, unused, 1, 1)
  {
    var create := Create(unused, JournalFile(c.advancedRun, c.plan.hash, c.saved, c.advanced));
    var a := Apply(create, d).value;
    assert Tracked(c, a, unused, 0, 0);
    SyncTracks(c, a, unused, 0, 0);
    var b := Apply(Sync, a).value;
    TwoRun(c, create, Sync, d);
    DoTracks(c, b, unused, 0, 0);
    var m := Apply(Do(Link(unused)), b).value;
    SyncTracks(c, m, unused, 0, 1);
    e := Apply(Sync, m).value;
    TwoRun(c, Do(Link(unused)), Sync, b);
    RunsCompose(c, [create, Sync], [Do(Link(unused)), Sync], d, b, e);
  }

  // ---- Recovery reads the layout off the directory ----

  // For every layout the classifier returns the number of completed operations after the
  // journal's, and names that hold the advanced pair and, until it is superseded, the saved pair.
  lemma ClassifierReadsLayout(c: Case, j: Inode, k: nat)
    requires 1 <= k <= 7
    ensures var r := Classify(Observe(Layout(c, j, k)));
      && r.Some? && r.value.completed == k - 1
      && r.value.advanced.0 in Layout(c, j, k) && r.value.advanced.1 in Layout(c, j, k)
      && Pair(Layout(c, j, k)[r.value.advanced.0], Layout(c, j, k)[r.value.advanced.1]) == c.advanced
      && (r.value.saved.Some? <==> k <= 5)
      && (k <= 5 ==>
            && r.value.saved.value.0 in Layout(c, j, k) && r.value.saved.value.1 in Layout(c, j, k)
            && Pair(Layout(c, j, k)[r.value.saved.value.0], Layout(c, j, k)[r.value.saved.value.1]) == c.saved)
  {
  }

  // While the saved pair is not superseded both pairs are authenticated; after that only the
  // advanced one is, until nothing is left to do.
  predicate NeedsSaved(dir: Directory) {
    Resumed in dir || ResumedCheckpoint in dir || Previous in dir
  }

  predicate NeedsAdvanced(dir: Directory) {
    NeedsSaved(dir) || PreviousCheckpoint in dir || Promotion in dir
  }

  // The selected files are seen as the checkpoints that recovery still needs recorded them.
  predicate Sees(c: Case, dir: Directory, sight: Sight) {
    && (NeedsAdvanced(dir) ==> Matches(c.plan, c.advancedSeen, sight.advanced))
    && (NeedsSaved(dir) ==> Matches(c.plan, c.savedSeen, sight.saved))
  }

  lemma NeedsOfLayout(c: Case, j: Inode, k: nat)
    requires k <= 8
    ensures NeedsSaved(Layout(c, j, k)) <==> k <= 5
    ensures NeedsAdvanced(Layout(c, j, k)) <==> k <= 7
  {
  }

  lemma AdvancedAt(c: Case, files: map<Inode, Content>, dir: Directory, slots: (Slot, Slot), now: Observations)
    requires Holds(c, files) && slots.0 in dir && slots.1 in dir && Pair(dir[slots.0], dir[slots.1]) == c.advanced
    ensures Authenticate(c.plan, files, dir, slots, now)
         == if Matches(c.plan, c.advancedSeen, now) then Some(Advanced(c)) else None
  {
  }

  lemma SavedAt(c: Case, files: map<Inode, Content>, dir: Directory, slots: (Slot, Slot), now: Observations)
    requires Holds(c, files) && slots.0 in dir && slots.1 in dir && Pair(dir[slots.0], dir[slots.1]) == c.saved
    ensures Authenticate(c.plan, files, dir, slots, now)
         == if Matches(c.plan, c.savedSeen, now) then Some(Saved(c)) else None
  {
  }

  lemma ReconcileOfLayout(c: Case, files: map<Inode, Content>, j: Inode, k: nat, sight: Sight, unused: Inode)
    requires 1 <= k <= 7 && Holds(c, files) && JournalOf(c, files, j)
    ensures ReconcileProgram(c.plan, files, Layout(c, j, k), sight, unused)
         == if Sees(c, Layout(c, j, k), sight) then Some(Synced(Steps(c.saved, c.advanced, j)[k..])) else None
  {
    ClassifierReadsLayout(c, j, k);
    NeedsOfLayout(c, j, k);
    var dir := Layout(c, j, k);
    var position := Classify(Observe(dir)).value;
    assert Promotion in dir && dir[Promotion] == j;
    AdvancedAt(c, files, dir, position.advanced, sight.advanced);
    if k <= 5 {
      SavedAt(c, files, dir, position.saved.value, sight.saved);
    }
  }

  ghost function Current(d: Disk): Directory
    requires Changes(d.pending, d.durable).Some?
  {
    Changes(d.pending, d.durable).value
  }

  // From the layout of a tracked disk recovery finds exactly what is left to do if it sees the
  // files as recorded, and does nothing otherwise.
  lemma ProgramOfLayout(c: Case, d: Disk, j: Inode, lo: nat, hi: nat, sight: Sight, unused: Inode)
    requires Tracked(c, d, j, lo, hi)
    ensures Changes(d.pending, d.durable) == Some(Layout(c, j, hi))
    ensures PromotionProgram(c.plan, d, sight, unused)
         == if !Sees(c, Layout(c, j, hi), sight) then None
            else if hi == 0 then Some(WholePromotion(c.plan, c.saved, Advanced(c), unused))
            else if hi == 8 then Some([])
            else Some(Synced(Steps(c.saved, c.advanced, j)[hi..]))
  {
    CurrentLayout(c, d, j, lo, hi);
    NeedsOfLayout(c, j, hi);
    if hi == 0 {
      assert Observe(Layout(c, j, 0)) == Presence(true, true, true, true, false, false, false);
      AdvancedAt(c, d.files, Layout(c, j, 0), (Resumed, ResumedCheckpoint), sight.advanced);
      SavedAt(c, d.files, Layout(c, j, 0), (Partial, Checkpoint), sight.saved);
    } else if hi == 8 {
      assert Observe(Layout(c, j, 8)) == Presence(true, true, false, false, false, false, false);
    } else {
      assert Observe(Layout(c, j, hi)).journal;
      ReconcileOfLayout(c, d.files, j, hi, sight, unused);
    }
  }

  lemma PausingOfLayout(c: Case, d: Disk, j: Inode, now: Observations, unused: Inode)
    requires Tracked(c, d, j, 0, 0)
    ensures PausingProgram(c.plan, d, c.saved, now, unused)
         == if Matches(c.plan, c.advancedSeen, now)
            then Some(WholePromotion(c.plan, c.saved, Advanced(c), unused)) else None
  {
    CurrentLayout(c, d, j, 0, 0);
  }

  // A pack that pauses promotes only a pair of its own: a partial file and the checkpoint that the
  // same run wrote for the Plan, with every selected file seen as it was.
  lemma PausesOverOwnPair(plan: Plan, d: Disk, saved: Pair, now: Observations, unused: Inode)
    requires Changes(d.pending, d.durable).Some? && PausingProgram(plan, d, saved, now, unused).Some?
    ensures var dir := Current(d);
      && Resumed in dir && ResumedCheckpoint in dir && dir[Resumed] in d.files && dir[ResumedCheckpoint] in d.files
      && exists run: nat, captured: nat, seen: Observations ::
           && d.files[dir[Resumed]] == PartialFile(run)
           && d.files[dir[ResumedCheckpoint]] == CheckpointFile(run, plan.hash, captured, seen)
           && forall i | i in plan.selected :: i in seen && seen[i].Some? && i in now && now[i] == seen[i]
  {
    var dir := Current(d);
    var f, g := d.files[dir[Resumed]], d.files[dir[ResumedCheckpoint]];
    assert f == PartialFile(f.run) && g == CheckpointFile(f.run, plan.hash, g.captured, g.seen);
  }

  // Exactly the advanced pair at its final names, the other five names absent.
  ghost predicate Promoted(c: Case, d: Disk) {
    Changes(d.pending, d.durable) == Some(map[Partial := c.advanced.partial, Checkpoint := c.advanced.checkpoint])
  }

  lemma LastLayoutIsPromoted(c: Case, d: Disk, j: Inode, lo: nat)
    requires Tracked(c, d, j, lo, 8)
    ensures Promoted(c, d)
  {
    CurrentLayout(c, d, j, lo, 8);
  }

  lemma FirstPromotionRuns(c: Case, d: Disk, unused: Inode) returns (e: Disk)
    requires Tracked(c, d, unused, 0, 0) && unused !in d.files
    ensures Runs(c, WholePromotion(c.plan, c.saved, Advanced(c), unused), d, e)
    ensures Tracked(c, e, unused, 8, 8)
  {
    var m := JournalRuns(c, d, unused);
    e := RemainingStepsRun(c, m, unused, 1, 1);
    RunsCompose(c, JournalWrite(c.plan, c.saved, Advanced(c), unused),
                Synced(Steps(c.saved, c.advanced, unused)[1..]), d, m, e);
  }

  // From any tracked state a recovery that sees the files as recorded ends promoted, and durably
  // so if it had anything to do; any other does nothing.
  lemma RecoveryRuns(c: Case, d: Disk, sight: Sight, unused: Inode) returns (e: Disk)
    requires OnTrack(c, d) && unused !in d.files
    ensures Changes(d.pending, d.durable).Some?
    ensures PromotionProgram(c.plan, d, sight, unused).Some? <==> Sees(c, Current(d), sight)
    ensures Sees(c, Current(d), sight) ==> var program := PromotionProgram(c.plan, d, sight, unused).value;
      Runs(c, program, d, e) && Promoted(c, e) && (program != [] ==> e.pending == [])
  {
    var j: nat, lo: nat, hi: nat :| Tracked(c, d, j, lo, hi);
    ProgramOfLayout(c, d, j, lo, hi, sight, unused);
    if hi == 0 {
      Retarget(c, d, j, unused);
      e := FirstPromotionRuns(c, d, unused);
      LastLayoutIsPromoted(c, e, unused, 8);
    } else if hi == 8 {
      e := d;
      LastLayoutIsPromoted(c, d, j, lo);
    } else {
      e := RemainingStepsRun(c, d, j, lo, hi);
      LastLayoutIsPromoted(c, e, j, 8);
    }
  }

  // ---- Any number of interrupted processes ----

  // A process performs `steps` instructions and stops. `power` tells whether the machine then
  // goes down, and which of the unsynchronized operations survive.
  datatype Attempt = Attempt(sight: Sight, unused: Inode, steps: nat, power: Option<seq<bool>>)

  function Stopped(program: Option<seq<Instr>>, steps: nat, d: Disk): Option<Disk> {
    if program.None? then Some(d)
    else Execute(program.value[..if steps < |program.value| then steps else |program.value|], d)
  }

  function AfterProcess(program: Option<seq<Instr>>, a: Attempt, d: Disk): Option<Disk> {
    var m := Stopped(program, a.steps, d);
    if m.None? || a.power.None? then m else Crash(m.value, a.power.value)
  }

  function AfterAttempt(plan: Plan, d: Disk, a: Attempt): Option<Disk> {
    AfterProcess(PromotionProgram(plan, d, a.sight, a.unused), a, d)
  }

  function AfterAttempts(plan: Plan, d: Disk, attempts: seq<Attempt>): Option<Disk>
    decreases |attempts|
  {
    if attempts == [] then Some(d)
    else
      var next := AfterAttempt(plan, d, attempts[0]);
      if next.None? then None else AfterAttempts(plan, next.value, attempts[1..])
  }

  // A process gives its journal file an inode that no file has, and a power failure after it
  // keeps no operation without the earlier ones.
  ghost predicate InOrder(program: Option<seq<Instr>>, a: Attempt, d: Disk) {
    && a.unused !in d.files
    && (a.power.Some? && Stopped(program, a.steps, d).Some? ==>
          KeepsFirst(|Stopped(program, a.steps, d).value.pending|, a.power.value))
  }

  ghost predicate AllInOrder(plan: Plan, d: Disk, attempts: seq<Attempt>)
    decreases |attempts|
  {
    attempts == [] ||
    (&& InOrder(PromotionProgram(plan, d, attempts[0].sight, attempts[0].unused), attempts[0], d)
     && (AfterAttempt(plan, d, attempts[0]).Some? ==>
           AllInOrder(plan, AfterAttempt(plan, d, attempts[0]).value, attempts[1..])))
  }

  // A process whose program runs through tracked states leaves one, wherever it stops.
  lemma {:induction false} ProcessStaysOnTrack(c: Case, d: Disk, program: Option<seq<Instr>>, e: Disk, a: Attempt)
    requires OnTrack(c, d) && InOrder(program, a, d) && (program.Some? ==> Runs(c, program.value, d, e))
    ensures AfterProcess(program, a, d).Some? && OnTrack(c, AfterProcess(program, a, d).value)
  {
    if program.Some? {
      RunsPrefix(c, program.value, d, e, if a.steps < |program.value| then a.steps else |program.value|);
    }
    var m := Stopped(program, a.steps, d).value;
    if a.power.Some? {
      var j: nat, lo: nat, hi: nat :| Tracked(c, m, j, lo, hi);
      var k := CrashTracks(c, m, j, lo, hi, a.power.value);
    }
  }

  lemma {:induction false} AttemptsStayOnTrack(c: Case, d: Disk, attempts: seq<Attempt>)
    requires OnTrack(c, d) && AllInOrder(c.plan, d, attempts)
    ensures AfterAttempts(c.plan, d, attempts).Some? && OnTrack(c, AfterAttempts(c.plan, d, attempts).value)
    decreases |attempts|
  {
    if attempts != [] {
      var a := attempts[0];
      var e := RecoveryRuns(c, d, a.sight, a.unused);
      ProcessStaysOnTrack(c, d, PromotionProgram(c.plan, d, a.sight, a.unused), e, a);
      AttemptsStayOnTrack(c, AfterAttempt(c.plan, d, a).value, attempts[1..]);
    }
  }

  // What the Pack that paused does itself, stopped somewhere, and then the recoveries after it.
  function AfterAll(c: Case, d: Disk, pausing: Attempt, attempts: seq<Attempt>): Option<Disk> {
    var first := AfterProcess(PausingProgram(c.plan, d, c.saved, pausing.sight.advanced, pausing.unused), pausing, d);
    if first.None? then None else AfterAttempts(c.plan, first.value, attempts)
  }

  ghost predicate WholeRunInOrder(c: Case, d: Disk, pausing: Attempt, attempts: seq<Attempt>) {
    var program := PausingProgram(c.plan, d, c.saved, pausing.sight.advanced, pausing.unused);
    && InOrder(program, pausing, d)
    && (AfterProcess(program, pausing, d).Some? ==>
          AllInOrder(c.plan, AfterProcess(program, pausing, d).value, attempts))
  }

  lemma WholeRunStaysOnTrack(c: Case, d: Disk, pausing: Attempt, attempts: seq<Attempt>)
    requires Holds(c, d.files) && d.durable == Layout(c, 0, 0) && d.pending == []
    requires WholeRunInOrder(c, d, pausing, attempts)
    ensures AfterAll(c, d, pausing, attempts).Some? && OnTrack(c, AfterAll(c, d, pausing, attempts).value)
  {
    var program := PausingProgram(c.plan, d, c.saved, pausing.sight.advanced, pausing.unused);
    assert Tracked(c, d, 0, 0, 0);
    PausingOfLayout(c, d, 0, pausing.sight.advanced, pausing.unused);
    Retarget(c, d, 0, pausing.unused);
    var e := FirstPromotionRuns(c, d, pausing.unused);
    ProcessStaysOnTrack(c, d, program, e, pausing);
    AttemptsStayOnTrack(c, AfterProcess(program, pausing, d).value, attempts);
  }

  // A resumed Pack has paused: both pairs are there and no journal. It goes on to promote and
  // stops or crashes anywhere, and so does any number of recoveries, each seeing the source as it
  // then is. One more recovery that is not stopped ends with exactly the advanced pair if and only
  // if it sees the selected files as the checkpoints it still needs recorded them; otherwise it
  // does nothing.
  lemma {:induction false} AnyCrashesConverge(c: Case, d: Disk, pausing: Attempt, attempts: seq<Attempt>, sight: Sight,
                                              unused: Inode)
    requires Holds(c, d.files) && d.durable == Layout(c, 0, 0) && d.pending == []
    requires WholeRunInOrder(c, d, pausing, attempts)
    requires AfterAll(c, d, pausing, attempts).Some? ==> unused !in AfterAll(c, d, pausing, attempts).value.files
    ensures AfterAll(c, d, pausing, attempts).Some?
    ensures var m := AfterAll(c, d, pausing, attempts).value;
      var program := PromotionProgram(c.plan, m, sight, unused);
      && OnTrack(c, m) && Changes(m.pending, m.durable).Some?
      && (program.Some? <==> Sees(c, Current(m), sight))
      && (program.Some? ==> Execute(program.value, m).Some? && Promoted(c, Execute(program.value, m).value))
  {
    WholeRunStaysOnTrack(c, d, pausing, attempts);
    var m := AfterAll(c, d, pausing, attempts).value;
    var e := RecoveryRuns(c, m, sight, unused);
    if Sees(c, Current(m), sight) {
      var program := PromotionProgram(c.plan, m, sight, unused).value;
      RunsPrefix(c, program, m, e, |program|);
      assert program[..|program|] == program;
    }
  }

  // ---- Which sources let recovery end ----

  // The file was observed for the checkpoint.
  predicate WasSeen(seen: Observations, i: nat) {
    i in seen && seen[i].Some?
  }

  // There is a state of the source in which a recovery goes on exactly when the checkpoints it
  // still needs saw every selected file and saw it the same: while both pairs are needed, a file
  // that was edited between the two pauses, or that the resumed run left unverified, stops every
  // later recovery.
  lemma SomeSourceLetsRecoveryEnd(c: Case, d: Disk, j: Inode, lo: nat, hi: nat, unused: Inode)
    requires Tracked(c, d, j, lo, hi)
    ensures (exists now: Observations :: PromotionProgram(c.plan, d, Sight(now, now), unused).Some?)
       <==> || hi == 8
            || (&& (forall i | i in c.plan.selected :: WasSeen(c.advancedSeen, i))
                && (hi <= 5 ==> forall i | i in c.plan.selected ::
                      WasSeen(c.savedSeen, i) && c.savedSeen[i] == c.advancedSeen[i]))
  {
    NeedsOfLayout(c, j, hi);
    forall now: Observations
      ensures PromotionProgram(c.plan, d, Sight(now, now), unused).Some? <==> Sees(c, Layout(c, j, hi), Sight(now, now))
    {
      ProgramOfLayout(c, d, j, lo, hi, Sight(now, now), unused);
    }
    var best := c.advancedSeen;
    assert PromotionProgram(c.plan, d, Sight(best, best), unused).Some?
      <==> Sees(c, Layout(c, j, hi), Sight(best, best));
    if now: Observations :| PromotionProgram(c.plan, d, Sight(now, now), unused).Some? {
      assert Sees(c, Layout(c, j, hi), Sight(now, now));
    }
  }

  // One selected file, not captured before the first pause, edited before the resumed run captured
  // it, and a stop after the first move.
  const EDITED := Case(Plan(7, {0}), Pair(0, 1), Pair(2, 3), 1, 2, 0, 1, map[0 := Some(10)], map[0 := Some(11)])

  const EDITED_FILES: map<Inode, Content> :=
    map[0 := PartialFile(1), 1 := CheckpointFile(1, 7, 0, map[0 := Some(10)]),
        2 := PartialFile(2), 3 := CheckpointFile(2, 7, 1, map[0 := Some(11)]),
        4 := JournalFile(2, 7, Pair(0, 1), Pair(2, 3))]

  lemma EditedFileStopsRecovery(now: Observations, unused: Inode)
    ensures OnTrack(EDITED, Disk(EDITED_FILES, Layout(EDITED, 4, 2), []))
    ensures PromotionProgram(EDITED.plan, Disk(EDITED_FILES, Layout(EDITED, 4, 2), []), Sight(now, now), unused).None?
  {
    var d := Disk(EDITED_FILES, Layout(EDITED, 4, 2), []);
    assert Tracked(EDITED, d, 4, 2, 2);
    SomeSourceLetsRecoveryEnd(EDITED, d, 4, 2, 2, unused);
    assert 0 in EDITED.plan.selected && EDITED.savedSeen[0] != EDITED.advancedSeen[0];
  }

  // ---- Which power failures are in order ----

  // Every directory operation is synchronized before the next instruction.
  predicate Alternates(program: seq<Instr>) {
    forall i | 0 <= i < |program| && program[i].Do? :: i + 1 < |program| && program[i + 1].Sync?
  }

  lemma {:induction false} SyncedAlternates(ops: seq<Op>)
    ensures Alternates(Synced(ops))
  {
    if ops != [] {
      SyncedAlternates(ops[1..]);
      var rest := Synced(ops[1..]);
      assert Synced(ops) == [Do(ops[0]), Sync] + rest;
    }
  }

  lemma AlternatesTogether(a: seq<Instr>, b: seq<Instr>)
    requires Alternates(a) && Alternates(b)
    ensures Alternates(a + b)
  {
  }

  // Such a program, started with nothing unsynchronized, never has more than one operation so.
  lemma {:induction false} AtMostOnePending(program: seq<Instr>, d: Disk, k: nat)
    requires Alternates(program) && d.pending == [] && k <= |program| && Execute(program[..k], d).Some?
    ensures |Execute(program[..k], d).value.pending| <= (if k > 0 && program[k - 1].Do? then 1 else 0)
  {
    if k > 0 {
      var before := program[..k - 1];
      assert program[..k] == before + [program[k - 1]];
      PrefixExecutes(before, [program[k - 1]], d);
      ExecuteSplits(before, [program[k - 1]], d);
      AtMostOnePending(program, d, k - 1);
      assert [program[k - 1]][1..] == [];
    }
  }

  lemma {:induction false} PrefixExecutes(a: seq<Instr>, b: seq<Instr>, d: Disk)
    requires Execute(a + b, d).Some?
    ensures Execute(a, d).Some?
  {
    if a != [] {
      assert (a + b)[0] == a[0] && (a + b)[1..] == a[1..] + b;
      PrefixExecutes(a[1..], b, Apply(a[0], d).value);
    }
  }

  lemma JournalledAlternates(plan: Plan, saved: Pair, advanced: Progress, unused: Inode, k: nat)
    requires k <= 7
    ensures Alternates(JournalWrite(plan, saved, advanced, unused) + Synced(Steps(saved, advanced.pair, unused)[k..]))
  {
    SyncedAlternates(Steps(saved, advanced.pair, unused)[k..]);
    AlternatesTogether(JournalWrite(plan, saved, advanced, unused), Synced(Steps(saved, advanced.pair, unused)[k..]));
  }

  lemma ReconcileAlternates(plan: Plan, files: map<Inode, Content>, dir: Directory, sight: Sight, unused: Inode)
    ensures ReconcileProgram(plan, files, dir, sight, unused).Some? ==>
              Alternates(ReconcileProgram(plan, files, dir, sight, unused).value)
  {
    forall s: Pair, p: Progress, k: nat | k <= 7
      ensures Alternates(JournalWrite(plan, s, p, unused) + Synced(Steps(s, p.pair, unused)[k..]))
    {
      JournalledAlternates(plan, s, p, unused, k);
    }
    forall s: Pair, a: Pair, j: Inode, k: nat | k <= 7 ensures Alternates(Synced(Steps(s, a, j)[k..])) {
      SyncedAlternates(Steps(s, a, j)[k..]);
    }
  }

  lemma ProgramsAlternate(plan: Plan, d: Disk, sight: Sight, unused: Inode)
    ensures PromotionProgram(plan, d, sight, unused).Some? ==>
              Alternates(PromotionProgram(plan, d, sight, unused).value)
  {
    if Changes(d.pending, d.durable).Some? {
      var dir := Changes(d.pending, d.durable).value;
      ReconcileAlternates(plan, d.files, dir, sight, unused);
      var saved := Authenticate(plan, d.files, dir, (Partial, Checkpoint), sight.saved);
      var advanced := Authenticate(plan, d.files, dir, (Resumed, ResumedCheckpoint), sight.advanced);
      if saved.Some? && advanced.Some? {
        JournalledAlternates(plan, saved.value.pair, advanced.value, unused, 1);
      }
    }
  }

  // If every process that stops is followed by a power failure, each finds a synchronized
  // directory, and whatever the failures keep is in order.
  lemma {:induction false} PowerFailuresAreInOrder(plan: Plan, d: Disk, attempts: seq<Attempt>)
    requires d.pending == [] && forall i | 0 <= i < |attempts| :: attempts[i].power.Some?
    requires FreshThroughout(plan, d, attempts)
    ensures AllInOrder(plan, d, attempts)
    decreases |attempts|
  {
    if attempts != [] {
      var a := attempts[0];
      var program := PromotionProgram(plan, d, a.sight, a.unused);
      ProgramsAlternate(plan, d, a.sight, a.unused);
      if program.Some? && Stopped(program, a.steps, d).Some? {
        AtMostOnePending(program.value, d, if a.steps < |program.value| then a.steps else |program.value|);
      }
      if AfterAttempt(plan, d, a).Some? {
        PowerFailuresAreInOrder(plan, AfterAttempt(plan, d, a).value, attempts[1..]);
      }
    }
  }

  ghost predicate FreshThroughout(plan: Plan, d: Disk, attempts: seq<Attempt>)
    decreases |attempts|
  {
    attempts == [] ||
    (&& attempts[0].unused !in d.files
     && (AfterAttempt(plan, d, attempts[0]).Some? ==>
           FreshThroughout(plan, AfterAttempt(plan, d, attempts[0]).value, attempts[1..])))
  }

  lemma {:induction false} EveryStopAPowerFailure(c: Case, d: Disk, pausing: Attempt, attempts: seq<Attempt>)
    requires d.pending == [] && pausing.power.Some? && forall i | 0 <= i < |attempts| :: attempts[i].power.Some?
    requires pausing.unused !in d.files
    requires var program := PausingProgram(c.plan, d, c.saved, pausing.sight.advanced, pausing.unused);
      AfterProcess(program, pausing, d).Some? ==>
        FreshThroughout(c.plan, AfterProcess(program, pausing, d).value, attempts)
    ensures WholeRunInOrder(c, d, pausing, attempts)
  {
    var program := PausingProgram(c.plan, d, c.saved, pausing.sight.advanced, pausing.unused);
    if program.Some? {
      var advanced := Authenticate(c.plan, d.files, Current(d), (Resumed, ResumedCheckpoint),
                                   pausing.sight.advanced).value;
      JournalledAlternates(c.plan, c.saved, advanced, pausing.unused, 1);
      if Stopped(program, pausing.steps, d).Some? {
        AtMostOnePending(program.value, d, if pausing.steps < |program.value| then pausing.steps else |program.value|);
      }
    }
    if AfterProcess(program, pausing, d).Some? {
      PowerFailuresAreInOrder(c.plan, AfterProcess(program, pausing, d).value, attempts);
    }
  }

  // With two operations outstanding a power failure may keep the second alone. If the first was
  // the journal's publication, recovery writes the journal again; if it was any other, every
  // recovery is refused for good, whatever it sees.
  lemma TwoPendingBoundary(c: Case, d: Disk, j: Inode, lo: nat, sight: Sight, unused: Inode)
    requires lo <= 6 && Tracked(c, d, j, lo, lo + 2)
    ensures Crash(d, [false, true]).Some?
    ensures var e := Crash(d, [false, true]).value;
      && e.pending == []
      && (PromotionProgram(c.plan, e, sight, unused).Some? <==> lo == 0 && Sees(c, e.durable, sight))
  {
    var steps := Steps(c.saved, c.advanced, j);
    OnlySecondSurvives(steps[lo], steps[lo + 1], d.durable);
    assert d.pending == [steps[lo], steps[lo + 1]];
    SecondAlone(c, j, lo);
    var e := Crash(d, [false, true]).value;
    if lo == 0 {
      ReconcileWithoutJournal(c, e.files, j, 2, e.durable, sight, unused);
    }
  }

  lemma {:induction false} OnlySecondSurvives(x: Op, y: Op, d: Directory)
    ensures Survivors([x, y], [false, true]) == [y] && Changes([y], d) == Change(y, d)
  {
    assert [x, y][1..] == [y] && [false, true][1..] == [true] && [y][1..] == [] && [true][1..] == [];
    assert Survivors([y], [true]) == [y];
  }

  // What the second of two operations makes of a layout that lacks the first.
  lemma SecondAlone(c: Case, j: Inode, lo: nat)
    requires lo <= 6
    ensures var e := Change(Steps(c.saved, c.advanced, j)[lo + 1], Layout(c, j, lo));
      && e.Some?
      && (if lo == 0 then e.value == Layout(c, j, 2) - {Promotion}
          else && Classify(Observe(e.value)).None?
               && (Previous in e.value || PreviousCheckpoint in e.value || Promotion in e.value))
  {
  }

  // Two processes that each stop right after their first rename leave two operations outstanding,
  // and a power failure that keeps only the second ends every promotion.
  lemma {:induction false} StoppedTwiceThenRefused(c: Case, d: Disk, j: Inode, a: Attempt, b: Attempt, sight: Sight,
                                                   unused: Inode)
    requires Tracked(c, d, j, 1, 1)
    requires a.steps == b.steps == 1 && a.power.None? && b.power == Some([false, true])
    requires Sees(c, Layout(c, j, 1), a.sight) && Sees(c, Layout(c, j, 2), b.sight)
    ensures AfterAttempts(c.plan, d, [a, b]).Some?
    ensures PromotionProgram(c.plan, AfterAttempts(c.plan, d, [a, b]).value, sight, unused).None?
  {
    var m := OneStep(c, d, j, 1, 1, a);
    var n := OneStep(c, m, j, 1, 2, b);
    TwoPendingBoundary(c, n, j, 1, sight, unused);
    assert [a, b][1..] == [b] && [b][1..] == [];
    var e := Crash(n, [false, true]).value;
    assert AfterAttempt(c.plan, m, b) == Some(e);
    assert AfterAttempts(c.plan, m, [b]) == AfterAttempts(c.plan, e, []);
  }

  lemma OneStep(c: Case, d: Disk, j: Inode, lo: nat, hi: nat, a: Attempt) returns (m: Disk)
    requires 1 <= hi <= 7 && Tracked(c, d, j, lo, hi) && a.steps == 1 && Sees(c, Layout(c, j, hi), a.sight)
    ensures Stopped(PromotionProgram(c.plan, d, a.sight, a.unused), 1, d) == Some(m) && Tracked(c, m, j, lo, hi + 1)
  {
    var steps := Steps(c.saved, c.advanced, j);
    ProgramOfLayout(c, d, j, lo, hi, a.sight, a.unused);
    DoTracks(c, d, j, lo, hi);
    var program := Synced(steps[hi..]);
    assert steps[hi..][0] == steps[hi];
    assert program[..1] == [Do(steps[hi])] && [Do(steps[hi])][1..] == [];
    m := Apply(Do(steps[hi]), d).value;
    assert Execute([Do(steps[hi])], d) == Some(m);
  }

  lemma AdvancedPairPresent(c: Case, files: map<Inode, Content>, j: Inode, k: nat, now: Observations)
    requires k <= 8 && Holds(c, files) && Matches(c.plan, c.advancedSeen, now)
    ensures Authenticate(c.plan, files, Layout(c, j, k),
              if k <= 3 then (Resumed, ResumedCheckpoint) else if k == 4 then (Partial, ResumedCheckpoint)
              else (Partial, Checkpoint), now)
         == Some(Advanced(c))
  {
  }

  lemma SavedPairPresent(c: Case, files: map<Inode, Content>, j: Inode, k: nat, now: Observations)
    requires k <= 5 && Holds(c, files) && Matches(c.plan, c.savedSeen, now)
    ensures Authenticate(c.plan, files, Layout(c, j, k),
              if k <= 1 then (Partial, Checkpoint) else if k == 2 then (Previous, Checkpoint)
              else (Previous, PreviousCheckpoint), now)
         == Some(Saved(c))
  {
  }

  // No progress is lost: in every tracked state, and in every directory that a crash in order can
  // make of it, the advanced pair is complete under its known names and authenticates for whoever
  // sees the files as it recorded them; so does the saved pair until the advanced pair is complete
  // at its final names.
  lemma NoProgressLost(c: Case, d: Disk, kept: seq<bool>, sight: Sight)
    requires OnTrack(c, d) && KeepsFirst(|d.pending|, kept)
    requires Matches(c.plan, c.advancedSeen, sight.advanced) && Matches(c.plan, c.savedSeen, sight.saved)
    ensures Crash(d, kept).Some?
    ensures var dir := Crash(d, kept).value.durable;
      var advanced, saved := Some(Advanced(c)), Some(Saved(c));
      && (|| Authenticate(c.plan, d.files, dir, (Partial, Checkpoint), sight.advanced) == advanced
          || Authenticate(c.plan, d.files, dir, (Partial, ResumedCheckpoint), sight.advanced) == advanced
          || Authenticate(c.plan, d.files, dir, (Resumed, ResumedCheckpoint), sight.advanced) == advanced)
      && (|| Authenticate(c.plan, d.files, dir, (Partial, Checkpoint), sight.advanced) == advanced
          || Authenticate(c.plan, d.files, dir, (Partial, Checkpoint), sight.saved) == saved
          || Authenticate(c.plan, d.files, dir, (Previous, Checkpoint), sight.saved) == saved
          || Authenticate(c.plan, d.files, dir, (Previous, PreviousCheckpoint), sight.saved) == saved)
  {
    var j: nat, lo: nat, hi: nat :| Tracked(c, d, j, lo, hi);
    var k := CrashTracks(c, d, j, lo, hi, kept);
    AdvancedPairPresent(c, d.files, j, k, sight.advanced);
    if k <= 5 {
      SavedPairPresent(c, d.files, j, k, sight.saved);
    }
  }

  // ---- Directories that no run is assumed to have made ----

  // A layout whose journal entry is missing.
  ghost predicate JournalLost(c: Case, j: Inode, k: nat, dir: Directory) {
    2 <= k <= 5 && dir == Layout(c, j, k) - {Promotion}
  }

  lemma {:induction false} ExecuteSplits(a: seq<Instr>, b: seq<Instr>, d: Disk)
    requires Execute(a, d).Some?
    ensures Execute(a + b, d) == Execute(b, Execute(a, d).value)
  {
    if a == [] {
      assert a + b == b;
    } else {
      assert (a + b)[1..] == a[1..] + b;
      ExecuteSplits(a[1..], b, Apply(a[0], d).value);
    }
  }

  lemma ReconcileWithoutJournal(c: Case, files: map<Inode, Content>, j: Inode, k: nat, dir: Directory, sight: Sight,
                                unused: Inode)
    requires Holds(c, files) && JournalLost(c, j, k, dir)
    ensures ReconcileProgram(c.plan, files, dir, sight, unused)
         == if Sees(c, dir, sight)
            then Some(JournalWrite(c.plan, c.saved, Advanced(c), unused)
                      + Synced(Steps(c.saved, c.advanced, unused)[k..]))
            else None
  {
    ClassifierReadsLayout(c, j, k);
    var position := Classify(Observe(Layout(c, j, k))).value;
    assert Observe(dir) == Observe(Layout(c, j, k)).(journal := false);
    assert Classify(Observe(dir)) == Some(position);
    assert NeedsSaved(dir) && NeedsAdvanced(dir);
    AdvancedAt(c, files, dir, position.advanced, sight.advanced);
    SavedAt(c, files, dir, position.saved.value, sight.saved);
  }

  lemma JournalRestored(c: Case, j: Inode, k: nat, unused: Inode)
    requires 2 <= k <= 5
    ensures (Layout(c, j, k) - {Promotion})[Promotion := unused] == Layout(c, unused, k)
  {
  }

  lemma JournalRewriteExecutes(c: Case, d: Disk, j: Inode, k: nat, unused: Inode) returns (e: Disk)
    requires Holds(c, d.files) && JournalLost(c, j, k, d.durable) && d.pending == [] && unused !in d.files
    ensures Execute(JournalWrite(c.plan, c.saved, Advanced(c), unused), d) == Some(e)
    ensures Tracked(c, e, unused, k, k)
  {
    var journal := JournalFile(c.advancedRun, c.plan.hash, c.saved, c.advanced);
    var a := d.(files := d.files[unused := journal]);
    assert Apply(Create(unused, journal), d) == Some(a);
    assert Apply(Sync, a) == Some(a);
    JournalRestored(c, j, k, unused);
    var b := a.(pending := [Link(unused)]);
    assert [] + [Link(unused)] == [Link(unused)];
    assert [Link(unused)][1..] == [];
    assert Changes([Link(unused)], a.durable) == Some(Layout(c, unused, k));
    assert Apply(Do(Link(unused)), a) == Some(b);
    e := Disk(a.files, Layout(c, unused, k), []);
    assert Apply(Sync, b) == Some(e);
    FourExecute(Create(unused, journal), Sync, Do(Link(unused)), Sync, d);
  }

  lemma {:induction false} FourExecute(w: Instr, x: Instr, y: Instr, z: Instr, d: Disk)
    requires Apply(w, d).Some? && Apply(x, Apply(w, d).value).Some?
    requires Apply(y, Apply(x, Apply(w, d).value).value).Some?
    ensures Execute([w, x, y, z], d) == Apply(z, Apply(y, Apply(x, Apply(w, d).value).value).value)
  {
    var e := Apply(y, Apply(x, Apply(w, d).value).value).value;
    assert [w, x, y, z][1..] == [x, y, z] && [x, y, z][1..] == [y, z] && [y, z][1..] == [z] && [z][1..] == [];
    assert Execute([z], e) == Apply(z, e);
    assert Execute([y, z], Apply(x, Apply(w, d).value).value) == Execute([z], e);
  }

  // If the journal is lost once the saved partial has been moved, recovery writes it again
  // and completes the promotion, if it sees the files as both checkpoints recorded them.
  lemma {:induction false} LostJournalRecovers(c: Case, d: Disk, j: Inode, k: nat, sight: Sight, unused: Inode)
    requires Holds(c, d.files) && JournalLost(c, j, k, d.durable) && d.pending == [] && unused !in d.files
    ensures var program := PromotionProgram(c.plan, d, sight, unused);
      && (program.Some? <==> Sees(c, d.durable, sight))
      && (program.Some? ==> Execute(program.value, d).Some? && Promoted(c, Execute(program.value, d).value))
  {
    ReconcileWithoutJournal(c, d.files, j, k, d.durable, sight, unused);
    assert Previous in d.durable || PreviousCheckpoint in d.durable;
    var rest := Synced(Steps(c.saved, c.advanced, unused)[k..]);
    var m := JournalRewriteExecutes(c, d, j, k, unused);
    var e := RemainingStepsRun(c, m, unused, k, k);
    RunsPrefix(c, rest, m, e, |rest|);
    assert rest[..|rest|] == rest;
    ExecuteSplits(JournalWrite(c.plan, c.saved, Advanced(c), unused), rest, d);
    LastLayoutIsPromoted(c, e, unused, 8);
  }

  lemma SameNames(a: Directory, b: Directory)
    requires Observe(a) == Observe(b)
    ensures a.Keys == b.Keys
  {
    forall s ensures s in a <==> s in b {
      match s
      case Partial => case Checkpoint => case Resumed => case ResumedCheckpoint =>
      case Previous => case PreviousCheckpoint => case Promotion =>
    }
  }

  // Recovery acts only on layouts: whenever it performs anything on an arbitrary directory,
  // that directory is a layout of an authenticated case, at most with its journal lost or,
  // while the superseded checkpoint is the only old name left, with another file under it.
  lemma ActsOnlyOnLayouts(plan: Plan, files: map<Inode, Content>, dir: Directory, sight: Sight, unused: Inode)
    returns (c: Case, j: Inode, k: nat)
    requires PromotionProgram(plan, Disk(files, dir, []), sight, unused).Some?
    requires PromotionProgram(plan, Disk(files, dir, []), sight, unused).value != []
    ensures k <= 7 && c.plan == plan && Sees(c, dir, sight) && HoldsAdvanced(c, files)
    ensures k <= 5 ==> Holds(c, files) && (dir == Layout(c, j, k) || JournalLost(c, j, k, dir))
    ensures 1 <= k && Promotion in dir ==> JournalOf(c, files, j)
    ensures k == 6 ==>
              PreviousCheckpoint in dir && dir == Layout(c, j, 6)[PreviousCheckpoint := dir[PreviousCheckpoint]]
    ensures k == 7 ==> dir == Layout(c, j, 7)
  {
    var p := Observe(dir);
    j := if Promotion in dir then dir[Promotion] else 0;
    if !p.previous && !p.previousCheckpoint && !p.journal {
      var saved := Authenticate(plan, files, dir, (Partial, Checkpoint), sight.saved).value;
      var advanced := Authenticate(plan, files, dir, (Resumed, ResumedCheckpoint), sight.advanced).value;
      c, k := CaseOf(plan, files, saved, advanced), 0;
      SameNames(dir, Layout(c, j, 0));
      assert dir == Layout(c, j, 0);
    } else {
      var position := Classify(p).value;
      k := position.completed + 1;
      var advanced := Authenticate(plan, files, dir, position.advanced, sight.advanced).value;
      if position.saved.Some? {
        var saved := Authenticate(plan, files, dir, position.saved.value, sight.saved).value;
        c := CaseOf(plan, files, saved, advanced);
        SavedLayout(c, files, dir, j, position, sight);
      } else {
        var journal := ReadJournal(plan, files, dir, advanced).value;
        c := CaseOf(plan, files, Progress(journal.saved, 0, 0), advanced);
        SameNames(dir, Layout(c, j, k));
        if k == 6 {
          assert dir == Layout(c, j, 6)[PreviousCheckpoint := dir[PreviousCheckpoint]];
        } else {
          assert dir == Layout(c, j, 7);
        }
      }
    }
  }

  function SeenBy(files: map<Inode, Content>, checkpoint: Inode): Observations {
    if checkpoint in files && files[checkpoint].CheckpointFile? then files[checkpoint].seen else map[]
  }

  function CaseOf(plan: Plan, files: map<Inode, Content>, saved: Progress, advanced: Progress): Case {
    Case(plan, saved.pair, advanced.pair, saved.run, advanced.run, saved.captured, advanced.captured,
         SeenBy(files, saved.pair.checkpoint), SeenBy(files, advanced.pair.checkpoint))
  }

  lemma SavedLayout(c: Case, files: map<Inode, Content>, dir: Directory, j: Inode, position: Position, sight: Sight)
    requires Classify(Observe(dir)) == Some(position) && position.saved.Some?
    requires Promotion in dir ==> dir[Promotion] == j
    requires Authenticate(c.plan, files, dir, position.advanced, sight.advanced) == Some(Advanced(c))
    requires Authenticate(c.plan, files, dir, position.saved.value, sight.saved) == Some(Saved(c))
    ensures dir == Layout(c, j, position.completed + 1) || JournalLost(c, j, position.completed + 1, dir)
  {
    var k := position.completed + 1;
    var advanced, saved := position.advanced, position.saved.value;
    assert Pair(dir[advanced.0], dir[advanced.1]) == c.advanced && Pair(dir[saved.0], dir[saved.1]) == c.saved;
    if Promotion in dir {
      WithJournal(c, dir, j, position);
    } else {
      WithoutJournal(c, dir, j, position);
    }
  }

  // The names that hold the two pairs settle the layout.
  lemma WithJournal(c: Case, dir: Directory, j: Inode, position: Position)
    requires Classify(Observe(dir)) == Some(position) && position.saved.Some? && Promotion in dir && dir[Promotion] == j
    requires var a, s := position.advanced, position.saved.value;
      && a.0 in dir && a.1 in dir && Pair(dir[a.0], dir[a.1]) == c.advanced
      && s.0 in dir && s.1 in dir && Pair(dir[s.0], dir[s.1]) == c.saved
    ensures dir == Layout(c, j, position.completed + 1)
  {
    SameNames(dir, Layout(c, j, position.completed + 1));
  }

  lemma WithoutJournal(c: Case, dir: Directory, j: Inode, position: Position)
    requires Classify(Observe(dir)) == Some(position) && position.saved.Some? && Promotion !in dir
    requires var a, s := position.advanced, position.saved.value;
      && a.0 in dir && a.1 in dir && Pair(dir[a.0], dir[a.1]) == c.advanced
      && s.0 in dir && s.1 in dir && Pair(dir[s.0], dir[s.1]) == c.saved
    ensures JournalLost(c, j, position.completed + 1, dir)
  {
    SameNames(dir, Layout(c, j, position.completed + 1) - {Promotion});
  }
}
