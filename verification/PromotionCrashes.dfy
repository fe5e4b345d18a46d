// Power failures while any number of a promotion's operations are outstanding: which of them can
// survive together, and from which survivors recovery still completes the promotion.
module PromotionCrashes {
  import opened Outcomes
  import opened PackPromotion
  import opened PromotionRecovery

  // ---- What a set of operations makes of the directory ----

  // Which of the eight operations have taken effect.
  type Effects = e: seq<bool> | |e| == 8 witness [false, false, false, false, false, false, false, false]

  // A name is free, or holds its file, only after the operation that makes it so: both partial
  // moves depend on the saved partial's, both checkpoint moves on the saved checkpoint's, and the
  // removals on what put the file there.
  predicate Possible(e: Effects) {
    (e[3] ==> e[1]) && (e[4] ==> e[2]) && (e[5] ==> e[1]) && (e[6] ==> e[2]) && (e[7] ==> e[0])
  }

  // What a name then holds.
  function Held(c: Case, j: Inode, e: Effects, s: Slot): Option<Inode> {
    match s
    case Partial => if e[3] then Some(c.advanced.partial) else if e[1] then None else Some(c.saved.partial)
    case Checkpoint => if e[4] then Some(c.advanced.checkpoint) else if e[2] then None else Some(c.saved.checkpoint)
    case Resumed => if e[3] then None else Some(c.advanced.partial)
    case ResumedCheckpoint => if e[4] then None else Some(c.advanced.checkpoint)
    case Previous => if e[1] && !e[5] then Some(c.saved.partial) else None
    case PreviousCheckpoint => if e[2] && !e[6] then Some(c.saved.checkpoint) else None
    case Promotion => if e[0] && !e[7] then Some(j) else None
  }

  function Left(c: Case, j: Inode, e: Effects): Directory {
    map s: Slot | Held(c, j, e, s).Some? :: Held(c, j, e, s).value
  }

  function FirstOnes(n: nat): Effects
    requires n <= 8
  {
    seq(8, i => i < n)
  }

  lemma LayoutIsLeft(c: Case, j: Inode, k: nat)
    requires k <= 8
    ensures Left(c, j, FirstOnes(k)) == Layout(c, j, k)
  {
    var e := FirstOnes(k);
    forall s: Slot
      ensures s in Layout(c, j, k) <==> Held(c, j, e, s).Some?
      ensures s in Layout(c, j, k) ==> Layout(c, j, k)[s] == Held(c, j, e, s).value
    {
      match s
      case Partial => case Checkpoint => case Resumed => case ResumedCheckpoint =>
      case Previous => case PreviousCheckpoint => case Promotion =>
    }
  }

  // What an operation leaves under a name.
  lemma Renamed(c: Case, j: Inode, e: Effects, from: Slot, to: Slot, expected: Inode, f: Effects)
    requires Held(c, j, e, from) == Some(expected) && Held(c, j, e, to).None? && from != to
    requires Held(c, j, f, from).None? && Held(c, j, f, to) == Some(expected)
    requires forall s: Slot | s != from && s != to :: Held(c, j, f, s) == Held(c, j, e, s)
    ensures Change(Move(from, to, expected), Left(c, j, e)) == Some(Left(c, j, f))
  {
    assert (Left(c, j, e) - {from})[to := expected] == Left(c, j, f);
  }

  lemma Removed(c: Case, j: Inode, e: Effects, slot: Slot, expected: Inode, f: Effects)
    requires Held(c, j, e, slot) == Some(expected) && Held(c, j, f, slot).None?
    requires forall s: Slot | s != slot :: Held(c, j, f, s) == Held(c, j, e, s)
    ensures Change(Remove(slot, expected), Left(c, j, e)) == Some(Left(c, j, f))
  {
    assert Left(c, j, e) - {slot} == Left(c, j, f);
  }

  lemma Linked(c: Case, j: Inode, e: Effects, f: Effects)
    requires Held(c, j, e, Promotion).None? && Held(c, j, f, Promotion) == Some(j)
    requires forall s: Slot | s != Promotion :: Held(c, j, f, s) == Held(c, j, e, s)
    ensures Change(Link(j), Left(c, j, e)) == Some(Left(c, j, f))
  {
    assert Left(c, j, e)[Promotion := j] == Left(c, j, f);
  }

  // One more operation, when no later one has taken effect.
  lemma OneMoreEffect(c: Case, j: Inode, e: Effects, i: nat)
    requires i < 8 && Possible(e) && forall k | i <= k < 8 :: !e[k]
    ensures Change(Steps(c.saved, c.advanced, j)[i], Left(c, j, e))
         == if Possible(e[i := true]) then Some(Left(c, j, e[i := true])) else None
  {
    var f := e[i := true];
    if Possible(f) {
      match i
      case 0 => Linked(c, j, e, f);
      case 1 => Renamed(c, j, e, Partial, Previous, c.saved.partial, f);
      case 2 => Renamed(c, j, e, Checkpoint, PreviousCheckpoint, c.saved.checkpoint, f);
      case 3 => Renamed(c, j, e, Resumed, Partial, c.advanced.partial, f);
      case 4 => Renamed(c, j, e, ResumedCheckpoint, Checkpoint, c.advanced.checkpoint, f);
      case 5 => Removed(c, j, e, Previous, c.saved.partial, f);
      case 6 => Removed(c, j, e, PreviousCheckpoint, c.saved.checkpoint, f);
      case 7 => Removed(c, j, e, Promotion, j, f);
    }
  }

  // ---- What a power failure keeps ----

  // The effects after the operations from `i` to `hi`, of which the marked ones survive.
  function Surviving(e: Effects, i: nat, hi: nat, kept: seq<bool>): Effects
    requires i <= hi <= 8
    decreases hi - i
  {
    if i == hi || kept == [] then e else Surviving(e[i := kept[0]], i + 1, hi, kept[1..])
  }

  lemma {:induction false} SurvivingAt(e: Effects, i: nat, hi: nat, kept: seq<bool>, k: nat)
    requires i <= hi <= 8 && k < 8
    ensures Surviving(e, i, hi, kept)[k] == if i <= k < hi && k - i < |kept| then kept[k - i] else e[k]
    decreases hi - i
  {
    if i < hi && kept != [] {
      SurvivingAt(e[i := kept[0]], i + 1, hi, kept[1..], k);
    }
  }

  // An operation that depends on a lost one makes the whole impossible.
  lemma {:induction false} ImpossibleStays(e: Effects, i: nat, hi: nat, kept: seq<bool>)
    requires i <= hi <= 8 && !Possible(e) && forall k | i <= k < 8 :: !e[k]
    ensures !Possible(Surviving(e, i, hi, kept))
  {
    forall k: nat | k < i ensures Surviving(e, i, hi, kept)[k] == e[k] {
      SurvivingAt(e, i, hi, kept, k);
    }
  }

  lemma {:induction false} SurvivorsLead(c: Case, j: Inode, e: Effects, i: nat, hi: nat, kept: seq<bool>)
    requires i <= hi <= 8 && Possible(e) && forall k | i <= k < 8 :: !e[k]
    ensures Changes(Survivors(Steps(c.saved, c.advanced, j)[i..hi], kept), Left(c, j, e))
         == if Possible(Surviving(e, i, hi, kept)) then Some(Left(c, j, Surviving(e, i, hi, kept))) else None
    decreases hi - i
  {
    var steps := Steps(c.saved, c.advanced, j);
    if i < hi && kept != [] {
      var f := e[i := kept[0]];
      assert steps[i..hi][0] == steps[i] && steps[i..hi][1..] == steps[i + 1..hi];
      OneMoreEffect(c, j, e, i);
      if kept[0] {
        KeepsOne(steps[i], Survivors(steps[i + 1..hi], kept[1..]), Left(c, j, e));
      } else {
        assert f == e;
        assert [] + Survivors(steps[i + 1..hi], kept[1..]) == Survivors(steps[i + 1..hi], kept[1..]);
      }
      if Possible(f) {
        SurvivorsLead(c, j, f, i + 1, hi, kept[1..]);
      } else {
        ImpossibleStays(f, i + 1, hi, kept[1..]);
      }
    }
  }

  lemma {:induction false} KeepsOne(op: Op, rest: seq<Op>, d: Directory)
    ensures Changes([op] + rest, d) == if Change(op, d).None? then None else Changes(rest, Change(op, d).value)
  {
    assert ([op] + rest)[0] == op && ([op] + rest)[1..] == rest;
  }

  // The effects of the first `lo` operations and of the surviving ones after them.
  function AfterCrash(lo: nat, hi: nat, kept: seq<bool>): Effects
    requires lo <= hi <= 8
  {
    seq(8, k => k < lo || (k < hi && k - lo < |kept| && kept[k - lo]))
  }

  lemma CrashLeaves(c: Case, d: Disk, j: Inode, lo: nat, hi: nat, kept: seq<bool>)
    requires Tracked(c, d, j, lo, hi)
    ensures Crash(d, kept).Some? <==> Possible(AfterCrash(lo, hi, kept))
    ensures Crash(d, kept).Some? ==> Crash(d, kept).value == Disk(d.files, Left(c, j, AfterCrash(lo, hi, kept)), [])
  {
    LayoutIsLeft(c, j, lo);
    forall k: nat | k < 8 ensures Surviving(FirstOnes(lo), lo, hi, kept)[k] == AfterCrash(lo, hi, kept)[k] {
      SurvivingAt(FirstOnes(lo), lo, hi, kept, k);
    }
    assert Surviving(FirstOnes(lo), lo, hi, kept) == AfterCrash(lo, hi, kept);
    SurvivorsLead(c, j, FirstOnes(lo), lo, hi, kept);
  }

  // ---- From what is left recovery completes the promotion ----

  // The moves and removals that have taken effect are the first ones. If the journal is gone, the
  // saved pair must not be half removed.
  predicate Recoverable(e: Effects) {
    && (e[2] ==> e[1]) && (e[3] ==> e[2]) && (e[4] ==> e[3]) && (e[5] ==> e[4]) && (e[6] ==> e[5])
    && ((e[0] && !e[7]) || e[5] == e[6])
  }

  ghost predicate Completes(c: Case, d: Disk, sight: Sight, unused: Inode) {
    var program := PromotionProgram(c.plan, d, sight, unused);
    program.Some? && Execute(program.value, d).Some? && Promoted(c, Execute(program.value, d).value)
  }

  lemma {:induction false} TrackedCompletes(c: Case, d: Disk, sight: Sight, unused: Inode)
    requires OnTrack(c, d) && unused !in d.files && d.pending == []
    ensures Completes(c, d, sight, unused) <==> Sees(c, d.durable, sight)
  {
    var e := RecoveryRuns(c, d, sight, unused);
    if Sees(c, d.durable, sight) {
      var program := PromotionProgram(c.plan, d, sight, unused).value;
      RunsPrefix(c, program, d, e, |program|);
      assert program[..|program|] == program;
    }
  }

  // How many of the moves and removals have taken effect.
  function Moved(e: Effects): nat {
    if e[6] then 6 else if e[5] then 5 else if e[4] then 4 else if e[3] then 3 else if e[2] then 2
    else if e[1] then 1 else 0
  }

  lemma RecoverableIsLayout(c: Case, j: Inode, e: Effects)
    requires Possible(e) && Recoverable(e)
    ensures e[0] && !e[7] ==> Left(c, j, e) == Layout(c, j, Moved(e) + 1)
    ensures !(e[0] && !e[7]) && Moved(e) == 0 ==> Left(c, j, e) == Layout(c, j, 0)
    ensures !(e[0] && !e[7]) && Moved(e) == 6 ==> Left(c, j, e) == Layout(c, j, 8)
    ensures !(e[0] && !e[7]) && 0 < Moved(e) < 6 ==> JournalLost(c, j, Moved(e) + 1, Left(c, j, e))
  {
    var journal := e[0] && !e[7];
    var k := if journal then Moved(e) + 1 else if Moved(e) == 0 then 0 else if Moved(e) == 6 then 8 else Moved(e) + 1;
    LayoutIsLeft(c, j, k);
    var f := FirstOnes(k);
    forall s: Slot | s != Promotion ensures Held(c, j, e, s) == Held(c, j, f, s) {
      match s
      case Partial => case Checkpoint => case Resumed => case ResumedCheckpoint =>
      case Previous => case PreviousCheckpoint =>
    }
    if !journal && 0 < Moved(e) < 6 {
      assert Left(c, j, e) == Left(c, j, f) - {Promotion};
    } else {
      assert Left(c, j, e) == Left(c, j, f);
    }
  }

  lemma NamesLeft(c: Case, j: Inode, e: Effects)
    ensures Observe(Left(c, j, e)) == Presence(e[3] || !e[1], e[4] || !e[2], !e[3], !e[4], e[1] && !e[5], e[2] && !e[6],
                                               e[0] && !e[7])
  {
  }

  // Anything else is refused, or taken for a state with nothing to promote.
  lemma OtherwiseStuck(c: Case, d: Disk, j: Inode, e: Effects, sight: Sight, unused: Inode)
    requires Possible(e) && !Recoverable(e) && d.durable == Left(c, j, e) && d.pending == []
    ensures !Completes(c, d, sight, unused)
    ensures PromotionProgram(c.plan, d, sight, unused).Some? ==> PromotionProgram(c.plan, d, sight, unused).value == []
  {
    NamesLeft(c, j, e);
    var p := Observe(d.durable);
    assert Changes(d.pending, d.durable) == Some(d.durable);
    if p.previous || p.previousCheckpoint || p.journal {
      assert Classify(p).None?;
    } else if p.resumed {
      assert !p.partial || !p.checkpoint || !p.resumedCheckpoint;
    } else {
      assert !p.checkpoint || p.resumedCheckpoint;
      assert Execute([], d) == Some(d);
    }
  }

  // The exact boundary. With any number of operations outstanding, a power failure can keep exactly
  // the sets of them that are possible, and afterwards a recovery completes the promotion if and
  // only if the surviving moves and removals are the first ones, the saved pair is not half removed
  // without a journal, and the recovery sees the files as the checkpoints it still needs recorded
  // them. From any other set it performs nothing.
  lemma {:induction false} PendingBoundary(c: Case, d: Disk, j: Inode, lo: nat, hi: nat, kept: seq<bool>, sight: Sight,
                                           unused: Inode)
    requires Tracked(c, d, j, lo, hi) && unused !in d.files
    ensures var e := AfterCrash(lo, hi, kept);
      && (Crash(d, kept).Some? <==> Possible(e))
      && (Crash(d, kept).Some? ==>
            (Completes(c, Crash(d, kept).value, sight, unused) <==>
              Recoverable(e) && Sees(c, Crash(d, kept).value.durable, sight)))
      && (Crash(d, kept).Some? && !Recoverable(e) ==>
            var program := PromotionProgram(c.plan, Crash(d, kept).value, sight, unused);
            program.Some? ==> program.value == [])
  {
    CrashLeaves(c, d, j, lo, hi, kept);
    var e := AfterCrash(lo, hi, kept);
    if Possible(e) {
      var after := Crash(d, kept).value;
      if !Recoverable(e) {
        OtherwiseStuck(c, after, j, e, sight, unused);
      } else {
        if hi == 0 {
          assert e == FirstOnes(0);
        }
        RecoverableCompletes(c, after, j, e, sight, unused);
      }
    }
  }

  lemma {:induction false} RecoverableCompletes(c: Case, d: Disk, j: Inode, e: Effects, sight: Sight, unused: Inode)
    requires Possible(e) && Recoverable(e) && d.durable == Left(c, j, e) && d.pending == [] && unused !in d.files
    requires Holds(c, d.files) && (JournalOf(c, d.files, j) || e == FirstOnes(0))
    ensures Completes(c, d, sight, unused) <==> Sees(c, d.durable, sight)
  {
    RecoverableIsLayout(c, j, e);
    var k := Moved(e);
    if e[0] && !e[7] {
      assert Tracked(c, d, j, k + 1, k + 1);
      TrackedCompletes(c, d, sight, unused);
    } else if k == 0 {
      assert Tracked(c, d, j, 0, 0);
      TrackedCompletes(c, d, sight, unused);
    } else if k == 6 {
      assert Tracked(c, d, j, 8, 8);
      TrackedCompletes(c, d, sight, unused);
    } else {
      LostJournalRecovers(c, d, j, k + 1, sight, unused);
    }
  }
}
