// Promotion as it runs: one process that renames, removes and synchronizes until it is done,
// finds something it did not authenticate, or stops.
module PromotionEngine {
  import opened Outcomes
  import opened PackPromotion
  import opened PromotionRecovery

  datatype Failure = Interrupted | Changed | Ambiguous | Unauthenticated | Regressed

  class PackDirectory {
    var disk: Disk
    // Operations that still succeed before an input/output error or a crash.
    var power: nat
    // The operation that fails takes effect all the same.
    const late: bool
    ghost var trace: seq<Instr>
    ghost const origin: Disk
    // What this process had to spend.
    ghost const budget: nat

    ghost predicate Valid()
      reads this
    {
      Execute(trace, origin) == Some(disk) && Changes(disk.pending, disk.durable).Some? && budget <= |trace| + power
    }

    constructor (disk: Disk, power: nat, late: bool)
      requires Changes(disk.pending, disk.durable).Some?
      ensures Valid() && this.disk == disk && this.power == power && this.late == late
      ensures trace == [] && origin == disk && budget == power
    {
      this.disk, this.power, this.late := disk, power, late;
      trace, origin, budget := [], disk, power;
    }

    ghost predicate Took(i: Instr, before: Disk, was: seq<Instr>)
      reads this
    {
      Apply(i, before) == Some(disk) && trace == was + [i]
    }

    // An operation that fails leaves everything as it was, or has taken effect.
    method Perform(i: Instr) returns (r: Result<bool, Failure>)
      requires Valid()
      modifies this
      ensures Valid()
      ensures r.Ok? ==> Took(i, old(disk), old(trace))
      ensures r.Err? ==> Took(i, old(disk), old(trace)) || (disk == old(disk) && trace == old(trace))
      ensures r.Err? ==> power == 0 || Apply(i, old(disk)).None?
    {
      var next := Apply(i, disk);
      if power == 0 && (next.None? || !late) {
        return Err(Interrupted);
      }
      if next.None? {
        return Err(Changed);
      }
      ExecuteSplits(trace, [i], origin);
      assert [i][1..] == [];
      r := if power == 0 then Err(Interrupted) else Ok(true);
      disk, power := next.value, if power == 0 then 0 else power - 1;
      trace := trace + [i];
    }

    // One directory operation and the synchronization that makes it durable.
    method Advance(op: Op) returns (r: Result<bool, Failure>)
      requires Valid()
      modifies this
      ensures Valid()
      ensures old(trace) <= trace <= old(trace) + [Do(op), Sync]
      ensures r.Ok? ==> trace == old(trace) + [Do(op), Sync]
      ensures Ended(r, power, Execute([Do(op), Sync], old(disk)), disk)
    {
      TwoExecute(Do(op), Sync, disk);
      r := Perform(Do(op));
      if r.Ok? {
        r := Perform(Sync);
      }
    }

    method WritePromotionJournal(plan: Plan, saved: Pair, advanced: Progress, unused: Inode)
      returns (r: Result<bool, Failure>)
      requires Valid()
      modifies this
      ensures Valid()
      ensures old(trace) <= trace <= old(trace) + JournalWrite(plan, saved, advanced, unused)
      ensures r.Ok? ==> trace == old(trace) + JournalWrite(plan, saved, advanced, unused)
      ensures Ended(r, power, Execute(JournalWrite(plan, saved, advanced, unused), old(disk)), disk)
    {
      JournalExecutes(plan, saved, advanced, unused, disk);
      r := Perform(Create(unused, JournalFile(advanced.run, plan.hash, saved, advanced.pair)));
      if r.Ok? {
        r := Perform(Sync);
        if r.Ok? {
          r := Advance(Link(unused));
        }
      }
    }

    method AdvanceStep(i: nat, op: Op, ghost steps: seq<Op>, ghost start: seq<Instr>, ghost d: Disk,
                       ghost program: seq<Instr>)
      returns (r: Result<bool, Failure>)
      requires Valid() && i < |steps| && op == steps[i]
      requires Going(Ok(true), steps, i, start, trace, program, d, disk, power)
      modifies this
      ensures Valid()
      ensures Going(r, steps, i + 1, start, trace, program, d, disk, power)
    {
      ghost var before, was := trace, disk;
      r := Advance(op);
      OneMore(steps, i, start, before, trace, program);
      OneMoreExecutes(steps, i, was);
    }

    // The moves not yet done, from the `completed` one on.
    method MoveFiles(saved: Pair, advanced: Pair, completed: nat, ghost steps: seq<Op>, ghost start: seq<Instr>,
                     ghost d: Disk, ghost program: seq<Instr>, ghost journal: Inode)
      returns (r: Result<bool, Failure>, done: nat)
      requires Valid() && completed <= 6 && steps == Steps(saved, advanced, journal)
      requires Going(Ok(true), steps, completed + 1, start, trace, program, d, disk, power)
      modifies this
      ensures Valid() && done <= 6 && (r.Ok? ==> 4 <= done)
      ensures Going(r, steps, done + 1, start, trace, program, d, disk, power)
    {
      var moves := Moves(saved, advanced);
      r := Ok(true);
      done := completed;
      while done < 4 && r.Ok?
        invariant Valid() && completed <= done <= 6
        invariant Going(r, steps, done + 1, start, trace, program, d, disk, power)
        decreases 4 - done, r.Ok?
      {
        var (from, to, expected) := moves[done];
        MoveAt(saved, advanced, journal, done);
        r := AdvanceStep(done + 1, Move(from, to, expected), steps, start, d, program);
        done := done + 1;
      }
    }

    // The removals not yet done.
    method RemoveFiles(saved: Pair, moved: nat, ghost advanced: Pair, ghost steps: seq<Op>, ghost start: seq<Instr>,
                       ghost d: Disk, ghost program: seq<Instr>, ghost journal: Inode)
      returns (r: Result<bool, Failure>, done: nat)
      requires Valid() && 4 <= moved <= 6 && steps == Steps(saved, advanced, journal)
      requires Going(Ok(true), steps, moved + 1, start, trace, program, d, disk, power)
      modifies this
      ensures Valid() && done <= 6 && (r.Ok? ==> done == 6)
      ensures Going(r, steps, done + 1, start, trace, program, d, disk, power)
    {
      var removals := [(Previous, saved.partial), (PreviousCheckpoint, saved.checkpoint)];
      r := Ok(true);
      done := moved;
      while done < 6 && r.Ok?
        invariant Valid() && 4 <= done <= 6
        invariant Going(r, steps, done + 1, start, trace, program, d, disk, power)
        decreases 6 - done, r.Ok?
      {
        var (slot, expected) := removals[done - 4];
        assert steps[done + 1] == Remove(slot, expected);
        r := AdvanceStep(done + 1, Remove(slot, expected), steps, start, d, program);
        done := done + 1;
      }
    }

    // The four moves, the two removals and the journal's removal, without the first
    // `completed` of them.
    method ContinuePromotion(saved: Pair, advanced: Pair, journal: Inode, completed: nat)
      returns (r: Result<bool, Failure>)
      requires Valid() && completed <= 6
      modifies this
      ensures Valid()
      ensures var program := Synced(Steps(saved, advanced, journal)[completed + 1..]);
        && old(trace) <= trace <= old(trace) + program
        && (r.Ok? ==> trace == old(trace) + program)
        && Ended(r, power, Execute(program, old(disk)), disk)
    {
      ghost var steps := Steps(saved, advanced, journal);
      ghost var program := Synced(steps[completed + 1..]);
      ghost var start, d := trace, disk;
      var done;
      r, done := MoveFiles(saved, advanced, completed, steps, start, d, program, journal);
      if r.Ok? {
        r, done := RemoveFiles(saved, done, advanced, steps, start, d, program, journal);
      }
      if r.Ok? {
        r := AdvanceStep(7, Remove(Promotion, journal), steps, start, d, program);
        assert Synced(steps[8..]) == [];
      }
    }

    // What a resumed Pack does when it has paused again: its own new pair is authenticated.
    method PromotePaused(plan: Plan, saved: Pair, now: Observations, unused: Inode) returns (r: Result<bool, Failure>)
      requires Valid()
      modifies this
      ensures Valid()
      ensures var program := PausingProgram(plan, old(disk), saved, now, unused);
        if program.None? then r.Err? && trace == old(trace) && disk == old(disk)
        else && old(trace) <= trace <= old(trace) + program.value
             && (r.Ok? ==> trace == old(trace) + program.value)
             && Ended(r, power, Execute(program.value, old(disk)), disk)
    {
      var directory := Changes(disk.pending, disk.durable).value;
      var advanced := Authenticate(plan, disk.files, directory, (Resumed, ResumedCheckpoint), now);
      if advanced.None? {
        return Err(Unauthenticated);
      }
      r := JournalThenContinue(plan, saved, advanced.value, unused, 0);
    }

    // Recovers whatever an earlier process left, without touching an ambiguous directory.
    method ResumePromotion(plan: Plan, sight: Sight, unused: Inode) returns (r: Result<bool, Failure>)
      requires Valid()
      modifies this
      ensures Valid()
      ensures var program := PromotionProgram(plan, old(disk), sight, unused);
        if program.None? then r.Err? && trace == old(trace) && disk == old(disk)
        else && old(trace) <= trace <= old(trace) + program.value
             && (r.Ok? ==> trace == old(trace) + program.value)
             && Ended(r, power, Execute(program.value, old(disk)), disk)
      // With enough operations left it fails only where the program cannot be executed.
      ensures var program := PromotionProgram(plan, old(disk), sight, unused);
        program.Some? && Execute(program.value, old(disk)).Some? && |old(trace)| + |program.value| < budget ==> r.Ok?
    {
      var directory := Changes(disk.pending, disk.durable).value;
      var state := Observe(directory);
      if !state.previous && !state.previousCheckpoint && !state.journal {
        r := PromoteUnjournalled(plan, sight, unused, directory);
      } else {
        r := ReconcileInterruptedPromotion(plan, sight, unused, directory);
      }
    }

    method PromoteUnjournalled(plan: Plan, sight: Sight, unused: Inode, directory: Directory)
      returns (r: Result<bool, Failure>)
      requires Valid()
      modifies this
      ensures Valid()
      ensures Resumed !in directory ==> r.Ok? && trace == old(trace) && disk == old(disk)
      ensures Resumed in directory ==>
        var program := UnjournalledProgram(plan, old(disk).files, directory, sight, unused);
        if program.None? then r.Err? && trace == old(trace) && disk == old(disk)
        else && old(trace) <= trace <= old(trace) + program.value
             && (r.Ok? ==> trace == old(trace) + program.value)
             && Ended(r, power, Execute(program.value, old(disk)), disk)
    {
      if Resumed !in directory {
        return Ok(true);
      }
      var saved := Authenticate(plan, disk.files, directory, (Partial, Checkpoint), sight.saved);
      var advanced := Authenticate(plan, disk.files, directory, (Resumed, ResumedCheckpoint), sight.advanced);
      if saved.None? || advanced.None? {
        return Err(Unauthenticated);
      }
      if advanced.value.captured < saved.value.captured {
        return Err(Regressed);
      }
      r := JournalThenContinue(plan, saved.value.pair, advanced.value, unused, 0);
    }

    method JournalThenContinue(plan: Plan, saved: Pair, advanced: Progress, unused: Inode, completed: nat)
      returns (r: Result<bool, Failure>)
      requires Valid() && completed <= 6
      modifies this
      ensures Valid()
      ensures var program := JournalWrite(plan, saved, advanced, unused)
                             + Synced(Steps(saved, advanced.pair, unused)[completed + 1..]);
        && old(trace) <= trace <= old(trace) + program
        && (r.Ok? ==> trace == old(trace) + program)
        && Ended(r, power, Execute(program, old(disk)), disk)
    {
      ghost var journal, rest := JournalWrite(plan, saved, advanced, unused),
                                 Synced(Steps(saved, advanced.pair, unused)[completed + 1..]);
      Associate(old(trace), journal, rest);
      if Execute(journal, disk).Some? { ExecuteSplits(journal, rest, disk); } else { NoneSplits(journal, rest, disk); }
      r := WritePromotionJournal(plan, saved, advanced, unused);
      if r.Ok? {
        r := ContinuePromotion(saved, advanced.pair, unused, completed);
      }
    }

    method ReconcileInterruptedPromotion(plan: Plan, sight: Sight, unused: Inode, directory: Directory)
      returns (r: Result<bool, Failure>)
      requires Valid()
      modifies this
      ensures Valid()
      ensures var program := ReconcileProgram(plan, old(disk).files, directory, sight, unused);
        if program.None? then r.Err? && trace == old(trace) && disk == old(disk)
        else && old(trace) <= trace <= old(trace) + program.value
             && (r.Ok? ==> trace == old(trace) + program.value)
             && Ended(r, power, Execute(program.value, old(disk)), disk)
    {
      var position := Classify(Observe(directory));
      if position.None? {
        return Err(Ambiguous);
      }
      var advanced := Authenticate(plan, disk.files, directory, position.value.advanced, sight.advanced);
      var saved := if position.value.saved.Some?
                   then Authenticate(plan, disk.files, directory, position.value.saved.value, sight.saved) else None;
      if advanced.None? || (position.value.saved.Some? && saved.None?) {
        return Err(Unauthenticated);
      }
      if saved.Some? && advanced.value.captured < saved.value.captured {
        return Err(Regressed);
      }
      if Promotion in directory {
        var journal := ReadJournal(plan, disk.files, directory, advanced.value);
        if journal.None? || journal.value.advanced != advanced.value.pair
           || (saved.Some? && saved.value.pair != journal.value.saved) {
          return Err(Unauthenticated);
        }
        r := ContinuePromotion(journal.value.saved, journal.value.advanced, directory[Promotion],
                               position.value.completed);
      } else if saved.None? {
        r := Err(Unauthenticated);
      } else {
        r := JournalThenContinue(plan, saved.value.pair, advanced.value, unused, position.value.completed);
      }
    }
  }

  function Moves(saved: Pair, advanced: Pair): (r: seq<(Slot, Slot, Inode)>)
    ensures |r| == 4
  {
    [ (Partial, Previous, saved.partial),
      (Checkpoint, PreviousCheckpoint, saved.checkpoint),
      (Resumed, Partial, advanced.partial),
      (ResumedCheckpoint, Checkpoint, advanced.checkpoint) ]
  }

  lemma MoveAt(saved: Pair, advanced: Pair, journal: Inode, i: nat)
    requires i < 4
    ensures var (from, to, expected) := Moves(saved, advanced)[i];
      Steps(saved, advanced, journal)[i + 1] == Move(from, to, expected)
  {
  }

  // The first i steps are behind: what is left of the program is what the steps after them say.
  ghost predicate Going(r: Result<bool, Failure>, steps: seq<Op>, i: nat, start: seq<Instr>, now: seq<Instr>,
                        program: seq<Instr>, d: Disk, disk: Disk, power: nat)
    requires i <= |steps|
  {
    && start <= now <= start + program
    && if r.Ok?
       then now + Synced(steps[i..]) == start + program && Execute(program, d) == Execute(Synced(steps[i..]), disk)
       else power == 0 || Execute(program, d).None?
  }

  // A process that succeeds has executed its whole program; one that fails has run out of
  // power, or its program cannot be executed here.
  ghost predicate Ended(r: Result<bool, Failure>, power: nat, done: Option<Disk>, now: Disk) {
    if r.Ok? then done == Some(now) else power == 0 || done.None?
  }

  lemma {:induction false} TwoExecute(x: Instr, y: Instr, d: Disk)
    ensures Execute([x, y], d) == if Apply(x, d).None? then None else Apply(y, Apply(x, d).value)
  {
    assert [x, y][1..] == [y] && [y][1..] == [];
    if Apply(x, d).Some? {
      assert Execute([y], Apply(x, d).value) == Apply(y, Apply(x, d).value);
    }
  }

  lemma {:induction false} JournalExecutes(plan: Plan, saved: Pair, advanced: Progress, unused: Inode, d: Disk)
    ensures var create := Create(unused, JournalFile(advanced.run, plan.hash, saved, advanced.pair));
      Execute(JournalWrite(plan, saved, advanced, unused), d)
      == if Apply(create, d).None? then None
         else if Apply(Sync, Apply(create, d).value).None? then None
         else Execute([Do(Link(unused)), Sync], Apply(Sync, Apply(create, d).value).value)
  {
    var program := JournalWrite(plan, saved, advanced, unused);
    assert program[1..][0] == Sync && program[1..][1..] == [Do(Link(unused)), Sync];
  }

  lemma {:induction false} NoneSplits(a: seq<Instr>, b: seq<Instr>, d: Disk)
    requires Execute(a, d).None?
    ensures Execute(a + b, d).None?
  {
    assert (a + b)[0] == a[0] && (a + b)[1..] == a[1..] + b;
    if Apply(a[0], d).Some? {
      NoneSplits(a[1..], b, Apply(a[0], d).value);
    }
  }

  lemma {:induction false} OneMoreExecutes(steps: seq<Op>, i: nat, d: Disk)
    requires i < |steps|
    ensures var one := Execute([Do(steps[i]), Sync], d);
      Execute(Synced(steps[i..]), d) == if one.None? then None else Execute(Synced(steps[i + 1..]), one.value)
  {
    assert steps[i..][0] == steps[i] && steps[i..][1..] == steps[i + 1..];
    var one := [Do(steps[i]), Sync];
    if Execute(one, d).Some? {
      ExecuteSplits(one, Synced(steps[i + 1..]), d);
    } else {
      NoneSplits(one, Synced(steps[i + 1..]), d);
    }
  }

  lemma OneMore(steps: seq<Op>, i: nat, start: seq<Instr>, before: seq<Instr>, now: seq<Instr>, program: seq<Instr>)
    requires i < |steps| && start <= before <= now <= before + [Do(steps[i]), Sync]
    requires before + Synced(steps[i..]) == start + program
    ensures start <= now <= start + program
    ensures now == before + [Do(steps[i]), Sync] ==> now + Synced(steps[i + 1..]) == start + program
  {
    assert steps[i..][0] == steps[i] && steps[i..][1..] == steps[i + 1..];
    assert start + program == (before + [Do(steps[i]), Sync]) + Synced(steps[i + 1..]);
  }

  lemma Associate(a: seq<Instr>, b: seq<Instr>, c: seq<Instr>)
    ensures a + b + c == a + (b + c)
  {
  }
}
