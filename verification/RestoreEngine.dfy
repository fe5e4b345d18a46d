// The Restore transaction as it runs: one process that performs file operations until it
// finishes, is cancelled, finds an unexpected state, or loses the ability to go on.
module RestoreEngine {
  import opened Outcomes
  import opened RestoreJournal
  import opened RestoreRecovery

  datatype Failure = Interrupted | AlreadyExists | Invalid

  datatype Outcome = Complete | Paused

  ghost predicate Ready(t: Transaction, d: Disk, v: nat)
    requires WellFormed(t)
  {
    Placed(t, d, v) && !d.control.value.partial
  }

  // Where a cancelled Restore stops: the first `n` entries are visible, the others staged, and the
  // journal says so.
  ghost predicate PausedAt(t: Transaction, d: Disk, n: nat)
    requires WellFormed(t)
  {
    Ready(t, d, n) && d.control.value.journal == Some(Authenticated(t, if n == 0 then Staged else Publishing, n, None))
  }

  // A cancellation is noticed after staging or after one of the entries.
  predicate IsNoticed(t: Transaction, stopAfter: Option<nat>) {
    stopAfter.Some? && stopAfter.value <= |t.names|
  }

  // Publication looks for a cancellation only after an entry.
  function FirstCheck(n: nat): nat {
    if n == 0 then 1 else n
  }

  function MoveOne(t: Transaction, i: nat): seq<Op>
    requires i < |t.names|
  {
    JournalWrite(t, Publishing, i, Some(i)) + [Publish(t.names[i])]
  }

  // The operations after which an error still removes the transaction control.
  function FirstIntent(t: Transaction): seq<Op> {
    if t.names == [] then [] else JournalWrite(t, Publishing, 0, Some(0))
  }

  function WithdrawOne(t: Transaction, i: nat): seq<Op>
    requires i < |t.names|
  {
    JournalWrite(t, RollingBack, i + 1, Some(i)) + [Withdraw(t.names[i])]
  }

  function Discard(d: Disk): seq<Op>
    requires d.control.Some?
  {
    if d.control.value.partial then [DiscardPartial] else []
  }

  // What a fresh Restore may have done when an error still removes its control directory.
  function BeforePublication(t: Transaction, contents: seq<map<Name, Entry>>): seq<Op> {
    [CreateControl] + (Materialize(t, contents) + FirstIntent(t))
  }

  lemma Associate(a: seq<Op>, b: seq<Op>, c: seq<Op>)
    ensures a + b + c == a + (b + c)
  {
  }

  lemma PrefixOfRest(before: seq<Op>, now: seq<Op>, one: seq<Op>, rest: seq<Op>)
    requires now <= before + one
    ensures now <= before + (one + rest)
  {
    assert before + (one + rest) == (before + one) + rest;
  }

  lemma Advance(t: Transaction, start: seq<Op>, before: seq<Op>, now: seq<Op>, i: nat)
    requires i < |t.names| && start <= before <= now <= before + PublishOne(t, i)
    requires before + PublishFrom(t, i) == start + PublishFrom(t, 0)
    ensures start <= now <= start + PublishFrom(t, 0)
    ensures now == before + PublishOne(t, i) ==> now + PublishFrom(t, i + 1) == start + PublishFrom(t, 0)
  {
    PrefixOfRest(before, now, PublishOne(t, i), PublishFrom(t, i + 1));
    assert before + PublishFrom(t, i) == (before + PublishOne(t, i)) + PublishFrom(t, i + 1);
  }

  lemma Retreat(t: Transaction, start: seq<Op>, before: seq<Op>, now: seq<Op>, i: nat, published: nat)
    requires i < published <= |t.names| && start <= before <= now <= before + RollbackOne(t, i)
    requires before + RollbackFrom(t, i + 1) == start + RollbackFrom(t, published)
    ensures start <= now <= start + RollbackFrom(t, published)
    ensures now == before + RollbackOne(t, i) ==> now + RollbackFrom(t, i) == start + RollbackFrom(t, published)
  {
    PrefixOfRest(before, now, RollbackOne(t, i), RollbackFrom(t, i));
    assert before + RollbackFrom(t, i + 1) == (before + RollbackOne(t, i)) + RollbackFrom(t, i);
  }

  class RestoreTransaction {
    const t: Transaction
    var disk: Disk
    // File operations that still succeed before an input/output error or a crash.
    var power: nat
    // The operation that fails takes effect all the same, as a rename whose synchronization fails.
    const late: bool
    // The operations this process has completed.
    ghost var trace: seq<Op>
    ghost const origin: Disk
    // What this process had to spend.
    ghost const budget: nat

    ghost predicate Valid()
      reads this
    {
      WellFormed(t) && Execute(trace, origin) == Some(disk) && budget <= |trace| + power
    }

    constructor (t: Transaction, disk: Disk, power: nat, late: bool)
      requires WellFormed(t)
      ensures Valid() && this.t == t && this.disk == disk && this.power == power && this.late == late
      ensures trace == [] && origin == disk && budget == power
    {
      this.t, this.disk, this.power, this.late := t, disk, power, late;
      trace, origin, budget := [], disk, power;
    }

    // An operation that fails leaves everything as it was, or has taken effect.
    method Perform(op: Op) returns (r: Result<bool, Failure>)
      requires Valid()
      modifies this
      ensures Valid()
      ensures r.Ok? ==> Took(op, old(disk), old(trace))
      ensures r.Err? ==> Took(op, old(disk), old(trace)) || (disk == old(disk) && trace == old(trace))
      ensures r.Err? ==> power == 0 || Apply(op, old(disk)).None?
    {
      var next := Apply(op, disk);
      if power == 0 && (next.None? || !late) {
        return Err(Interrupted);
      }
      if next.None? {
        return Err(if op.Publish? || op.Withdraw? then AlreadyExists else Invalid);
      }
      ExecuteExtends(trace, op, origin);
      r := if power == 0 then Err(Interrupted) else Ok(true);
      disk, power := next.value, if power == 0 then 0 else power - 1;
      trace := trace + [op];
    }

    ghost predicate Took(op: Op, before: Disk, was: seq<Op>)
      reads this
    {
      Apply(op, before) == Some(disk) && trace == was + [op]
    }

    method WriteAuthenticatedJournal(phase: Phase, published: nat, intent: Option<nat>)
      returns (r: Result<bool, Failure>)
      requires Valid()
      modifies this
      ensures Valid()
      ensures old(trace) <= trace <= old(trace) + JournalWrite(t, phase, published, intent)
      ensures r.Ok? ==> old(disk.control.Some?) && disk == Committed(t, old(disk), phase, published, intent)
      ensures r.Ok? ==> trace == old(trace) + JournalWrite(t, phase, published, intent)
      ensures r.Err? ==> power == 0 || old(disk).control.None? || old(disk).control.value.partial
    {
      r := Perform(CreatePartial);
      if r.Err? { return; }
      r := Perform(CommitJournal(Authenticated(t, phase, published, intent)));
    }

    // Records the intent to move entry i, then moves it without overwriting anything.
    method MoveEntry(i: nat) returns (r: Result<bool, Failure>, intended: bool)
      requires Valid() && i < |t.names|
      modifies this
      ensures Valid()
      ensures old(trace) <= trace <= old(trace) + MoveOne(t, i)
      ensures if intended then old(trace) + JournalWrite(t, Publishing, i, Some(i)) <= trace
              else trace <= old(trace) + JournalWrite(t, Publishing, i, Some(i))
      ensures r.Ok? ==> intended && trace == old(trace) + MoveOne(t, i)
      ensures Ready(t, old(disk), i) ==> if r.Ok? then Ready(t, disk, i + 1) else power == 0
    {
      intended := false;
      r := WriteAuthenticatedJournal(Publishing, i, Some(i));
      if r.Ok? {
        intended := true;
        if Ready(t, old(disk), i) {
          PublishMoves(t, disk, i);
        }
        r := Perform(Publish(t.names[i]));
      }
    }

    // One journalled move: the intent, the rename, the comparison of what became visible
    // with its authenticated description, and the completed count.
    method PublishEntry(i: nat) returns (r: Result<bool, Failure>, intended: bool)
      requires Valid() && i < |t.names|
      modifies this
      ensures Valid()
      ensures old(trace) <= trace <= old(trace) + PublishOne(t, i)
      ensures if intended then old(trace) + JournalWrite(t, Publishing, i, Some(i)) <= trace
              else trace <= old(trace) + JournalWrite(t, Publishing, i, Some(i))
      ensures r.Ok? ==> intended && trace == old(trace) + PublishOne(t, i)
      ensures Ready(t, old(disk), i) ==> if r.Ok? then PausedAt(t, disk, i + 1) else power == 0
    {
      r, intended := MoveEntry(i);
      PrefixOfRest(old(trace), trace, MoveOne(t, i), JournalWrite(t, Publishing, i + 1, None));
      if r.Ok? {
        var name := t.names[i];
        BoundaryShown(t, i);
        if name !in disk.destination || disk.destination[name] != t.planned[name] {
          r := Err(Invalid);
        } else {
          r := WriteAuthenticatedJournal(Publishing, i + 1, None);
        }
      }
    }

    // How far a publication that began at `start` has come when `i` entries have moved.
    ghost predicate PublishedTo(ok: bool, preserve: bool, start: seq<Op>, i: nat, d: Disk)
      requires WellFormed(t) && i <= |t.names|
      reads this
    {
      && start <= trace <= start + PublishFrom(t, 0)
      && (ok ==> trace + PublishFrom(t, i) == start + PublishFrom(t, 0))
      && (if preserve then start + FirstIntent(t) <= trace else trace <= start + FirstIntent(t))
      && (ok && i == 0 ==> trace == start) && (ok && i > 0 ==> preserve)
      && (Ready(t, d, 0) ==> if ok then Ready(t, disk, i) && (i > 0 ==> PausedAt(t, disk, i)) else power == 0)
    }

    method PublishNext(i: nat, preserve: bool, ghost start: seq<Op>, ghost d: Disk)
      returns (r: Result<bool, Failure>, kept: bool)
      requires Valid() && i < |t.names| && PublishedTo(true, preserve, start, i, d)
      modifies this
      ensures Valid()
      ensures if r.Ok? then PublishedTo(true, kept, start, i + 1, d) else PublishedTo(false, kept, start, i, d)
    {
      ghost var before := trace;
      var intended;
      r, intended := PublishEntry(i);
      Advance(t, start, before, trace, i);
      kept := preserve || intended;
    }

    // Moves the entries one by one. Cancellation is noticed once `stopAfter` of them are visible.
    method PublishEntries(stopAfter: Option<nat>) returns (r: Result<Outcome, Failure>, preserve: bool)
      requires Valid()
      modifies this
      ensures Valid()
      ensures old(trace) <= trace <= old(trace) + PublishFrom(t, 0)
      ensures if preserve then old(trace) + FirstIntent(t) <= trace else trace <= old(trace) + FirstIntent(t)
      ensures r == Ok(Complete) ==> trace == old(trace) + PublishFrom(t, 0)
      ensures r.Ok? ==> (r == Ok(Paused) <==> IsNoticed(t, stopAfter) && t.names != [])
      ensures Ready(t, old(disk), 0) && r.Err? ==> power == 0
      ensures Ready(t, old(disk), 0) && r == Ok(Complete) ==> Ready(t, disk, |t.names|)
      ensures Ready(t, old(disk), 0) && r == Ok(Paused) ==> PausedAt(t, disk, FirstCheck(stopAfter.value))
    {
      preserve := false;
      r := Ok(Complete);
      ghost var start, d := trace, disk;
      var i := 0;
      while i < |t.names| && r == Ok(Complete)
        invariant Valid() && i <= |t.names| && PublishedTo(r.Ok?, preserve, start, i, d)
        invariant r.Ok? ==> r == Ok(Complete) || r == Ok(Paused)
        invariant r == Ok(Complete) && i > 0 ==> stopAfter.None? || i < stopAfter.value
        invariant r == Ok(Paused) ==> stopAfter.Some? && i > 0 && i == FirstCheck(stopAfter.value)
        decreases |t.names| - i, r == Ok(Complete)
      {
        var moved;
        moved, preserve := PublishNext(i, preserve, start, d);
        if moved.Err? {
          r := Err(moved.error);
        } else {
          i := i + 1;
          if stopAfter.Some? && stopAfter.value <= i {
            r := Ok(Paused);
          }
        }
      }
    }

    // Moves every staged entry to the destination, if exactly the planned ones are staged and none
    // is visible. `preserve` tells the caller that a move may have happened.
    method PublishStagedEntries(stopAfter: Option<nat>) returns (r: Result<Outcome, Failure>, preserve: bool)
      requires Valid()
      modifies this
      ensures Valid()
      ensures old(trace) <= trace <= old(trace) + PublishFrom(t, 0)
      ensures if preserve then old(trace) + FirstIntent(t) <= trace else trace <= old(trace) + FirstIntent(t)
      ensures r == Ok(Complete) ==> trace == old(trace) + PublishFrom(t, 0)
      ensures r.Ok? ==> (r == Ok(Paused) <==> IsNoticed(t, stopAfter) && t.names != [])
      ensures Ready(t, old(disk), 0) && r.Err? ==> power == 0
      ensures Ready(t, old(disk), 0) && r == Ok(Complete) ==> Ready(t, disk, |t.names|)
      ensures Ready(t, old(disk), 0) && r == Ok(Paused) ==> PausedAt(t, disk, FirstCheck(stopAfter.value))
    {
      Whole(t);
      if disk.control.None? || disk.control.value.staging.None?
        || disk.control.value.staging.value.Keys != (set n | n in t.names) {
        return Err(Invalid), false;
      }
      if exists n | n in t.names :: n in disk.destination {
        return Err(AlreadyExists), false;
      }
      r, preserve := PublishEntries(stopAfter);
    }

    // One journalled move back into staging.
    method WithdrawEntry(i: nat) returns (r: Result<bool, Failure>)
      requires Valid() && i < |t.names|
      modifies this
      ensures Valid()
      ensures old(trace) <= trace <= old(trace) + WithdrawOne(t, i)
      ensures r.Ok? ==> trace == old(trace) + WithdrawOne(t, i)
      ensures Ready(t, old(disk), i + 1) ==> if r.Ok? then Ready(t, disk, i) else power == 0
    {
      r := WriteAuthenticatedJournal(RollingBack, i + 1, Some(i));
      if r.Ok? {
        if Ready(t, old(disk), i + 1) {
          WithdrawMoves(t, disk, i);
        }
        r := Perform(Withdraw(t.names[i]));
      }
    }

    method RollbackEntry(i: nat) returns (r: Result<bool, Failure>)
      requires Valid() && i < |t.names|
      modifies this
      ensures Valid()
      ensures old(trace) <= trace <= old(trace) + RollbackOne(t, i)
      ensures r.Ok? ==> trace == old(trace) + RollbackOne(t, i)
      ensures Ready(t, old(disk), i + 1) ==> if r.Ok? then Ready(t, disk, i) else power == 0
    {
      if disk.control.None? || disk.control.value.staging.None?
        || t.names[i] in disk.control.value.staging.value || t.names[i] !in disk.destination {
        if Ready(t, disk, i + 1) { BoundaryShown(t, i); BoundaryHidden(t, i); }
        return Err(Invalid);
      }
      r := WithdrawEntry(i);
      PrefixOfRest(old(trace), trace, WithdrawOne(t, i), JournalWrite(t, Publishing, i, None));
      if r.Ok? {
        r := WriteAuthenticatedJournal(Publishing, i, None);
      }
    }

    // How far a rollback that began at `start` has come when `k` entries are still visible.
    ghost predicate RollingBackTo(ok: bool, start: seq<Op>, k: nat, published: nat, d: Disk)
      requires WellFormed(t) && k <= |t.names| && published <= |t.names|
      reads this
    {
      && start <= trace <= start + RollbackFrom(t, published)
      && (ok ==> trace + RollbackFrom(t, k) == start + RollbackFrom(t, published))
      && (Ready(t, d, published) ==> if ok then Ready(t, disk, k) else power == 0)
    }

    method RollbackNext(k: nat, ghost start: seq<Op>, ghost published: nat, ghost d: Disk)
      returns (r: Result<bool, Failure>)
      requires Valid() && k < published <= |t.names| && RollingBackTo(true, start, k + 1, published, d)
      modifies this
      ensures Valid() && RollingBackTo(r.Ok?, start, k, published, d)
    {
      ghost var before := trace;
      r := RollbackEntry(k);
      Retreat(t, start, before, trace, k, published);
    }

    // Moves the visible entries back, the last one first.
    method RollbackEntries(published: nat) returns (r: Result<bool, Failure>)
      requires Valid() && published <= |t.names|
      modifies this
      ensures Valid()
      ensures old(trace) <= trace <= old(trace) + RollbackFrom(t, published)
      ensures r.Ok? ==> trace == old(trace) + RollbackFrom(t, published)
      ensures Ready(t, old(disk), published) ==> if r.Ok? then Ready(t, disk, 0) else power == 0
      ensures published == 0 ==> r.Ok?
    {
      ghost var start, d := trace, disk;
      r := Ok(true);
      var k: nat := published;
      while k > 0 && r.Ok?
        invariant Valid() && k <= published && RollingBackTo(r.Ok?, start, k, published, d)
        invariant published == 0 ==> r.Ok?
        decreases k, r.Ok?
      {
        k := k - 1;
        r := RollbackNext(k, start, published, d);
      }
    }

    // Looks where the entry named by a pending intent is.
    method ResolvePendingIntent(j: Journal) returns (published: Option<nat>)
      requires StateIsValid(t, j)
      requires disk.control.Some? && disk.control.value.staging.Some?
      ensures published == ResolvedCount(t, j, disk)
    {
      if j.intent.None? {
        return Some(j.published);
      }
      if j.intent.value >= |t.names| {
        return None;
      }
      var name := t.names[j.intent.value];
      var shown, staged := name in disk.destination, name in disk.control.value.staging.value;
      if shown && !staged {
        published := Some(if j.phase.RollingBack? then j.published else j.published + 1);
      } else if !shown && staged {
        published := Some(if j.phase.RollingBack? then j.published - 1 else j.published);
      } else {
        published := None;
      }
    }

    // Records the resolved count if an intent was pending, then rolls back.
    method UndoPublication(j: Journal, published: nat) returns (r: Result<bool, Failure>)
      requires Valid() && published <= |t.names|
      modifies this
      ensures Valid()
      ensures old(trace) <= trace <= old(trace) + ReconcileProgram(t, j, published)
      ensures r.Ok? ==> trace == old(trace) + ReconcileProgram(t, j, published)
      ensures Ready(t, old(disk), published) ==> if r.Ok? then Ready(t, disk, 0) else power == 0
      ensures j.intent.None? && published == 0 ==> r.Ok?
    {
      r := Ok(true);
      if j.intent.Some? {
        r := WriteAuthenticatedJournal(Publishing, published, None);
        PrefixOfRest(old(trace), trace, JournalWrite(t, Publishing, published, None), RollbackFrom(t, published));
      }
      if r.Ok? {
        if j.intent.Some? {
          Associate(old(trace), JournalWrite(t, Publishing, published, None), RollbackFrom(t, published));
        } else {
          assert [] + RollbackFrom(t, published) == RollbackFrom(t, published);
        }
        r := RollbackEntries(published);
      }
    }

    method ReconcileInterruptedPublication(j: Journal) returns (r: Result<bool, Failure>)
      requires Valid() && StateIsValid(t, j)
      requires disk.control.Some? && disk.control.value.staging.Some?
      modifies this
      ensures Valid()
      ensures ResolvedCount(t, j, old(disk)).None? ==> r == Err(Invalid) && trace == old(trace) && disk == old(disk)
      ensures var published := ResolvedCount(t, j, old(disk));
        published.Some? ==>
          && old(trace) <= trace <= old(trace) + ReconcileProgram(t, j, published.value)
          && (r.Ok? ==> trace == old(trace) + ReconcileProgram(t, j, published.value))
          && (Ready(t, old(disk), published.value) ==> if r.Ok? then Ready(t, disk, 0) else power == 0)
          && (j.intent.None? && published.value == 0 ==> r.Ok?)
    {
      var resolved := ResolvePendingIntent(j);
      if resolved.None? {
        return Err(Invalid);
      }
      r := UndoPublication(j, resolved.value);
    }

    method PerformAll(ops: seq<Op>) returns (r: Result<bool, Failure>)
      requires Valid()
      modifies this
      ensures Valid()
      ensures old(trace) <= trace <= old(trace) + ops
      ensures r.Ok? ==> trace == old(trace) + ops && Execute(ops, old(disk)) == Some(disk)
      ensures r.Err? ==> power == 0 || Execute(ops, old(disk)).None?
    {
      r := Ok(true);
      var i := 0;
      while i < |ops| && r.Ok?
        invariant Valid() && i <= |ops|
        invariant if r.Ok? then trace == old(trace) + ops[..i] else old(trace) <= trace <= old(trace) + ops
        invariant if r.Ok? then Execute(ops, old(disk)) == Execute(ops[i..], disk)
                  else power == 0 || Execute(ops, old(disk)).None?
        decreases |ops| - i, r.Ok?
      {
        assert ops[i..][1..] == ops[i + 1..];
        assert old(trace) + ops[..i] + [ops[i]] == old(trace) + ops[..i + 1] <= old(trace) + ops;
        r := Perform(ops[i]);
        if r.Ok? {
          i := i + 1;
        }
      }
    }

    // Staging, up to a refusal of the Bundle's content: after `refused` changes of the staged
    // files, or by the last comparison of all of them.
    method Stage(contents: seq<map<Name, Entry>>, refused: Option<nat>) returns (r: Result<bool, Failure>)
      requires Valid()
      modifies this
      ensures Valid()
      ensures old(trace) <= trace <= old(trace) + Materialize(t, contents)
      ensures r.Ok? ==> trace == old(trace) + Materialize(t, contents) && refused.None?
      ensures r.Ok? ==> Execute(Materialize(t, contents), old(disk)) == Some(disk)
      ensures Clear(t, old(disk)) && r.Err? ==> power == 0 || refused.Some?
    {
      var program := Materialize(t, contents);
      FillsLength(contents + [t.planned]);
      var staged := program[..if refused.Some? && refused.value <= |contents| then 3 + refused.value else |program|];
      if Clear(t, disk) { MaterializeExecutes(t, disk, contents); }
      assert program[..|program|] == program;
      r := PerformAll(staged);
      if r.Ok? && refused.Some? {
        r := Err(Invalid);
      }
    }

    // From an empty control directory to the completed or paused Restore.
    method RunBody(stopAfter: Option<nat>, contents: seq<map<Name, Entry>>, refused: Option<nat>)
      returns (r: Result<Outcome, Failure>, preserve: bool)
      requires Valid()
      modifies this
      ensures Valid()
      ensures old(trace) <= trace <= old(trace) + Body(t, contents)
      ensures preserve ==> old(trace) + (Materialize(t, contents) + FirstIntent(t)) <= trace
      ensures !preserve && t.names != [] ==> trace <= old(trace) + (Materialize(t, contents) + FirstIntent(t))
      ensures r == Ok(Complete) ==> trace == old(trace) + Body(t, contents)
      ensures refused.Some? ==> r.Err?
      ensures Clear(t, old(disk)) && r.Err? ==> power == 0 || refused.Some?
      ensures r.Ok? ==> (r == Ok(Paused) <==> IsNoticed(t, stopAfter))
      ensures Clear(t, old(disk)) && r == Ok(Paused) ==> PausedAt(t, disk, stopAfter.value)
    {
      preserve := false;
      ghost var d := disk;
      var staged := Stage(contents, refused);
      BodyPrefixes(t, contents, old(trace), trace);
      if staged.Err? {
        return Err(staged.error), preserve;
      }
      if stopAfter == Some(0) {
        if Clear(t, d) { MaterializeExecutes(t, d, contents); }
        return Ok(Paused), preserve;
      }
      if Clear(t, d) { MaterializeExecutes(t, d, contents); }
      r, preserve := PublishThenRetire(stopAfter);
      BodyPrefixes(t, contents, old(trace), trace);
    }

    // From a completed staging directory to the completed or paused Restore.
    method PublishThenRetire(stopAfter: Option<nat>) returns (r: Result<Outcome, Failure>, preserve: bool)
      requires Valid()
      modifies this
      ensures Valid()
      ensures old(trace) <= trace <= old(trace) + (PublishFrom(t, 0) + Retire())
      ensures preserve ==> old(trace) + FirstIntent(t) <= trace
      ensures !preserve && t.names != [] ==> trace <= old(trace) + FirstIntent(t)
      ensures r == Ok(Complete) ==> trace == old(trace) + (PublishFrom(t, 0) + Retire())
      ensures Known(t, old(disk)) && PausedAt(t, old(disk), 0) && r.Err? ==> power == 0
      ensures r.Ok? ==> (r == Ok(Paused) <==> IsNoticed(t, stopAfter) && t.names != [])
      ensures PausedAt(t, old(disk), 0) && r == Ok(Paused) ==> PausedAt(t, disk, FirstCheck(stopAfter.value))
    {
      ghost var first, staging := trace, disk;
      r, preserve := PublishStagedEntries(stopAfter);
      PrefixOfRest(first, trace, PublishFrom(t, 0), Retire());
      if r == Ok(Complete) {
        ghost var shown := disk;
        ExecuteSplits(first, PublishFrom(t, 0), origin);
        Associate(first, PublishFrom(t, 0), Retire());
        var retired := PerformAll(Retire());
        if retired.Err? {
          if Known(t, staging) && PausedAt(t, staging, 0) { RetireExecutes(t, staging, shown); }
          r := Err(retired.error);
        }
      }
    }

    // Refuses anything but a state this transaction can have left; removes the unfinished
    // journal file of an interrupted write.
    method ValidateResumeDestination() returns (r: Result<Journal, Failure>)
      requires Valid()
      modifies this
      ensures Valid()
      ensures r.Ok? ==> ResumeAccepts(t, old(disk)) && r.value == old(disk).control.value.journal.value
      ensures r.Ok? ==> IsOurs(t, old(disk))
      ensures r.Ok? ==> disk == With(old(disk), old(disk).control.value.(partial := false))
      ensures r.Ok? ==> trace == old(trace) + Discard(old(disk))
      ensures !ResumeAccepts(t, old(disk)) ==> r.Err? && trace == old(trace) && disk == old(disk)
      ensures r.Err? && ResumeAccepts(t, old(disk)) ==>
                power == 0 && old(trace) <= trace <= old(trace) + Discard(old(disk))
    {
      AcceptedExactly(t, disk);
      if !ResumeAccepts(t, disk) {
        return Err(Invalid);
      }
      var c := disk.control.value;
      if c.partial {
        var discarded := Perform(DiscardPartial);
        if discarded.Err? {
          return Err(discarded.error);
        }
      }
      r := Ok(c.journal.value);
    }

    method RunFresh(stopAfter: Option<nat>, contents: seq<map<Name, Entry>>, refused: Option<nat>)
      returns (r: Result<Outcome, Failure>, preserve: bool)
      requires Valid()
      modifies this
      ensures Valid()
      ensures old(trace) <= trace <= old(trace) + FreshProgram(t, contents)
      ensures preserve ==> old(trace) + BeforePublication(t, contents) <= trace
      ensures !preserve && t.names != [] ==> trace <= old(trace) + BeforePublication(t, contents)
      ensures r == Ok(Complete) ==> trace == old(trace) + FreshProgram(t, contents)
      ensures old(disk) == Disk(map[], None) && r.Err? ==> power == 0 || refused.Some?
      ensures r.Ok? ==> (r == Ok(Paused) <==> IsNoticed(t, stopAfter))
      ensures old(disk) == Disk(map[], None) && r == Ok(Paused) ==> PausedAt(t, disk, stopAfter.value)
    {
      preserve := false;
      var created := Perform(CreateControl);
      if created.Err? {
        return Err(created.error), preserve;
      }
      ghost var first := trace;
      r, preserve := RunBody(stopAfter, contents, refused);
      Associate(old(trace), [CreateControl], Body(t, contents));
      Associate(old(trace), [CreateControl], Materialize(t, contents) + FirstIntent(t));
    }

    // The rollback of whatever the journal of a validated destination `d` says was published.
    method RollBackValidated(j: Journal, ghost d: Disk) returns (r: Result<bool, Failure>)
      requires Valid() && StateIsValid(t, j)
      requires d.control.Some? && d.control.value.staging.Some?
      requires d.control.value.journal == Some(j) && disk == With(d, d.control.value.(partial := false))
      modifies this
      ensures Valid()
      ensures var published := ResolvedCount(t, j, d);
        published.Some? ==>
          && old(trace) <= trace <= old(trace) + ReconcileProgram(t, j, published.value)
          && (r.Ok? ==> trace == old(trace) + ReconcileProgram(t, j, published.value))
          && (Placed(t, d, published.value) && r.Err? ==> power == 0)
          && (j.intent.None? && published.value == 0 ==> r.Ok?)
    {
      assert ResolvedCount(t, j, disk) == ResolvedCount(t, j, d);
      r := ReconcileInterruptedPublication(j);
    }

    // Validation, then the rollback.
    method RecoverInterrupted() returns (r: Result<bool, Failure>)
      requires Valid()
      modifies this
      ensures Valid()
      ensures !ResumeAccepts(t, old(disk)) ==> r.Err? && disk == old(disk) && trace == old(trace)
      ensures ResumeAccepts(t, old(disk)) && Known(t, old(disk)) ==>
        var published := ResolvedCount(t, old(disk).control.value.journal.value, old(disk));
        && published.Some? && published.value <= |t.names|
        && old(trace) <= trace <= old(trace) + RecoveryProgram(t, old(disk), published.value)
        && (r.Ok? ==> trace == old(trace) + RecoveryProgram(t, old(disk), published.value))
        && (if r.Ok? then Idle(t, disk) && !disk.control.value.partial else power == 0)
    {
      ghost var d, start := disk, trace;
      ghost var published: nat, e := 0, d;
      if ResumeAccepts(t, d) && Known(t, d) {
        published, e := RecoveryExecutes(t, d, start, origin);
      }
      var journal := ValidateResumeDestination();
      if journal.Err? {
        return Err(journal.error);
      }
      Associate(start, Discard(d), ReconcileProgram(t, journal.value, published));
      r := RollBackValidated(journal.value, d);
    }

    // Clears staging and materializes again.
    method Redo(stopAfter: Option<nat>, clears: seq<map<Name, Entry>>, contents: seq<map<Name, Entry>>,
                refused: Option<nat>)
      returns (r: Result<Outcome, Failure>)
      requires Valid()
      modifies this
      ensures Valid()
      ensures old(trace) <= trace <= old(trace) + RedoProgram(t, clears, contents)
      ensures r == Ok(Complete) ==> trace == old(trace) + RedoProgram(t, clears, contents)
      ensures Idle(t, old(disk)) && !old(disk).control.value.partial && r.Err? ==> power == 0 || refused.Some?
      ensures r.Ok? ==> (r == Ok(Paused) <==> IsNoticed(t, stopAfter))
      ensures Idle(t, old(disk)) && !old(disk).control.value.partial && r == Ok(Paused) ==>
                PausedAt(t, disk, stopAfter.value)
    {
      ghost var d, start := disk, trace;
      var reset := PerformAll(Fills(clears) + [ResetStaging]);
      PrefixOfRest(start, trace, Fills(clears) + [ResetStaging], Body(t, contents));
      if Idle(t, d) && !d.control.value.partial {
        ResetExecutes(t, d, clears);
      }
      if reset.Err? {
        return Err(reset.error);
      }
      ghost var cleared := trace;
      var preserve;
      r, preserve := RunBody(stopAfter, contents, refused);
      Associate(start, Fills(clears) + [ResetStaging], Body(t, contents));
    }

    method RunResume(stopAfter: Option<nat>, clears: seq<map<Name, Entry>>, contents: seq<map<Name, Entry>>,
                     refused: Option<nat>)
      returns (r: Result<Outcome, Failure>)
      requires Valid()
      modifies this
      ensures Valid()
      ensures !ResumeAccepts(t, old(disk)) ==> r.Err? && disk == old(disk) && trace == old(trace)
      ensures ResumeAccepts(t, old(disk)) && Known(t, old(disk)) ==>
        var program := ResumeProgram(t, old(disk), clears, contents);
        && program.Some?
        && old(trace) <= trace <= old(trace) + program.value
        && (r == Ok(Complete) ==> trace == old(trace) + program.value)
        && (r.Err? ==> power == 0 || refused.Some?)
        && (r == Ok(Paused) ==> stopAfter.Some? && PausedAt(t, disk, stopAfter.value))
      ensures r.Ok? ==> (r == Ok(Paused) <==> IsNoticed(t, stopAfter))
    {
      ghost var d, start := disk, trace;
      ghost var recovery: seq<Op> := [];
      var recovered := RecoverInterrupted();
      if ResumeAccepts(t, d) && Known(t, d) {
        recovery := RecoveryProgram(t, d, ResolvedCount(t, d.control.value.journal.value, d).value);
        PrefixOfRest(start, trace, recovery, RedoProgram(t, clears, contents));
      }
      if recovered.Err? {
        return Err(recovered.error);
      }
      r := Redo(stopAfter, clears, contents, refused);
      Associate(start, recovery, RedoProgram(t, clears, contents));
    }

    // A fresh Restore takes only an empty destination, and one that fails before any entry moved
    // removes its transaction control; `cleanupWorks` is false when the process itself is gone.
    method Restore(resume: bool, stopAfter: Option<nat>, clears: seq<map<Name, Entry>>, contents: seq<map<Name, Entry>>,
                   refused: Option<nat>, cleanupWorks: bool)
      returns (r: Result<Outcome, Failure>, cleaned: bool)
      requires Valid()
      modifies this
      ensures Valid()
      ensures !resume && old(disk) != Disk(map[], None) ==> r == Err(AlreadyExists) && disk == old(disk) && !cleaned
      ensures resume ==> !cleaned
      ensures cleaned ==> r.Err? && disk == Disk(map[], None)
      ensures !resume && old(disk) == Disk(map[], None) && r.Err? ==> power == 0 || refused.Some?
      ensures !resume && old(disk) == Disk(map[], None) && r.Err? && !cleaned && cleanupWorks ==>
                disk.control.Some? && t.names != [] ==> old(trace) + BeforePublication(t, contents) <= trace
      ensures !resume && r == Ok(Complete) ==> disk == Disk(t.planned, None)
      ensures resume && ResumeAccepts(t, old(disk)) && Known(t, old(disk)) ==>
                (r == Ok(Complete) ==> disk == Disk(t.planned, None)) && (r.Err? ==> power == 0 || refused.Some?)
      ensures resume && !ResumeAccepts(t, old(disk)) ==> r.Err? && disk == old(disk)
      ensures r.Ok? ==> (r == Ok(Paused) <==> IsNoticed(t, stopAfter))
      ensures r == Ok(Paused) && (if resume then Known(t, old(disk)) else old(disk) == Disk(map[], None)) ==>
                PausedAt(t, disk, stopAfter.value)
      ensures !resume && old(disk) == Disk(map[], None) && refused.None? ==>
                |old(trace)| + |FreshProgram(t, contents)| < budget ==> r.Ok?
      ensures resume && ResumeAccepts(t, old(disk)) && Known(t, old(disk)) && refused.None? ==>
                var program := ResumeProgram(t, old(disk), clears, contents);
                program.Some? && (|old(trace)| + |program.value| < budget ==> r.Ok?)
    {
      cleaned := false;
      if resume {
        r := ResumeRestore(stopAfter, clears, contents, refused);
      } else if disk != Disk(map[], None) {
        r := Err(AlreadyExists);
      } else {
        r, cleaned := FreshRestore(stopAfter, contents, refused, cleanupWorks);
      }
    }

    method ResumeRestore(stopAfter: Option<nat>, clears: seq<map<Name, Entry>>, contents: seq<map<Name, Entry>>,
                         refused: Option<nat>)
      returns (r: Result<Outcome, Failure>)
      requires Valid()
      modifies this
      ensures Valid()
      ensures ResumeAccepts(t, old(disk)) && Known(t, old(disk)) ==>
                (r == Ok(Complete) ==> disk == Disk(t.planned, None)) && (r.Err? ==> power == 0 || refused.Some?)
      ensures !ResumeAccepts(t, old(disk)) ==> r.Err? && disk == old(disk)
      ensures r.Ok? ==> (r == Ok(Paused) <==> IsNoticed(t, stopAfter))
      ensures r == Ok(Paused) && Known(t, old(disk)) ==> PausedAt(t, disk, stopAfter.value)
      ensures ResumeAccepts(t, old(disk)) && Known(t, old(disk)) && refused.None? ==>
                var program := ResumeProgram(t, old(disk), clears, contents);
                program.Some? && (|old(trace)| + |program.value| < budget ==> r.Ok?)
    {
      ghost var d, start := disk, trace;
      r := RunResume(stopAfter, clears, contents, refused);
      if ResumeAccepts(t, d) && Known(t, d) {
        ResumeRuns(t, d, clears, contents);
        RunsExecute(t, ResumeProgram(t, d, clears, contents).value, d, Disk(t.planned, None));
        ExecuteSplits(start, ResumeProgram(t, d, clears, contents).value, origin);
      }
    }

    method FreshRestore(stopAfter: Option<nat>, contents: seq<map<Name, Entry>>, refused: Option<nat>,
                        cleanupWorks: bool)
      returns (r: Result<Outcome, Failure>, cleaned: bool)
      requires Valid() && disk == Disk(map[], None)
      modifies this
      ensures Valid()
      ensures r.Err? ==> power == 0 || refused.Some?
      ensures r == Ok(Complete) ==> disk == Disk(t.planned, None)
      ensures cleaned ==> r.Err? && disk == Disk(map[], None)
      ensures r.Ok? ==> (r == Ok(Paused) <==> IsNoticed(t, stopAfter))
      ensures r == Ok(Paused) ==> PausedAt(t, disk, stopAfter.value)
      ensures refused.None? && |old(trace)| + |FreshProgram(t, contents)| < budget ==> r.Ok?
      ensures r.Err? && !cleaned && cleanupWorks && disk.control.Some? && t.names != [] ==>
                old(trace) + BeforePublication(t, contents) <= trace
    {
      cleaned := false;
      ghost var start := trace;
      var preserve;
      r, preserve := RunFresh(stopAfter, contents, refused);
      FreshRuns(t, contents);
      RunsExecute(t, FreshProgram(t, contents), Disk(map[], None), Disk(t.planned, None));
      ExecuteSplits(start, FreshProgram(t, contents), origin);
      if r.Err? && !preserve && cleanupWorks && disk.control.Some? {
        StillHidden(t, contents, start, trace, origin);
        ExecuteExtends(trace, CleanUp, origin);
        disk := disk.(control := None);
        trace := trace + [CleanUp];
        cleaned := true;
      }
    }
  }

  lemma {:induction false} ResetExecutes(t: Transaction, d: Disk, clears: seq<map<Name, Entry>>)
    requires WellFormed(t) && Idle(t, d) && !d.control.value.partial
    ensures Execute(Fills(clears) + [ResetStaging], d).Some?
    ensures Clear(t, Execute(Fills(clears) + [ResetStaging], d).value)
  {
    var a := FillsRun(t, d, clears);
    RunsExecute(t, Fills(clears), d, a);
    ExecuteExtends(Fills(clears), ResetStaging, d);
  }

  lemma RecoveryExecutes(t: Transaction, d: Disk, start: seq<Op>, origin: Disk) returns (published: nat, e: Disk)
    requires WellFormed(t) && Known(t, d) && ResumeAccepts(t, d) && Execute(start, origin) == Some(d)
    ensures ResolvedCount(t, d.control.value.journal.value, d) == Some(published) && published <= |t.names|
    ensures Execute(start + RecoveryProgram(t, d, published), origin) == Some(e)
    ensures Idle(t, e) && !e.control.value.partial
    ensures (published == 0 && d.control.value.journal.value.intent.None?) || Placed(t, d, published)
  {
    published, e := RollbackRuns(t, d);
    RunsExecute(t, RecoveryProgram(t, d, published), d, e);
    ExecuteSplits(start, RecoveryProgram(t, d, published), origin);
  }

  predicate KeepsDestination(op: Op) {
    !op.Publish? && !op.Withdraw?
  }

  lemma {:induction false} DestinationKept(ops: seq<Op>, d: Disk)
    requires forall op | op in ops :: KeepsDestination(op)
    requires Execute(ops, d).Some?
    ensures Execute(ops, d).value.destination == d.destination
  {
    if ops != [] {
      assert ops[0] in ops;
      DestinationKept(ops[1..], Apply(ops[0], d).value);
    }
  }

  lemma {:induction false} FillsLength(contents: seq<map<Name, Entry>>)
    ensures |Fills(contents)| == |contents|
  {
    if contents != [] {
      FillsLength(contents[1..]);
    }
  }

  lemma {:induction false} FillsKeep(contents: seq<map<Name, Entry>>)
    ensures forall op | op in Fills(contents) :: KeepsDestination(op)
  {
    if contents != [] {
      FillsKeep(contents[1..]);
    }
  }

  // Nothing is visible yet when the control directory may still be removed.
  lemma EarlyKeepsDestination(t: Transaction, contents: seq<map<Name, Entry>>)
    ensures forall op | op in BeforePublication(t, contents) :: KeepsDestination(op)
    ensures t.names == [] ==> forall op | op in FreshProgram(t, contents) :: KeepsDestination(op)
  {
    FillsKeep(contents + [t.planned]);
  }

  lemma {:induction false} StillHidden(t: Transaction, contents: seq<map<Name, Entry>>, start: seq<Op>, now: seq<Op>,
                                       origin: Disk)
    requires start <= now <= start + FreshProgram(t, contents)
    requires t.names != [] ==> now <= start + BeforePublication(t, contents)
    requires Execute(start, origin).Some? && Execute(now, origin).Some?
    ensures Execute(now, origin).value.destination == Execute(start, origin).value.destination
  {
    EarlyKeepsDestination(t, contents);
    var early := if t.names == [] then FreshProgram(t, contents) else BeforePublication(t, contents);
    var steps := now[|start|..];
    assert now == start + steps;
    assert steps <= early;
    forall op | op in steps ensures KeepsDestination(op) {
      var i :| 0 <= i < |steps| && steps[i] == op;
      assert early[i] == op;
    }
    ExecuteSplits(start, steps, origin);
    DestinationKept(steps, Execute(start, origin).value);
  }

  lemma {:induction false} RunsExecute(t: Transaction, ops: seq<Op>, d: Disk, e: Disk)
    requires WellFormed(t) && Runs(t, ops, d, e)
    ensures Execute(ops, d) == Some(e)
  {
    RunsPrefix(t, ops, d, e, |ops|);
    assert ops[..|ops|] == ops;
  }

  lemma {:induction false} MaterializeExecutes(t: Transaction, d: Disk, contents: seq<map<Name, Entry>>)
    requires WellFormed(t) && Clear(t, d)
    ensures Execute(Materialize(t, contents), d).Some?
    ensures var e := Execute(Materialize(t, contents), d).value;
      Known(t, e) && PausedAt(t, e, 0)
  {
    var e := MaterializeRuns(t, d, contents);
    RunsExecute(t, Materialize(t, contents), d, e);
    RunsPrefix(t, Materialize(t, contents), d, e, |Materialize(t, contents)|);
  }

  lemma {:induction false} RetireExecutes(t: Transaction, staging: Disk, shown: Disk)
    requires WellFormed(t) && Known(t, staging) && Ready(t, staging, 0) && staging.control.value.journal.Some?
    requires Execute(PublishFrom(t, 0), staging) == Some(shown)
    ensures Execute(Retire(), shown) == Some(Disk(t.planned, None))
  {
    var e := PublishFromRuns(t, staging, 0);
    RunsExecute(t, PublishFrom(t, 0), staging, e);
    RunsPrefix(t, PublishFrom(t, 0), staging, e, |PublishFrom(t, 0)|);
    RetireRuns(t, e);
    RunsExecute(t, Retire(), e, Disk(t.planned, None));
  }

  lemma {:induction false} BodyPrefixes(t: Transaction, contents: seq<map<Name, Entry>>, start: seq<Op>, now: seq<Op>)
    ensures var m, rest := Materialize(t, contents), PublishFrom(t, 0) + Retire();
      && start + m + rest == start + Body(t, contents)
      && (start <= now <= start + m ==> now <= start + (m + FirstIntent(t)) && now <= start + Body(t, contents))
      && ((start + m) <= now <= (start + m) + rest ==> now <= start + Body(t, contents))
      && ((start + m) <= now <= (start + m) + FirstIntent(t) ==> now <= start + (m + FirstIntent(t)))
      && ((start + m) + FirstIntent(t) <= now ==> start + (m + FirstIntent(t)) <= now)
  {
    var m, p := Materialize(t, contents), PublishFrom(t, 0);
    assert start + Body(t, contents) == start + m + (p + Retire());
    assert start + (m + FirstIntent(t)) == start + m + FirstIntent(t);
  }
}
