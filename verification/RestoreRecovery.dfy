// What holds of the disk after any crash of a Restore and of its resumes.
module RestoreRecovery {
  import opened Outcomes
  import opened RestoreJournal

  ghost function Shown(t: Transaction, v: nat): map<Name, Entry>
    requires WellFormed(t) && v <= |t.names|
  {
    map n | n in t.names[..v] :: t.planned[n]
  }

  ghost function Hidden(t: Transaction, v: nat): map<Name, Entry>
    requires WellFormed(t) && v <= |t.names|
  {
    map n | n in t.names[v..] :: t.planned[n]
  }

  // Exactly the first v entries are visible and the others are staged.
  ghost predicate Placed(t: Transaction, d: Disk, v: nat)
    requires WellFormed(t)
  {
    && v <= |t.names|
    && d.control.Some?
    && d.destination == Shown(t, v)
    && d.control.value.staging == Some(Hidden(t, v))
  }

  // The journal relation: which counts of visible entries a journal admits.
  ghost predicate Admits(j: Journal, v: nat) {
    match j.phase
    case Materializing | Staged => j.published == 0 && j.intent.None? && v == 0
    case Publishing =>
      if j.intent.None? then v == j.published
      else j.intent.value == j.published && (v == j.published || v == j.published + 1)
    case RollingBack =>
      && j.intent.Some? && j.intent.value + 1 == j.published
      && (v == j.published || v + 1 == j.published)
  }

  ghost predicate Journalled(t: Transaction, d: Disk) {
    && d.control.Some?
    && d.control.value.journal.Some?
    && d.control.value.staging.Some?
    && d.control.value.journal.value == Authenticated(t, d.control.value.journal.value.phase,
         d.control.value.journal.value.published, d.control.value.journal.value.intent)
  }

  // Nothing is visible and the journal says so; staging may hold anything.
  ghost predicate Idle(t: Transaction, d: Disk) {
    && Journalled(t, d)
    && d.destination == map[]
    && d.control.value.journal.value.published == 0
    && d.control.value.journal.value.intent.None?
    && !d.control.value.journal.value.phase.RollingBack?
  }

  ghost predicate InFlight(t: Transaction, d: Disk, v: nat)
    requires WellFormed(t)
  {
    && Journalled(t, d)
    && Placed(t, d, v)
    && Admits(d.control.value.journal.value, v)
    && (d.control.value.journal.value.intent.Some? ==> d.control.value.journal.value.intent.value < |t.names|)
  }

  ghost predicate Consistent(t: Transaction, d: Disk)
    requires WellFormed(t)
  {
    Idle(t, d) || exists v :: InFlight(t, d, v)
  }

  // A disk whose control directory lacks its journal or its staging directory.
  ghost predicate Bare(d: Disk) {
    d.control.None? || d.control.value.journal.None? || d.control.value.staging.None?
  }

  ghost predicate Finished(t: Transaction, d: Disk) {
    d == Disk(t.planned, None)
  }

  // Every state that a run can leave behind.
  ghost predicate Known(t: Transaction, d: Disk)
    requires WellFormed(t)
  {
    Consistent(t, d) || (Bare(d) && (d.destination == map[] || d.destination == t.planned))
  }

  // The operations succeed one after the other from d to e, through known states only.
  ghost predicate Runs(t: Transaction, ops: seq<Op>, d: Disk, e: Disk)
    requires WellFormed(t)
  {
    && Known(t, d)
    && if ops == [] then d == e
       else Apply(ops[0], d).Some? && Runs(t, ops[1..], Apply(ops[0], d).value, e)
  }

  lemma {:induction false} RunsCompose(t: Transaction, a: seq<Op>, b: seq<Op>, d: Disk, e: Disk, f: Disk)
    requires WellFormed(t) && Runs(t, a, d, e) && Runs(t, b, e, f)
    ensures Runs(t, a + b, d, f)
  {
    if a == [] {
      assert a + b == b;
    } else {
      assert (a + b)[1..] == a[1..] + b;
      RunsCompose(t, a[1..], b, Apply(a[0], d).value, e, f);
    }
  }

  lemma {:induction false} RunsPrefix(t: Transaction, ops: seq<Op>, d: Disk, e: Disk, k: nat)
    requires WellFormed(t) && Runs(t, ops, d, e) && k <= |ops|
    ensures Execute(ops[..k], d).Some? && Known(t, Execute(ops[..k], d).value)
    ensures k == |ops| ==> Execute(ops[..k], d).value == e
  {
    if k > 0 {
      assert ops[..k][1..] == ops[1..][..k - 1];
      RunsPrefix(t, ops[1..], Apply(ops[0], d).value, e, k - 1);
    }
  }

  lemma {:induction false} Single(t: Transaction, op: Op, d: Disk)
    requires WellFormed(t) && Known(t, d) && Apply(op, d).Some? && Known(t, Apply(op, d).value)
    ensures Runs(t, [op], d, Apply(op, d).value)
  {
    assert Runs(t, [op][1..], Apply(op, d).value, Apply(op, d).value);
  }

  ghost function Committed(t: Transaction, d: Disk, phase: Phase, published: nat, intent: Option<nat>): Disk
    requires d.control.Some?
  {
    With(d, d.control.value.(journal := Some(Authenticated(t, phase, published, intent)), partial := false))
  }

  lemma {:induction false} WriteRuns(t: Transaction, d: Disk, phase: Phase, published: nat, intent: Option<nat>)
    requires WellFormed(t) && Known(t, d) && d.control.Some? && !d.control.value.partial
    requires Known(t, Committed(t, d, phase, published, intent))
    ensures Runs(t, JournalWrite(t, phase, published, intent), d, Committed(t, d, phase, published, intent))
  {
    var m := With(d, d.control.value.(partial := true));
    PartialIsHarmless(t, d, true);
    Single(t, CreatePartial, d);
    Single(t, CommitJournal(Authenticated(t, phase, published, intent)), m);
    RunsCompose(t, [CreatePartial], [CommitJournal(Authenticated(t, phase, published, intent))], d, m,
                Committed(t, d, phase, published, intent));
  }

  // An unfinished journal file changes nothing about what the state means.
  lemma PartialIsHarmless(t: Transaction, d: Disk, partial: bool)
    requires WellFormed(t) && Known(t, d) && d.control.Some?
    ensures Known(t, With(d, d.control.value.(partial := partial)))
    ensures Idle(t, d) ==> Idle(t, With(d, d.control.value.(partial := partial)))
  {
    var e := With(d, d.control.value.(partial := partial));
    if v: nat :| InFlight(t, d, v) {
      assert InFlight(t, e, v);
    }
  }

  lemma PrefixGrows<T>(s: seq<T>, v: nat, x: T)
    requires v < |s|
    ensures x in s[..v + 1] <==> x in s[..v] || x == s[v]
    ensures x in s[v..] <==> x == s[v] || x in s[v + 1..]
  {
    assert s[..v + 1] == s[..v] + [s[v]];
    assert s[v..] == [s[v]] + s[v + 1..];
  }

  // Entry v sits on the boundary between the visible and the staged entries.
  lemma BoundaryShown(t: Transaction, v: nat)
    requires WellFormed(t) && v < |t.names|
    ensures t.names[v] in t.planned && t.names[v] !in Shown(t, v)
    ensures Shown(t, v + 1) == Shown(t, v)[t.names[v] := t.planned[t.names[v]]]
  {
    assert t.names[v] in t.planned.Keys;
    forall x ensures x in t.names[..v + 1] <==> x in t.names[..v] || x == t.names[v] {
      PrefixGrows(t.names, v, x);
    }
  }

  lemma BoundaryHidden(t: Transaction, v: nat)
    requires WellFormed(t) && v < |t.names|
    ensures t.names[v] in t.planned && t.names[v] !in Hidden(t, v + 1)
    ensures Hidden(t, v) == Hidden(t, v + 1)[t.names[v] := t.planned[t.names[v]]]
  {
    assert t.names[v] in t.planned.Keys;
    forall x ensures x in t.names[v..] <==> x == t.names[v] || x in t.names[v + 1..] {
      PrefixGrows(t.names, v, x);
    }
  }

  lemma AddThenRemove<K, V>(m: map<K, V>, k: K, v: V)
    requires k !in m
    ensures m[k := v] - {k} == m
  {
  }

  lemma PublishMoves(t: Transaction, d: Disk, v: nat)
    requires WellFormed(t) && v < |t.names| && Placed(t, d, v)
    ensures Apply(Publish(t.names[v]), d)
         == Some(Disk(Shown(t, v + 1), Some(d.control.value.(staging := Some(Hidden(t, v + 1))))))
  {
    BoundaryShown(t, v);
    BoundaryHidden(t, v);
    var n := t.names[v];
    AddThenRemove(Shown(t, v), n, t.planned[n]);
    AddThenRemove(Hidden(t, v + 1), n, t.planned[n]);
  }

  lemma WithdrawMoves(t: Transaction, d: Disk, v: nat)
    requires WellFormed(t) && v < |t.names| && Placed(t, d, v + 1)
    ensures Apply(Withdraw(t.names[v]), d)
         == Some(Disk(Shown(t, v), Some(d.control.value.(staging := Some(Hidden(t, v))))))
  {
    BoundaryShown(t, v);
    BoundaryHidden(t, v);
    var n := t.names[v];
    AddThenRemove(Shown(t, v), n, t.planned[n]);
    AddThenRemove(Hidden(t, v + 1), n, t.planned[n]);
  }

  ghost function At(t: Transaction, v: nat, phase: Phase, published: nat, intent: Option<nat>): Disk
    requires WellFormed(t) && v <= |t.names|
  {
    Disk(Shown(t, v), Some(Control(Some(Authenticated(t, phase, published, intent)), false, Some(Hidden(t, v)))))
  }

  // A move after its intent is in the journal.
  lemma {:induction false} IntendedPublish(t: Transaction, d: Disk, i: nat) returns (b: Disk)
    requires WellFormed(t) && i < |t.names| && Known(t, d)
    requires Placed(t, d, i) && !d.control.value.partial
    ensures Runs(t, JournalWrite(t, Publishing, i, Some(i)) + [Publish(t.names[i])], d, b)
    ensures Known(t, b) && Placed(t, b, i + 1) && !b.control.value.partial
  {
    var a := Committed(t, d, Publishing, i, Some(i));
    assert InFlight(t, a, i);
    WriteRuns(t, d, Publishing, i, Some(i));
    PublishMoves(t, a, i);
    b := Apply(Publish(t.names[i]), a).value;
    assert InFlight(t, b, i + 1);
    Single(t, Publish(t.names[i]), a);
    RunsCompose(t, JournalWrite(t, Publishing, i, Some(i)), [Publish(t.names[i])], d, a, b);
  }

  lemma {:induction false} PublishOneRuns(t: Transaction, d: Disk, i: nat)
    requires WellFormed(t) && i < |t.names| && Known(t, d)
    requires Placed(t, d, i) && !d.control.value.partial
    ensures Runs(t, PublishOne(t, i), d, At(t, i + 1, Publishing, i + 1, None))
  {
    var b := IntendedPublish(t, d, i);
    var c := At(t, i + 1, Publishing, i + 1, None);
    assert InFlight(t, c, i + 1);
    WriteRuns(t, b, Publishing, i + 1, None);
    RunsCompose(t, JournalWrite(t, Publishing, i, Some(i)) + [Publish(t.names[i])],
                JournalWrite(t, Publishing, i + 1, None), d, b, c);
  }

  lemma {:induction false} IntendedWithdraw(t: Transaction, d: Disk, i: nat) returns (b: Disk)
    requires WellFormed(t) && i < |t.names| && Known(t, d)
    requires Placed(t, d, i + 1) && !d.control.value.partial
    ensures Runs(t, JournalWrite(t, RollingBack, i + 1, Some(i)) + [Withdraw(t.names[i])], d, b)
    ensures Known(t, b) && Placed(t, b, i) && !b.control.value.partial
  {
    var a := Committed(t, d, RollingBack, i + 1, Some(i));
    assert InFlight(t, a, i + 1);
    WriteRuns(t, d, RollingBack, i + 1, Some(i));
    WithdrawMoves(t, a, i);
    b := Apply(Withdraw(t.names[i]), a).value;
    assert InFlight(t, b, i);
    Single(t, Withdraw(t.names[i]), a);
    RunsCompose(t, JournalWrite(t, RollingBack, i + 1, Some(i)), [Withdraw(t.names[i])], d, a, b);
  }

  lemma {:induction false} RollbackOneRuns(t: Transaction, d: Disk, i: nat)
    requires WellFormed(t) && i < |t.names| && Known(t, d)
    requires Placed(t, d, i + 1) && !d.control.value.partial
    ensures Runs(t, RollbackOne(t, i), d, At(t, i, Publishing, i, None))
  {
    var b := IntendedWithdraw(t, d, i);
    var c := At(t, i, Publishing, i, None);
    assert InFlight(t, c, i);
    WriteRuns(t, b, Publishing, i, None);
    RunsCompose(t, JournalWrite(t, RollingBack, i + 1, Some(i)) + [Withdraw(t.names[i])],
                JournalWrite(t, Publishing, i, None), d, b, c);
  }

  lemma {:induction false} PublishFromRuns(t: Transaction, d: Disk, i: nat) returns (e: Disk)
    requires WellFormed(t) && i <= |t.names| && Known(t, d)
    requires Placed(t, d, i) && !d.control.value.partial
    ensures Runs(t, PublishFrom(t, i), d, e)
    ensures Placed(t, e, |t.names|) && !e.control.value.partial
    ensures d.control.value.journal.Some? ==> e.control.value.journal.Some?
    decreases |t.names| - i
  {
    if i == |t.names| {
      e := d;
    } else {
      PublishOneRuns(t, d, i);
      var m := At(t, i + 1, Publishing, i + 1, None);
      assert InFlight(t, m, i + 1);
      e := PublishFromRuns(t, m, i + 1);
      RunsCompose(t, PublishOne(t, i), PublishFrom(t, i + 1), d, m, e);
    }
  }

  lemma {:induction false} RollbackFromRuns(t: Transaction, d: Disk, k: nat) returns (e: Disk)
    requires WellFormed(t) && k <= |t.names| && Known(t, d)
    requires Placed(t, d, k) && !d.control.value.partial
    ensures Runs(t, RollbackFrom(t, k), d, e)
    ensures k > 0 ==> e == At(t, 0, Publishing, 0, None)
    ensures k == 0 ==> e == d
    decreases k
  {
    if k == 0 {
      e := d;
    } else {
      RollbackOneRuns(t, d, k - 1);
      var m := At(t, k - 1, Publishing, k - 1, None);
      assert InFlight(t, m, k - 1);
      e := RollbackFromRuns(t, m, k - 1);
      RunsCompose(t, RollbackOne(t, k - 1), RollbackFrom(t, k - 1), d, m, e);
    }
  }

  lemma Whole(t: Transaction)
    requires WellFormed(t)
    ensures Shown(t, 0) == map[] && Hidden(t, 0) == t.planned
    ensures Shown(t, |t.names|) == t.planned && Hidden(t, |t.names|) == map[]
  {
    assert t.names[..|t.names|] == t.names == t.names[0..];
    assert Shown(t, |t.names|).Keys == t.planned.Keys == Hidden(t, 0).Keys;
  }

  lemma {:induction false} FillsRun(t: Transaction, d: Disk, contents: seq<map<Name, Entry>>) returns (e: Disk)
    requires WellFormed(t) && Idle(t, d)
    ensures Runs(t, Fills(contents), d, e) && Idle(t, e)
    ensures e.control.value.partial == d.control.value.partial
    ensures contents != [] ==> e.control.value.staging == Some(contents[|contents| - 1])
    decreases |contents|
  {
    if contents == [] {
      e := d;
    } else {
      var m := Apply(FillStaging(contents[0]), d).value;
      Single(t, FillStaging(contents[0]), d);
      e := FillsRun(t, m, contents[1..]);
      RunsCompose(t, [FillStaging(contents[0])], Fills(contents[1..]), d, m, e);
    }
  }

  // Ready to materialize: no staging, and a journal, if any, that claims nothing.
  ghost predicate Clear(t: Transaction, d: Disk) {
    && d.destination == map[]
    && d.control.Some?
    && !d.control.value.partial
    && d.control.value.staging.None?
    && (d.control.value.journal.Some? ==> Idle(t, With(d, d.control.value.(staging := Some(map[])))))
  }

  lemma MaterializeRuns(t: Transaction, d: Disk, contents: seq<map<Name, Entry>>) returns (e: Disk)
    requires WellFormed(t) && Clear(t, d)
    ensures Runs(t, Materialize(t, contents), d, e)
    ensures Placed(t, e, 0) && !e.control.value.partial
    ensures e.control.value.journal == Some(Authenticated(t, Staged, 0, None))
  {
    var a := Apply(MakeStaging, d).value;
    Single(t, MakeStaging, d);
    var b := Committed(t, a, Materializing, 0, None);
    assert Idle(t, b);
    WriteRuns(t, a, Materializing, 0, None);
    RunsCompose(t, [MakeStaging], JournalWrite(t, Materializing, 0, None), d, a, b);
    var c := FillsRun(t, b, contents + [t.planned]);
    RunsCompose(t, [MakeStaging] + JournalWrite(t, Materializing, 0, None), Fills(contents + [t.planned]), d, b, c);
    e := Committed(t, c, Staged, 0, None);
    assert Idle(t, e);
    WriteRuns(t, c, Staged, 0, None);
    RunsCompose(t, [MakeStaging] + JournalWrite(t, Materializing, 0, None) + Fills(contents + [t.planned]),
                JournalWrite(t, Staged, 0, None), d, c, e);
    Whole(t);
  }

  lemma {:induction false} RetireRuns(t: Transaction, d: Disk)
    requires WellFormed(t) && Known(t, d)
    requires Placed(t, d, |t.names|) && !d.control.value.partial && d.control.value.journal.Some?
    ensures Runs(t, Retire(), d, Disk(t.planned, None))
  {
    Whole(t);
    var a := Apply(RemoveStaging, d).value;
    var b := Apply(RemoveJournal, a).value;
    var c := Apply(RemoveControl, b).value;
    Single(t, RemoveStaging, d);
    Single(t, RemoveJournal, a);
    Single(t, RemoveControl, b);
    RunsCompose(t, [RemoveStaging], [RemoveJournal], d, a, b);
    RunsCompose(t, [RemoveStaging] + [RemoveJournal], [RemoveControl], d, b, c);
  }

  lemma {:induction false} BodyRuns(t: Transaction, d: Disk, contents: seq<map<Name, Entry>>)
    requires WellFormed(t) && Clear(t, d)
    ensures Runs(t, Body(t, contents), d, Disk(t.planned, None))
  {
    var a := MaterializeRuns(t, d, contents);
    Whole(t);
    RunsPrefix(t, Materialize(t, contents), d, a, |Materialize(t, contents)|);
    assert Materialize(t, contents)[..|Materialize(t, contents)|] == Materialize(t, contents);
    var b := PublishFromRuns(t, a, 0);
    RunsPrefix(t, PublishFrom(t, 0), a, b, |PublishFrom(t, 0)|);
    RunsCompose(t, Materialize(t, contents), PublishFrom(t, 0), d, a, b);
    RetireRuns(t, b);
    RunsCompose(t, Materialize(t, contents) + PublishFrom(t, 0), Retire(), d, b, Disk(t.planned, None));
  }

  lemma {:induction false} FreshRuns(t: Transaction, contents: seq<map<Name, Entry>>)
    requires WellFormed(t)
    ensures Runs(t, FreshProgram(t, contents), Disk(map[], None), Disk(t.planned, None))
  {
    var a := Apply(CreateControl, Disk(map[], None)).value;
    Single(t, CreateControl, Disk(map[], None));
    BodyRuns(t, a, contents);
    RunsCompose(t, [CreateControl], Body(t, contents), Disk(map[], None), a, Disk(t.planned, None));
  }

  // ---- Resume ----

  lemma VisibleIffBelow(t: Transaction, v: nat, i: nat)
    requires WellFormed(t) && v <= |t.names| && i < |t.names|
    ensures t.names[i] in Shown(t, v) <==> i < v
    ensures t.names[i] in Hidden(t, v) <==> v <= i
  {
    if i < v {
      assert t.names[..v][i] == t.names[i];
    } else {
      assert t.names[v..][i - v] == t.names[i];
    }
  }

  // The journal and the place of the intended entry determine how many entries are visible.
  lemma ResolutionIsExact(t: Transaction, d: Disk, v: nat)
    requires WellFormed(t) && InFlight(t, d, v)
    ensures ResolvedCount(t, d.control.value.journal.value, d) == Some(v)
  {
    var j := d.control.value.journal.value;
    if j.intent.Some? {
      VisibleIffBelow(t, v, j.intent.value);
    }
  }

  lemma SubPrefix<T>(s: seq<T>, a: nat, b: nat, x: T)
    requires a <= b <= |s| && x in s[..a]
    ensures x in s[..b]
  {
    var i :| 0 <= i < a && s[..a][i] == x;
    assert s[..b][i] == x;
  }

  lemma InFlightAccepted(t: Transaction, d: Disk, v: nat)
    requires WellFormed(t) && InFlight(t, d, v)
    ensures ResumeAccepts(t, d)
  {
    var j := d.control.value.journal.value;
    var required := if j.phase.RollingBack? then j.published - 1 else j.published;
    var allowed := if j.phase.Publishing? && j.intent.Some? then j.published + 1 else j.published;
    assert required <= v <= allowed <= |t.names|;
    forall n | n in d.destination ensures n in t.names[..allowed] && n in t.planned {
      SubPrefix(t.names, v, allowed, n);
      SubPrefix(t.names, v, |t.names|, n);
      assert n in t.planned.Keys;
    }
    forall n | n in t.names[..required] ensures n in d.destination {
      SubPrefix(t.names, required, v, n);
    }
  }

  lemma NamedIffBelow(t: Transaction, v: nat, i: nat)
    requires WellFormed(t) && v <= |t.names| && i < |t.names|
    ensures t.names[i] in t.names[..v] <==> i < v
  {
    VisibleIffBelow(t, v, i);
    assert t.names[i] in t.names[..v] <==> t.names[i] in Shown(t, v);
  }

  // With exactly the first v entries visible, an authentic journal in a valid state is
  // accepted if and only if it admits v.
  lemma AcceptedIffAdmitted(t: Transaction, d: Disk, v: nat)
    requires WellFormed(t) && Journalled(t, d) && Placed(t, d, v) && StateIsValid(t, d.control.value.journal.value)
    ensures ResumeAccepts(t, d) <==> Admits(d.control.value.journal.value, v)
  {
    var j := d.control.value.journal.value;
    if Admits(j, v) {
      assert InFlight(t, d, v);
      InFlightAccepted(t, d, v);
    }
    var required := if j.phase.RollingBack? then j.published - 1 else j.published;
    var allowed := if j.phase.Publishing? && j.intent.Some? then j.published + 1 else j.published;
    if v < |t.names| {
      NamedIffBelow(t, required, v);
      VisibleIffBelow(t, v, v);
    }
    if allowed < |t.names| {
      NamedIffBelow(t, allowed, allowed);
      VisibleIffBelow(t, v, allowed);
    }
  }

  // The journal was sealed for this transaction, and exactly the first v planned entries are
  // visible, unchanged and with nothing else, for a count v that the journal admits.
  ghost predicate IsOurs(t: Transaction, d: Disk)
    requires WellFormed(t)
  {
    && Journalled(t, d)
    && (d.control.value.journal.value.intent.Some? ==> d.control.value.journal.value.intent.value < |t.names|)
    && exists v: nat :: v <= |t.names| && Admits(d.control.value.journal.value, v) && d.destination == Shown(t, v)
  }

  // On an arbitrary disk, resume validation accepts exactly that.
  lemma AcceptedExactly(t: Transaction, d: Disk)
    requires WellFormed(t)
    ensures ResumeAccepts(t, d) <==> IsOurs(t, d)
  {
    if IsOurs(t, d) {
      OursAccepted(t, d);
    }
    if ResumeAccepts(t, d) {
      AcceptedIsOurs(t, d);
    }
  }

  lemma OursAccepted(t: Transaction, d: Disk)
    requires WellFormed(t) && IsOurs(t, d)
    ensures ResumeAccepts(t, d)
  {
    var v: nat :| v <= |t.names| && Admits(d.control.value.journal.value, v) && d.destination == Shown(t, v);
    var placed := With(d, d.control.value.(staging := Some(Hidden(t, v))));
    assert InFlight(t, placed, v);
    InFlightAccepted(t, placed, v);
  }

  lemma AcceptedIsOurs(t: Transaction, d: Disk)
    requires WellFormed(t) && ResumeAccepts(t, d)
    ensures IsOurs(t, d)
  {
    var j := d.control.value.journal.value;
    var required := if j.phase.RollingBack? then j.published - 1 else j.published;
    var allowed := if j.phase.Publishing? && j.intent.Some? then j.published + 1 else j.published;
    var v := if required < allowed && t.names[required] in d.destination then allowed else required;
    assert Journalled(t, d);
    ShownBetween(t, d, required, allowed, v);
    assert Admits(j, v);
  }

  // What lies between the first `required` and the first `allowed` names, at most one more, is
  // the first so many.
  lemma ShownBetween(t: Transaction, d: Disk, required: nat, allowed: nat, v: nat)
    requires WellFormed(t) && required <= allowed <= |t.names| && allowed <= required + 1
    requires v == if required < allowed && t.names[required] in d.destination then allowed else required
    requires forall n | n in d.destination :: n in t.names[..allowed]
    requires forall n | n in t.names[..required] :: n in d.destination
    requires forall n | n in d.destination :: n in t.planned && d.destination[n] == t.planned[n]
    ensures d.destination == Shown(t, v)
  {
    if required < allowed {
      forall n ensures n in t.names[..allowed] <==> n in t.names[..required] || n == t.names[required] {
        PrefixGrows(t.names, required, n);
      }
    }
    assert forall n :: n in d.destination <==> n in t.names[..v];
    assert forall n | n in d.destination :: Shown(t, v)[n] == d.destination[n];
  }

  // A journal of another Bundle, another Recovery Secret or another count is not accepted.
  lemma ForeignJournalRefused(s: Transaction, t: Transaction, d: Disk, phase: Phase, published: nat,
                              intent: Option<nat>)
    requires WellFormed(t) && d.control.Some?
    requires d.control.value.journal == Some(Authenticated(s, phase, published, intent))
    ensures ResumeAccepts(t, d) ==>
              s.secret == t.secret && s.bundleHash == t.bundleHash && s.stagedItems == t.stagedItems
              && s.stagedBytes == t.stagedBytes
  {
    AcceptedExactly(t, d);
  }

  // A journal whose phase, count or intent is not what it was sealed with is not accepted.
  lemma AlteredJournalRefused(s: Transaction, t: Transaction, d: Disk, phase: Phase, published: nat,
                              intent: Option<nat>)
    requires WellFormed(t) && d.control.Some? && d.control.value.journal.Some?
    requires d.control.value.journal.value.tag == Authenticated(s, phase, published, intent).tag
    ensures var j := d.control.value.journal.value;
      ResumeAccepts(t, d) ==> j.phase == phase && j.published == published && j.intent == intent
  {
    AcceptedExactly(t, d);
  }

  // An earlier process stopped after it had recorded its intent, and a resume has resolved the
  // intent and written the journal that says so, without synchronizing destination and staging.
  // A power failure that undoes the earlier process's move leaves a state that is refused.
  lemma {:induction false} LostMove(t: Transaction, d: Disk, v: nat)
    requires WellFormed(t) && InFlight(t, d, v) && !d.control.value.partial
    requires d.control.value.journal.value.intent.Some?
    ensures var j := d.control.value.journal.value;
      var written := Execute(ReconcileProgram(t, j, v)[..2], d);
      && j.published <= |t.names| && written.Some? && written.value.control.Some?
      && var lost := Disk(Shown(t, j.published),
                          Some(written.value.control.value.(staging := Some(Hidden(t, j.published)))));
         ResumeAccepts(t, lost) <==> v == j.published
  {
    var j := d.control.value.journal.value;
    var m := Committed(t, d, Publishing, v, None);
    assert InFlight(t, m, v);
    assert ReconcileProgram(t, j, v)[..2] == JournalWrite(t, Publishing, v, None);
    WriteRuns(t, d, Publishing, v, None);
    RunsPrefix(t, JournalWrite(t, Publishing, v, None), d, m, 2);
    assert JournalWrite(t, Publishing, v, None)[..2] == JournalWrite(t, Publishing, v, None);
    var lost := Disk(Shown(t, j.published), Some(m.control.value.(staging := Some(Hidden(t, j.published)))));
    AcceptedIffAdmitted(t, lost, j.published);
  }

  // Resume validation accepts a state left by any run exactly when the journal and the
  // staging directory are both there.
  lemma AcceptedUnlessBare(t: Transaction, d: Disk)
    requires WellFormed(t) && Known(t, d)
    ensures ResumeAccepts(t, d) <==> !Bare(d)
  {
    if v: nat :| InFlight(t, d, v) {
      InFlightAccepted(t, d, v);
    }
  }

  lemma ReconcileRuns(t: Transaction, d: Disk, v: nat) returns (e: Disk)
    requires WellFormed(t) && InFlight(t, d, v) && !d.control.value.partial
    ensures Runs(t, ReconcileProgram(t, d.control.value.journal.value, v), d, e)
    ensures Placed(t, e, 0) && Idle(t, e) && !e.control.value.partial
  {
    var j := d.control.value.journal.value;
    Whole(t);
    if j.intent.Some? {
      var m := Committed(t, d, Publishing, v, None);
      assert InFlight(t, m, v);
      WriteRuns(t, d, Publishing, v, None);
      e := RollbackFromRuns(t, m, v);
      RunsCompose(t, JournalWrite(t, Publishing, v, None), RollbackFrom(t, v), d, m, e);
    } else {
      assert [] + RollbackFrom(t, v) == RollbackFrom(t, v);
      e := RollbackFromRuns(t, d, v);
    }
  }

  lemma {:induction false} ResetRuns(t: Transaction, d: Disk, clears: seq<map<Name, Entry>>,
                                     contents: seq<map<Name, Entry>>)
    requires WellFormed(t) && Idle(t, d) && !d.control.value.partial
    ensures Runs(t, RedoProgram(t, clears, contents), d, Disk(t.planned, None))
  {
    var a := FillsRun(t, d, clears);
    var b := Apply(ResetStaging, a).value;
    Single(t, ResetStaging, a);
    RunsCompose(t, Fills(clears), [ResetStaging], d, a, b);
    BodyRuns(t, b, contents);
    RunsCompose(t, Fills(clears) + [ResetStaging], Body(t, contents), d, b, Disk(t.planned, None));
  }

  lemma IdleResolves(t: Transaction, d: Disk)
    requires WellFormed(t) && Idle(t, d) && ResumeAccepts(t, d)
    ensures ResolvedCount(t, d.control.value.journal.value, d) == Some(0)
    ensures ReconcileProgram(t, d.control.value.journal.value, 0) == []
  {
  }

  // An undisturbed rollback leaves nothing visible; if publication had begun, every entry
  // is back in staging.
  lemma RollbackRuns(t: Transaction, d: Disk) returns (published: nat, e: Disk)
    requires WellFormed(t) && Known(t, d) && ResumeAccepts(t, d)
    ensures ResolvedCount(t, d.control.value.journal.value, d) == Some(published) && published <= |t.names|
    ensures Runs(t, RecoveryProgram(t, d, published), d, e)
    ensures Idle(t, e) && !e.control.value.partial
    ensures !Idle(t, d) ==> Placed(t, d, published) && e.control.value.staging == Some(t.planned)
    ensures Idle(t, d) ==> published == 0
  {
    var c := d.control.value;
    var discard := if c.partial then [DiscardPartial] else [];
    var a := With(d, c.(partial := false));
    PartialIsHarmless(t, d, false);
    if c.partial {
      Single(t, DiscardPartial, d);
    }
    Whole(t);
    if Idle(t, d) {
      IdleResolves(t, d);
      published, e := 0, a;
    } else {
      published :| InFlight(t, d, published);
      ResolutionIsExact(t, d, published);
      assert InFlight(t, a, published);
      e := ReconcileRuns(t, a, published);
    }
    RunsCompose(t, discard, ReconcileProgram(t, c.journal.value, published), d, a, e);
  }

  lemma {:induction false} ResumeRuns(t: Transaction, d: Disk, clears: seq<map<Name, Entry>>,
                                      contents: seq<map<Name, Entry>>)
    requires WellFormed(t) && Known(t, d) && ResumeAccepts(t, d)
    ensures ResumeProgram(t, d, clears, contents).Some?
    ensures Runs(t, ResumeProgram(t, d, clears, contents).value, d, Disk(t.planned, None))
  {
    var published, m := RollbackRuns(t, d);
    ResetRuns(t, m, clears, contents);
    RunsCompose(t, RecoveryProgram(t, d, published), RedoProgram(t, clears, contents), d, m, Disk(t.planned, None));
  }

  // ---- Any number of interrupted processes ----

  // One resume that is stopped after `steps` file operations, or refused by validation.
  datatype Attempt = Attempt(clears: seq<map<Name, Entry>>, contents: seq<map<Name, Entry>>, steps: nat)

  function AfterAttempt(t: Transaction, d: Disk, a: Attempt): Option<Disk> {
    if !ResumeAccepts(t, d) then Some(d)
    else
      var program := ResumeProgram(t, d, a.clears, a.contents);
      if program.None? then Some(d)
      else Execute(StoppedAfter(program.value, a.steps), d)
  }

  // A program that is stopped after so many operations, if it has that many.
  function StoppedAfter(program: seq<Op>, steps: nat): seq<Op> {
    program[..if steps < |program| then steps else |program|]
  }

  lemma {:induction false} RunsUntilStopped(t: Transaction, program: seq<Op>, d: Disk, e: Disk, steps: nat)
    requires WellFormed(t) && Runs(t, program, d, e)
    ensures Execute(StoppedAfter(program, steps), d).Some? && Known(t, Execute(StoppedAfter(program, steps), d).value)
  {
    RunsPrefix(t, program, d, e, if steps < |program| then steps else |program|);
  }

  function AfterAttempts(t: Transaction, d: Disk, attempts: seq<Attempt>): Option<Disk>
    decreases |attempts|
  {
    if attempts == [] then Some(d)
    else
      var next := AfterAttempt(t, d, attempts[0]);
      if next.None? then None else AfterAttempts(t, next.value, attempts[1..])
  }

  lemma AttemptStaysKnown(t: Transaction, d: Disk, a: Attempt)
    requires WellFormed(t) && Known(t, d)
    ensures AfterAttempt(t, d, a).Some? && Known(t, AfterAttempt(t, d, a).value)
  {
    if ResumeAccepts(t, d) {
      ResumeRuns(t, d, a.clears, a.contents);
      RunsUntilStopped(t, ResumeProgram(t, d, a.clears, a.contents).value, d, Disk(t.planned, None), a.steps);
    }
  }

  lemma {:induction false} AttemptsStayKnown(t: Transaction, d: Disk, attempts: seq<Attempt>)
    requires WellFormed(t) && Known(t, d)
    ensures AfterAttempts(t, d, attempts).Some? && Known(t, AfterAttempts(t, d, attempts).value)
    decreases |attempts|
  {
    if attempts != [] {
      AttemptStaysKnown(t, d, attempts[0]);
      AttemptsStayKnown(t, AfterAttempt(t, d, attempts[0]).value, attempts[1..]);
    }
  }

  // A fresh Restore is stopped after any number of operations, and so is every resume after
  // it. Whatever state is left, resume validation accepts it exactly when the journal and
  // staging exist, and a resume that then runs undisturbed completes the Restore.
  lemma {:induction false} AnyCrashesThenOneResumeCompletes(t: Transaction, contents: seq<map<Name, Entry>>, steps: nat,
                                                            attempts: seq<Attempt>, last: Attempt)
    requires WellFormed(t) && steps <= |FreshProgram(t, contents)|
    ensures Execute(FreshProgram(t, contents)[..steps], Disk(map[], None)).Some?
    ensures AfterAttempts(t, Execute(FreshProgram(t, contents)[..steps], Disk(map[], None)).value, attempts).Some?
    ensures var d := AfterAttempts(t, Execute(FreshProgram(t, contents)[..steps], Disk(map[], None)).value,
                                   attempts).value;
      && Known(t, d)
      && (ResumeAccepts(t, d) <==> !Bare(d))
      && (ResumeAccepts(t, d) ==>
            var program := ResumeProgram(t, d, last.clears, last.contents);
            program.Some? && Execute(program.value, d) == Some(Disk(t.planned, None)))
  {
    FreshRuns(t, contents);
    RunsPrefix(t, FreshProgram(t, contents), Disk(map[], None), Disk(t.planned, None), steps);
    var first := Execute(FreshProgram(t, contents)[..steps], Disk(map[], None)).value;
    AttemptsStayKnown(t, first, attempts);
    var d := AfterAttempts(t, first, attempts).value;
    AcceptedUnlessBare(t, d);
    if ResumeAccepts(t, d) {
      ResumeRuns(t, d, last.clears, last.contents);
      var program := ResumeProgram(t, d, last.clears, last.contents).value;
      RunsPrefix(t, program, d, Disk(t.planned, None), |program|);
      assert program[..|program|] == program;
    }
  }

  predicate KeepsControl(op: Op) {
    !op.ResetStaging? && !op.RemoveStaging? && !op.RemoveJournal? && !op.RemoveControl? && !op.CleanUp?
  }

  lemma {:induction false} ControlKept(ops: seq<Op>, d: Disk)
    requires (forall op | op in ops :: KeepsControl(op)) && Execute(ops, d).Some? && !Bare(d)
    ensures !Bare(Execute(ops, d).value)
  {
    if ops != [] {
      assert ops[0] in ops;
      ControlKept(ops[1..], Apply(ops[0], d).value);
    }
  }

  lemma {:induction false} FillsKeepControl(contents: seq<map<Name, Entry>>)
    ensures forall op | op in Fills(contents) :: KeepsControl(op)
  {
    if contents != [] {
      FillsKeepControl(contents[1..]);
    }
  }

  lemma {:induction false} PublishKeepsControl(t: Transaction, i: nat)
    requires i <= |t.names|
    ensures forall op | op in PublishFrom(t, i) :: KeepsControl(op)
    decreases |t.names| - i
  {
    if i < |t.names| {
      PublishKeepsControl(t, i + 1);
    }
  }

  function Setup(t: Transaction): seq<Op> {
    [CreateControl, MakeStaging] + JournalWrite(t, Materializing, 0, None)
  }

  // From the first journal to the last publication.
  function Middle(t: Transaction, contents: seq<map<Name, Entry>>): seq<Op> {
    Fills(contents + [t.planned]) + JournalWrite(t, Staged, 0, None) + PublishFrom(t, 0)
  }

  ghost predicate NoJournal(d: Disk) {
    d.control.None? || d.control.value.journal.None?
  }

  ghost predicate NoStaging(d: Disk) {
    d.control.None? || d.control.value.staging.None?
  }

  lemma {:induction false} JournalNeedsCommit(ops: seq<Op>, d: Disk)
    requires (forall op | op in ops :: !op.CommitJournal?) && Execute(ops, d).Some? && NoJournal(d)
    ensures NoJournal(Execute(ops, d).value)
  {
    if ops != [] {
      assert ops[0] in ops;
      JournalNeedsCommit(ops[1..], Apply(ops[0], d).value);
    }
  }

  lemma {:induction false} StagingNeedsMake(ops: seq<Op>, d: Disk)
    requires (forall op | op in ops :: !op.MakeStaging?) && Execute(ops, d).Some? && NoStaging(d)
    ensures NoStaging(Execute(ops, d).value)
  {
    if ops != [] {
      assert ops[0] in ops;
      StagingNeedsMake(ops[1..], Apply(ops[0], d).value);
    }
  }

  lemma {:induction false} ExecuteTwo(x: Op, y: Op, d: Disk)
    requires Apply(x, d).Some?
    ensures Execute([x, y], d) == Apply(y, Apply(x, d).value)
  {
    assert [x, y][1..] == [y];
    assert [y][1..] == [];
    assert Execute([y], Apply(x, d).value) == Apply(y, Apply(x, d).value);
  }

  lemma SetupRuns(t: Transaction)
    ensures Execute(Setup(t), Disk(map[], None)).Some? && !Bare(Execute(Setup(t), Disk(map[], None)).value)
  {
    var d := Disk(map[], None);
    var e := With(d, Control(None, false, Some(map[])));
    ExecuteTwo(CreateControl, MakeStaging, d);
    ExecuteSplits([CreateControl, MakeStaging], JournalWrite(t, Materializing, 0, None), d);
    ExecuteTwo(CreatePartial, CommitJournal(Authenticated(t, Materializing, 0, None)), e);
  }

  // Before the first journal is in place a crash leaves a state that resume refuses.
  lemma BareInSetup(t: Transaction, contents: seq<map<Name, Entry>>, steps: nat)
    requires steps < 4 && Execute(FreshProgram(t, contents)[..steps], Disk(map[], None)).Some?
    ensures Bare(Execute(FreshProgram(t, contents)[..steps], Disk(map[], None)).value)
  {
    var program := FreshProgram(t, contents);
    assert program == Setup(t) + Middle(t, contents) + Retire();
    assert program[..steps] == Setup(t)[..steps];
    forall op | op in Setup(t)[..steps] ensures !op.CommitJournal? {
      var i :| 0 <= i < steps && Setup(t)[..steps][i] == op;
      assert Setup(t)[i] == op;
    }
    JournalNeedsCommit(program[..steps], Disk(map[], None));
  }

  lemma ControlInMiddle(t: Transaction, contents: seq<map<Name, Entry>>, k: nat)
    requires k <= |Middle(t, contents)| && Execute(Setup(t) + Middle(t, contents)[..k], Disk(map[], None)).Some?
    ensures !Bare(Execute(Setup(t) + Middle(t, contents)[..k], Disk(map[], None)).value)
  {
    var part := Middle(t, contents)[..k];
    SetupRuns(t);
    ExecuteSplits(Setup(t), part, Disk(map[], None));
    FillsKeepControl(contents + [t.planned]);
    PublishKeepsControl(t, 0);
    forall op | op in part ensures KeepsControl(op) {
      var i :| 0 <= i < |part| && part[i] == op;
      assert Middle(t, contents)[i] == op;
      assert op in Middle(t, contents);
    }
    ControlKept(part, Execute(Setup(t), Disk(map[], None)).value);
  }

  lemma {:induction false} BareInRetire(d: Disk, k: nat)
    requires 0 < k <= 3 && Execute(Retire()[..k], d).Some?
    ensures Bare(Execute(Retire()[..k], d).value)
  {
    var rest := Retire()[..k];
    assert Apply(rest[0], d).Some? && NoStaging(Apply(rest[0], d).value);
    forall op | op in rest[1..] ensures !op.MakeStaging? {
      assert op in Retire();
    }
    StagingNeedsMake(rest[1..], Apply(rest[0], d).value);
  }

  lemma BareAfterShown(t: Transaction, contents: seq<map<Name, Entry>>, shown: seq<Op>, steps: nat)
    requires WellFormed(t) && shown == Setup(t) + Middle(t, contents) && FreshProgram(t, contents) == shown + Retire()
    requires |shown| < steps <= |FreshProgram(t, contents)|
    ensures Execute(FreshProgram(t, contents)[..steps], Disk(map[], None)).Some?
    ensures Bare(Execute(FreshProgram(t, contents)[..steps], Disk(map[], None)).value)
  {
    var program, empty := FreshProgram(t, contents), Disk(map[], None);
    FreshRuns(t, contents);
    RunsPrefix(t, program, empty, Disk(t.planned, None), |shown|);
    RunsPrefix(t, program, empty, Disk(t.planned, None), steps);
    assert program[..steps] == shown + Retire()[..steps - |shown|];
    assert program[..|shown|] == shown;
    ExecuteSplits(shown, Retire()[..steps - |shown|], empty);
    BareInRetire(Execute(shown, empty).value, steps - |shown|);
  }

  // When the transaction control of a fresh Restore lacks its journal or its staging directory.
  lemma BareWindow(t: Transaction, contents: seq<map<Name, Entry>>, steps: nat)
    requires WellFormed(t) && steps <= |FreshProgram(t, contents)|
    requires Execute(FreshProgram(t, contents)[..steps], Disk(map[], None)).Some?
    ensures Bare(Execute(FreshProgram(t, contents)[..steps], Disk(map[], None)).value)
       <==> !(4 <= steps <= |FreshProgram(t, contents)| - 3)
  {
    var program := FreshProgram(t, contents);
    var shown := Setup(t) + Middle(t, contents);
    assert program == shown + Retire();
    if steps < 4 {
      BareInSetup(t, contents, steps);
    } else if steps <= |shown| {
      assert program[..steps] == Setup(t) + Middle(t, contents)[..steps - 4];
      ControlInMiddle(t, contents, steps - 4);
    } else {
      BareAfterShown(t, contents, shown, steps);
    }
  }

  // The crash points of a fresh Restore from which a resume is accepted are exactly those
  // after the first journal is in place and before the emptied staging directory is removed.
  lemma FreshResumableWindow(t: Transaction, contents: seq<map<Name, Entry>>, steps: nat)
    requires WellFormed(t) && steps <= |FreshProgram(t, contents)|
    ensures Execute(FreshProgram(t, contents)[..steps], Disk(map[], None)).Some?
    ensures ResumeAccepts(t, Execute(FreshProgram(t, contents)[..steps], Disk(map[], None)).value)
       <==> 4 <= steps <= |FreshProgram(t, contents)| - 3
  {
    FreshRuns(t, contents);
    RunsPrefix(t, FreshProgram(t, contents), Disk(map[], None), Disk(t.planned, None), steps);
    AcceptedUnlessBare(t, Execute(FreshProgram(t, contents)[..steps], Disk(map[], None)).value);
    BareWindow(t, contents, steps);
  }

  // In every state in which publication or its rollback has begun, each planned entry is in
  // exactly one of the two places, unchanged, and nothing else is in either.
  lemma EachEntryInOnePlace(t: Transaction, d: Disk, n: Name)
    requires WellFormed(t) && Consistent(t, d) && !Idle(t, d)
    ensures d.control.Some? && d.control.value.staging.Some?
    ensures var staging := d.control.value.staging.value;
      && (n in t.planned ==> (n in d.destination) != (n in staging))
      && (n in d.destination ==> n in t.planned && d.destination[n] == t.planned[n])
      && (n in staging ==> n in t.planned && staging[n] == t.planned[n])
  {
    var v: nat :| InFlight(t, d, v);
    assert n in t.planned.Keys <==> n in t.names;
    if n in t.names {
      var i :| 0 <= i < |t.names| && t.names[i] == n;
      VisibleIffBelow(t, v, i);
    }
    if n in t.names[..v] {
      SubPrefix(t.names, v, |t.names|, n);
    }
  }
}
