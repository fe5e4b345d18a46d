// The on-disk state of a Restore transaction and the file operations it is made of.
// A process synchronizes the directories after every operation before it starts the next
// one, so if they are synchronized when it starts, a crash leaves the effect of a prefix of
// its operations. A process that stops between an operation and its synchronization and is
// not followed by a power failure leaves the operation outstanding; RestoreRecovery.LostMove
// says what then may be lost.
module RestoreJournal {
  import opened Outcomes

  type Name = string

  // A top-level entry with everything below it.
  datatype Entry = Entry(identity: nat)

  datatype Phase = Materializing | Staged | Publishing | RollingBack

  // An ideal keyed hash: equal tags mean equal keys and equal payloads.
  datatype Tag = Tag(secret: nat, bundleHash: nat, stagedItems: nat, stagedBytes: nat,
                     phase: Phase, published: nat, intent: Option<nat>)

  datatype Journal = Journal(version: nat, bundleHash: nat, stagedItems: nat, stagedBytes: nat,
                             phase: Phase, published: nat, intent: Option<nat>, tag: Tag)

  // What one Restore is authenticated for. `names` are the top-level entry names in order.
  datatype Transaction = Transaction(secret: nat, bundleHash: nat, stagedItems: nat, stagedBytes: nat,
                                     names: seq<Name>, planned: map<Name, Entry>)

  // The names are distinct and exactly those of the planned entries.
  ghost predicate WellFormed(t: Transaction) {
    && (forall i, j :: 0 <= i < j < |t.names| ==> t.names[i] != t.names[j])
    && t.planned.Keys == set n | n in t.names
  }

  datatype Control = Control(journal: Option<Journal>, partial: bool, staging: Option<map<Name, Entry>>)

  // `destination` holds the visible entries besides the control directory.
  datatype Disk = Disk(destination: map<Name, Entry>, control: Option<Control>)

  datatype Op =
    | CreateControl
    | MakeStaging
    | FillStaging(content: map<Name, Entry>)
    | ResetStaging
    | CreatePartial
    | CommitJournal(journal: Journal)
    | DiscardPartial
    | Publish(name: Name)
    | Withdraw(name: Name)
    | RemoveStaging
    | RemoveJournal
    | RemoveControl
    | CleanUp

  function Authenticated(t: Transaction, phase: Phase, published: nat, intent: Option<nat>): (j: Journal) {
    Journal(2, t.bundleHash, t.stagedItems, t.stagedBytes, phase, published, intent,
            Tag(t.secret, t.bundleHash, t.stagedItems, t.stagedBytes, phase, published, intent))
  }

  predicate Authenticates(t: Transaction, j: Journal) {
    && j.version == 2
    && j.bundleHash == t.bundleHash
    && j.stagedItems == t.stagedItems
    && j.stagedBytes == t.stagedBytes
    && j.tag == Tag(t.secret, j.bundleHash, j.stagedItems, j.stagedBytes, j.phase, j.published, j.intent)
  }

  // What the operating system does; None when it refuses. Renames never overwrite.
  function Apply(op: Op, d: Disk): Option<Disk> {
    if op.CreateControl? then
      if d.control.None? then Some(d.(control := Some(Control(None, false, None)))) else None
    else if d.control.None? then None
    else
      var c := d.control.value;
      match op
      case MakeStaging => if c.staging.None? then Some(With(d, c.(staging := Some(map[])))) else None
      case FillStaging(content) => if c.staging.Some? then Some(With(d, c.(staging := Some(content)))) else None
      case ResetStaging => if c.staging.Some? then Some(With(d, c.(staging := None))) else None
      case CreatePartial => if c.partial then None else Some(With(d, c.(partial := true)))
      case CommitJournal(j) => if c.partial then Some(With(d, c.(journal := Some(j), partial := false))) else None
      case DiscardPartial => if c.partial then Some(With(d, c.(partial := false))) else None
      case Publish(n) =>
        if c.staging.Some? && n in c.staging.value && n !in d.destination then
          Some(Disk(d.destination[n := c.staging.value[n]], Some(c.(staging := Some(c.staging.value - {n})))))
        else None
      case Withdraw(n) =>
        if c.staging.Some? && n !in c.staging.value && n in d.destination then
          Some(Disk(d.destination - {n}, Some(c.(staging := Some(c.staging.value[n := d.destination[n]])))))
        else None
      case RemoveStaging => if c.staging == Some(map[]) then Some(With(d, c.(staging := None))) else None
      case RemoveJournal => if c.journal.Some? then Some(With(d, c.(journal := None))) else None
      case RemoveControl => if c == Control(None, false, None) then Some(d.(control := None)) else None
      case CleanUp => Some(d.(control := None))
      case CreateControl => None
  }

  function With(d: Disk, c: Control): Disk {
    d.(control := Some(c))
  }

  function Execute(ops: seq<Op>, d: Disk): Option<Disk> {
    if ops == [] then Some(d)
    else
      var next := Apply(ops[0], d);
      if next.None? then None else Execute(ops[1..], next.value)
  }

  lemma {:induction false} ExecuteExtends(ops: seq<Op>, op: Op, d: Disk)
    requires Execute(ops, d).Some? && Apply(op, Execute(ops, d).value).Some?
    ensures Execute(ops + [op], d) == Apply(op, Execute(ops, d).value)
  {
    if ops == [] {
      assert ops + [op] == [op];
      assert Execute([op], d) == Execute([op][1..], Apply(op, d).value);
    } else {
      assert (ops + [op])[1..] == ops[1..] + [op];
      ExecuteExtends(ops[1..], op, Apply(ops[0], d).value);
    }
  }

  lemma {:induction false} ExecuteSplits(a: seq<Op>, b: seq<Op>, d: Disk)
    requires Execute(a, d).Some?
    ensures Execute(a + b, d) == Execute(b, Execute(a, d).value)
  {
    if a == [] {
      assert a + b == b;
    } else {
      assert (a + b)[1..] == a[1..] + b;
      ExecuteSplits(a[1..], b, Apply(a[0], d).value);
    }
  }

  // ---- The operations of one Restore, in order ----

  function JournalWrite(t: Transaction, phase: Phase, published: nat, intent: Option<nat>): seq<Op> {
    [CreatePartial, CommitJournal(Authenticated(t, phase, published, intent))]
  }

  function PublishOne(t: Transaction, i: nat): seq<Op>
    requires i < |t.names|
  {
    JournalWrite(t, Publishing, i, Some(i)) + [Publish(t.names[i])] + JournalWrite(t, Publishing, i + 1, None)
  }

  function PublishFrom(t: Transaction, i: nat): seq<Op>
    requires i <= |t.names|
    decreases |t.names| - i
  {
    if i == |t.names| then [] else PublishOne(t, i) + PublishFrom(t, i + 1)
  }

  function RollbackOne(t: Transaction, i: nat): seq<Op>
    requires i < |t.names|
  {
    JournalWrite(t, RollingBack, i + 1, Some(i)) + [Withdraw(t.names[i])] + JournalWrite(t, Publishing, i, None)
  }

  function RollbackFrom(t: Transaction, published: nat): seq<Op>
    requires published <= |t.names|
  {
    if published == 0 then [] else RollbackOne(t, published - 1) + RollbackFrom(t, published - 1)
  }

  // Everything that creates, writes or deletes staged files without touching the destination.
  function Fills(contents: seq<map<Name, Entry>>): seq<Op> {
    if contents == [] then [] else [FillStaging(contents[0])] + Fills(contents[1..])
  }

  function Materialize(t: Transaction, contents: seq<map<Name, Entry>>): seq<Op> {
    [MakeStaging] + JournalWrite(t, Materializing, 0, None) + Fills(contents + [t.planned])
    + JournalWrite(t, Staged, 0, None)
  }

  function Retire(): seq<Op> {
    [RemoveStaging, RemoveJournal, RemoveControl]
  }

  function Body(t: Transaction, contents: seq<map<Name, Entry>>): seq<Op> {
    Materialize(t, contents) + PublishFrom(t, 0) + Retire()
  }

  function FreshProgram(t: Transaction, contents: seq<map<Name, Entry>>): seq<Op> {
    [CreateControl] + Body(t, contents)
  }

  // The number of entries a journal stands for once its pending intent is resolved by
  // looking where the named entry is; None when the entry is in both places or in neither.
  function ResolvedCount(t: Transaction, j: Journal, d: Disk): (r: Option<nat>)
    requires d.control.Some? && d.control.value.staging.Some?
    ensures r.Some? && j.published <= |t.names| ==> r.value <= |t.names|
  {
    if j.intent.None? then Some(j.published)
    else if j.intent.value >= |t.names| then None
    else
      var n := t.names[j.intent.value];
      var shown, staged := n in d.destination, n in d.control.value.staging.value;
      if shown == staged then None
      else if j.phase.RollingBack? then (if shown || j.published == 0 then Some(j.published) else Some(j.published - 1))
      else if shown && j.published < |t.names| then Some(j.published + 1)
      else Some(j.published)
  }

  function ReconcileProgram(t: Transaction, j: Journal, published: nat): seq<Op>
    requires published <= |t.names|
  {
    (if j.intent.Some? then JournalWrite(t, Publishing, published, None) else []) + RollbackFrom(t, published)
  }

  // Validation of the destination before a resume writes anything but the partial journal's removal.
  predicate StateIsValid(t: Transaction, j: Journal) {
    match j.phase
    case Materializing | Staged => j.published == 0 && j.intent.None?
    case Publishing =>
      && j.published <= |t.names|
      && (j.intent.None? || (j.intent.value == j.published && j.intent.value < |t.names|))
    case RollingBack =>
      && 0 < j.published <= |t.names|
      && j.intent.Some? && j.intent.value + 1 == j.published
  }

  predicate ResumeAccepts(t: Transaction, d: Disk) {
    && d.control.Some?
    && d.control.value.journal.Some?
    && d.control.value.staging.Some?
    && var j := d.control.value.journal.value;
    && Authenticates(t, j)
    && StateIsValid(t, j)
    && var required := if j.phase.RollingBack? then j.published - 1 else j.published;
    && var allowed := if j.phase.Publishing? && j.intent.Some? then j.published + 1 else j.published;
    && (forall n | n in d.destination :: n in t.names[..allowed])
    && (forall n | n in t.names[..required] :: n in d.destination)
    // The visible entries are compared with their authenticated description.
    && (forall n | n in d.destination :: n in t.planned && d.destination[n] == t.planned[n])
  }

  // Undo an interrupted publication.
  function RecoveryProgram(t: Transaction, d: Disk, published: nat): seq<Op>
    requires ResumeAccepts(t, d) && published <= |t.names|
  {
    (if d.control.value.partial then [DiscardPartial] else [])
    + ReconcileProgram(t, d.control.value.journal.value, published)
  }

  // Start again from an empty staging directory.
  function RedoProgram(t: Transaction, clears: seq<map<Name, Entry>>, contents: seq<map<Name, Entry>>): seq<Op> {
    Fills(clears) + [ResetStaging] + Body(t, contents)
  }

  function ResumeProgram(t: Transaction, d: Disk, clears: seq<map<Name, Entry>>,
                         contents: seq<map<Name, Entry>>): Option<seq<Op>>
    requires ResumeAccepts(t, d)
  {
    var published := ResolvedCount(t, d.control.value.journal.value, d);
    if published.None? then None
    else Some(RecoveryProgram(t, d, published.value) + RedoProgram(t, clears, contents))
  }
}
