// The promotion of a resumed Pack's partial Bundle and checkpoint over the saved pair:
// the directory, its unsynchronized operations, and what a crash may keep of them.
module PackPromotion {
  import opened Outcomes

  // The seven names beside a Bundle's destination.
  datatype Slot = Partial | Checkpoint | Resumed | ResumedCheckpoint | Previous | PreviousCheckpoint | Promotion

  type Inode = nat

  datatype Pair = Pair(partial: Inode, checkpoint: Inode)

  // What observing files gives, by their ordinals; None when a file cannot be observed.
  type Observations = map<nat, Option<nat>>

  // An approved Plan: its hash and the ordinals of its selected regular files.
  datatype Plan = Plan(hash: nat, selected: set<nat>)

  // A partial Bundle and its checkpoint authenticate together when they come from the same
  // run; a checkpoint and a promotion journal are sealed under the run's key for one Plan. A
  // checkpoint records how the selected files were observed.
  datatype Content =
    | PartialFile(run: nat)
    | CheckpointFile(run: nat, plan: nat, captured: nat, seen: Observations)
    | JournalFile(run: nat, plan: nat, saved: Pair, advanced: Pair)

  type Directory = map<Slot, Inode>

  datatype Op =
    | Link(inode: Inode)
    | Move(from: Slot, to: Slot, expected: Inode)
    | Remove(slot: Slot, expected: Inode)

  datatype Instr = Create(inode: Inode, content: Content) | Do(op: Op) | Sync

  // `pending` are the directory operations that no synchronization has made durable yet.
  datatype Disk = Disk(files: map<Inode, Content>, durable: Directory, pending: seq<Op>)

  // Moves and links never overwrite, and a name is moved or removed only while it still
  // refers to the file that was authenticated.
  function Change(op: Op, d: Directory): Option<Directory> {
    match op
    case Link(i) => if Promotion in d then None else Some(d[Promotion := i])
    case Move(from, to, expected) =>
      if from in d && d[from] == expected && to !in d then Some((d - {from})[to := expected]) else None
    case Remove(slot, expected) =>
      if slot in d && d[slot] == expected then Some(d - {slot}) else None
  }

  function Changes(ops: seq<Op>, d: Directory): Option<Directory> {
    if ops == [] then Some(d)
    else
      var next := Change(ops[0], d);
      if next.None? then None else Changes(ops[1..], next.value)
  }

  function Apply(i: Instr, d: Disk): Option<Disk> {
    match i
    case Create(inode, content) =>
      if inode in d.files then None else Some(d.(files := d.files[inode := content]))
    case Do(op) =>
      if Changes(d.pending + [op], d.durable).None? then None else Some(d.(pending := d.pending + [op]))
    case Sync =>
      var current := Changes(d.pending, d.durable);
      if current.None? then None else Some(Disk(d.files, current.value, []))
  }

  function Execute(program: seq<Instr>, d: Disk): Option<Disk> {
    if program == [] then Some(d)
    else
      var next := Apply(program[0], d);
      if next.None? then None else Execute(program[1..], next.value)
  }

  // The operations that survive a crash; those without a mark are lost.
  function Survivors(ops: seq<Op>, kept: seq<bool>): seq<Op> {
    if ops == [] || kept == [] then []
    else (if kept[0] then [ops[0]] else []) + Survivors(ops[1..], kept[1..])
  }

  // A crash keeps the durable directory and any of the unsynchronized operations. None when a
  // survivor cannot have been made durable without one that was lost.
  function Crash(d: Disk, kept: seq<bool>): Option<Disk> {
    var survived := Changes(Survivors(d.pending, kept), d.durable);
    if survived.None? then None else Some(Disk(d.files, survived.value, []))
  }

  // No operation survives without all the earlier ones.
  predicate KeepsFirst(n: nat, kept: seq<bool>) {
    forall i, j | 0 <= i < j < n && j < |kept| && kept[j] :: kept[i]
  }

  // ---- Recovery decisions ----

  datatype Presence = Presence(partial: bool, checkpoint: bool, resumed: bool, resumedCheckpoint: bool,
                               previous: bool, previousCheckpoint: bool, journal: bool)

  function Observe(d: Directory): Presence {
    Presence(Partial in d, Checkpoint in d, Resumed in d, ResumedCheckpoint in d,
             Previous in d, PreviousCheckpoint in d, Promotion in d)
  }

  datatype Position = Position(saved: Option<(Slot, Slot)>, advanced: (Slot, Slot), completed: nat)

  function Classify(p: Presence): (r: Option<Position>)
    ensures r.Some? ==> r.value.completed <= 6
  {
    match p
    case Presence(true, true, true, true, false, false, true) =>
      Some(Position(Some((Partial, Checkpoint)), (Resumed, ResumedCheckpoint), 0))
    case Presence(false, true, true, true, true, false, _) =>
      Some(Position(Some((Previous, Checkpoint)), (Resumed, ResumedCheckpoint), 1))
    case Presence(false, false, true, true, true, true, _) =>
      Some(Position(Some((Previous, PreviousCheckpoint)), (Resumed, ResumedCheckpoint), 2))
    case Presence(true, false, false, true, true, true, _) =>
      Some(Position(Some((Previous, PreviousCheckpoint)), (Partial, ResumedCheckpoint), 3))
    case Presence(true, true, false, false, true, true, _) =>
      Some(Position(Some((Previous, PreviousCheckpoint)), (Partial, Checkpoint), 4))
    case Presence(true, true, false, false, false, true, true) =>
      Some(Position(None, (Partial, Checkpoint), 5))
    case Presence(true, true, false, false, false, false, true) =>
      Some(Position(None, (Partial, Checkpoint), 6))
    case _ => None
  }

  datatype Progress = Progress(pair: Pair, run: nat, captured: nat)

  // What observing the selected files shows while the saved and while the advanced pair is
  // authenticated.
  datatype Sight = Sight(saved: Observations, advanced: Observations)

  // Every selected file was observed when the checkpoint was written and is observed the same now.
  predicate Matches(plan: Plan, seen: Observations, now: Observations) {
    forall i | i in plan.selected :: i in seen && seen[i].Some? && i in now && now[i] == seen[i]
  }

  function Authenticate(plan: Plan, files: map<Inode, Content>, d: Directory, slots: (Slot, Slot), now: Observations):
    Option<Progress>
  {
    if slots.0 in d && slots.1 in d && d[slots.0] in files && d[slots.1] in files
       && files[d[slots.0]].PartialFile? && files[d[slots.1]].CheckpointFile?
       && files[d[slots.0]].run == files[d[slots.1]].run && files[d[slots.1]].plan == plan.hash
       && Matches(plan, files[d[slots.1]].seen, now)
    then Some(Progress(Pair(d[slots.0], d[slots.1]), files[d[slots.0]].run, files[d[slots.1]].captured))
    else None
  }

  function ReadJournal(plan: Plan, files: map<Inode, Content>, d: Directory, advanced: Progress): Option<Content> {
    if Promotion in d && d[Promotion] in files && files[d[Promotion]].JournalFile?
       && files[d[Promotion]].run == advanced.run && files[d[Promotion]].plan == plan.hash
    then Some(files[d[Promotion]])
    else None
  }

  // The eight directory operations of one promotion, the journal's publication first.
  function Steps(saved: Pair, advanced: Pair, journal: Inode): seq<Op> {
    [ Link(journal),
      Move(Partial, Previous, saved.partial),
      Move(Checkpoint, PreviousCheckpoint, saved.checkpoint),
      Move(Resumed, Partial, advanced.partial),
      Move(ResumedCheckpoint, Checkpoint, advanced.checkpoint),
      Remove(Previous, saved.partial),
      Remove(PreviousCheckpoint, saved.checkpoint),
      Remove(Promotion, journal) ]
  }

  // Each operation is synchronized before the next one starts.
  function Synced(ops: seq<Op>): seq<Instr> {
    if ops == [] then [] else [Do(ops[0]), Sync] + Synced(ops[1..])
  }

  function JournalWrite(plan: Plan, saved: Pair, advanced: Progress, journal: Inode): seq<Instr> {
    [Create(journal, JournalFile(advanced.run, plan.hash, saved, advanced.pair)), Sync, Do(Link(journal)), Sync]
  }

  // A promotion from the start: the journal, then everything after its publication.
  function WholePromotion(plan: Plan, saved: Pair, advanced: Progress, unused: Inode): seq<Instr> {
    JournalWrite(plan, saved, advanced, unused) + Synced(Steps(saved, advanced.pair, unused)[1..])
  }

  // What a resumed Pack does when it has paused again: only its own new pair is authenticated,
  // the saved one was when it began.
  function PausingProgram(plan: Plan, d: Disk, saved: Pair, now: Observations, unused: Inode): Option<seq<Instr>> {
    var current := Changes(d.pending, d.durable);
    if current.None? then None
    else
      var advanced := Authenticate(plan, d.files, current.value, (Resumed, ResumedCheckpoint), now);
      if advanced.None? then None else Some(WholePromotion(plan, saved, advanced.value, unused))
  }

  // What one resumed Pack does about promotion before it authenticates the saved pair:
  // reconcile an interrupted promotion, then promote a finished `.resume` pair that no
  // journal covers yet. None is a refusal before any file operation.
  function PromotionProgram(plan: Plan, d: Disk, sight: Sight, unused: Inode): Option<seq<Instr>> {
    var current := Changes(d.pending, d.durable);
    if current.None? then None
    else
      var p := Observe(current.value);
      if !p.previous && !p.previousCheckpoint && !p.journal then
        if p.resumed then UnjournalledProgram(plan, d.files, current.value, sight, unused) else Some([])
      else ReconcileProgram(plan, d.files, current.value, sight, unused)
  }

  function UnjournalledProgram(plan: Plan, files: map<Inode, Content>, d: Directory, sight: Sight, unused: Inode):
    Option<seq<Instr>>
  {
    var saved := Authenticate(plan, files, d, (Partial, Checkpoint), sight.saved);
    var advanced := Authenticate(plan, files, d, (Resumed, ResumedCheckpoint), sight.advanced);
    if saved.None? || advanced.None? || advanced.value.captured < saved.value.captured then None
    else Some(WholePromotion(plan, saved.value.pair, advanced.value, unused))
  }

  function ReconcileProgram(plan: Plan, files: map<Inode, Content>, d: Directory, sight: Sight, unused: Inode):
    Option<seq<Instr>>
  {
    var position := Classify(Observe(d));
    if position.None? then None
    else
      var advanced := Authenticate(plan, files, d, position.value.advanced, sight.advanced);
      var saved := if position.value.saved.Some?
                   then Authenticate(plan, files, d, position.value.saved.value, sight.saved) else None;
      if advanced.None? || (position.value.saved.Some? && saved.None?)
         || (saved.Some? && advanced.value.captured < saved.value.captured) then None
      else if Promotion in d then
        var journal := ReadJournal(plan, files, d, advanced.value);
        if journal.None? || journal.value.advanced != advanced.value.pair
           || (saved.Some? && saved.value.pair != journal.value.saved) then None
        else Some(Synced(Steps(journal.value.saved, journal.value.advanced,
                               d[Promotion])[position.value.completed + 1..]))
      else if saved.None? then None
      else Some(JournalWrite(plan, saved.value.pair, advanced.value, unused)
                + Synced(Steps(saved.value.pair, advanced.value.pair, unused)[position.value.completed + 1..]))
  }
}
