// Executing an approved Push Plan: one action after another, stopping at the first that fails,
// with an append-only log of what happened.
module PushExecution {
  import opened Outcomes
  import opened Ordering
  import PlanDocument

  // An object identifier as git prints it; action identifiers are an injective hash of their fields.
  type Object = string

  datatype ActionId = ActionId(project: string, localRef: string, remoteRef: string, expected: Option<Object>,
                               proposed: Object)

  datatype Action = Action(id: ActionId, localRef: string, remoteRef: string, expected: Option<Object>,
                           proposed: Object,
                           needsApproval: bool)

  datatype Proof = Proof(localRef: string, remoteRef: string, proposed: Object)

  // ---- The repository and its remote ----

  // What comes between one git operation and the next: the operation may fail, and others may
  // have changed the remote or the local references before it.
  datatype Interference = Interference(fails: bool, remote: Option<map<string, Object>>,
                                       local: Option<map<string, Object>>)

  function Or<T>(changed: Option<T>, before: T): T {
    if changed.Some? then changed.value else before
  }

  class Git {
    var remote: map<string, Object>
    var local: map<string, Object>
    var step: nat
    const script: nat -> Interference
    const ancestry: (Object, Object) -> bool
    // What has been read from the remote, and which of its references have been pushed to, whether
    // git accepted that or not.
    ghost var seen: seq<(string, Option<Object>)>
    ghost var pushed: seq<string>
    ghost var accepted: seq<string>

    constructor (remote: map<string, Object>, local: map<string, Object>, script: nat -> Interference,
                 ancestry: (Object, Object) -> bool)
      ensures this.remote == remote && this.local == local && this.script == script && this.ancestry == ancestry
      ensures step == 0 && seen == [] && pushed == []
    {
      this.remote, this.local, this.script, this.ancestry := remote, local, script, ancestry;
      step, seen, pushed := 0, [], [];
    }

    method Turn() returns (works: bool)
      modifies this`remote, this`local, this`step
      ensures works == !script(old(step)).fails && step == old(step) + 1
      ensures remote == Or(script(old(step)).remote, old(remote)) && local == Or(script(old(step)).local, old(local))
    {
      var i := script(step);
      if i.remote.Some? {
        remote := i.remote.value;
      }
      if i.local.Some? {
        local := i.local.value;
      }
      step := step + 1;
      works := !i.fails;
    }

    method ReadLocal(reference: string) returns (r: Option<Object>)
      modifies this`remote, this`local, this`step
      ensures step == old(step) + 1
      ensures remote == Or(script(old(step)).remote, old(remote)) && local == Or(script(old(step)).local, old(local))
      ensures r == if !script(old(step)).fails && reference in local then Some(local[reference]) else None
    {
      var works := Turn();
      r := if works && reference in local then Some(local[reference]) else None;
    }

    // None when git could not tell; otherwise the object, if there is one.
    method ReadRemote(reference: string) returns (r: Option<Option<Object>>)
      modifies this`remote, this`local, this`step, this`seen
      ensures step == old(step) + 1
      ensures remote == Or(script(old(step)).remote, old(remote)) && local == Or(script(old(step)).local, old(local))
      ensures r.Some? <==> !script(old(step)).fails
      ensures r.Some? ==> r.value == Lookup(remote, reference)
      ensures seen == if r.Some? then old(seen) + [(reference, r.value)] else old(seen)
    {
      var works := Turn();
      r := None;
      if works {
        r := Some(Lookup(remote, reference));
        seen := seen + [(reference, r.value)];
      }
    }

    method CheckAncestor(ancestor: Object, descendant: Object) returns (ok: bool)
      modifies this`remote, this`local, this`step
      ensures step == old(step) + 1
      ensures remote == Or(script(old(step)).remote, old(remote)) && local == Or(script(old(step)).local, old(local))
      ensures ok <==> !script(old(step)).fails && ancestry(ancestor, descendant)
    {
      var works := Turn();
      ok := works && ancestry(ancestor, descendant);
    }

    // A push that git accepts sets the remote reference to what the local one names then.
    // None when the push could not be run at all.
    method Push(localRef: string, remoteRef: string) returns (r: Option<bool>)
      modifies this`remote, this`local, this`step, this`pushed, this`accepted
      ensures step == old(step) + 1 && pushed == old(pushed) + [remoteRef]
      ensures accepted == if r == Some(true) then old(accepted) + [remoteRef] else old(accepted)
      ensures local == Or(script(old(step)).local, old(local))
      ensures r == if script(old(step)).fails then None else Some(localRef in local)
      ensures var before := Or(script(old(step)).remote, old(remote));
        if r == Some(true) then localRef in local && remote == before[remoteRef := local[localRef]]
        else remote == before
    {
      var works := Turn();
      pushed := pushed + [remoteRef];
      r := if works then Some(localRef in local) else None;
      if r == Some(true) {
        accepted := accepted + [remoteRef];
        remote := remote[remoteRef := local[localRef]];
      }
    }
  }

  function Lookup(references: map<string, Object>, reference: string): Option<Object> {
    if reference in references then Some(references[reference]) else None
  }

  // From step `n` on git never fails and no one else changes the remote or the local references.
  ghost predicate Undisturbed(script: nat -> Interference, n: nat) {
    forall k: nat | k >= n :: !script(k).fails && script(k).remote.None? && script(k).local.None?
  }

  // The references are as the action was planned for.
  predicate IsCurrent(a: Action, local: map<string, Object>, remote: map<string, Object>,
                      ancestry: (Object, Object) -> bool) {
    && Lookup(local, a.localRef) == Some(a.proposed) && Lookup(remote, a.remoteRef) == a.expected
    && (a.expected.Some? ==> ancestry(a.expected.value, a.proposed))
  }

  // No one else writes to the remote from step `n` on.
  ghost predicate NoOtherWriter(script: nat -> Interference, n: nat) {
    forall k: nat | k >= n :: script(k).remote.None?
  }

  // ---- The result log ----

  datatype State = Complete | Partial

  datatype Record =
    | Header(ids: seq<ActionId>)
    | ActionResult(id: ActionId, published: bool, code: string)
    | Summary(state: State, succeeded: nat, failed: nat, pending: nat, code: string)

  datatype Report = Report(state: State, succeeded: nat, failed: nat, pending: nat, proofs: seq<Proof>)

  function Ids(actions: seq<Action>): (r: seq<ActionId>)
    ensures |r| == |actions|
  {
    seq(|actions|, i requires 0 <= i < |actions| => actions[i].id)
  }

  function ProofsOf(actions: seq<Action>): (r: seq<Proof>)
    ensures |r| == |actions|
  {
    seq(|actions|,
        i requires 0 <= i < |actions| => Proof(actions[i].localRef, actions[i].remoteRef, actions[i].proposed))
  }

  function Published(actions: seq<Action>): (r: seq<Record>)
    ensures |r| == |actions|
  {
    seq(|actions|, i requires 0 <= i < |actions| => ActionResult(actions[i].id, true, "published"))
  }

  function Pending(total: nat, succeeded: nat, failed: nat): nat {
    if succeeded + failed <= total then total - succeeded - failed else 0
  }

  class PushResultLog {
    var records: seq<Record>
    const proofs: seq<Proof>
    const total: nat
    // How many more records can be written.
    var power: nat

    constructor (actions: seq<Action>, power: nat)
      ensures records == [Header(Ids(actions))]
      ensures proofs == ProofsOf(actions) && total == |actions| && this.power == power
    {
      records := [Header(Ids(actions))];
      proofs := ProofsOf(actions);
      total := |actions|;
      this.power := power;
    }

    method Append(record: Record) returns (ok: bool)
      modifies this`records, this`power
      ensures ok <==> old(power) > 0
      ensures !ok ==> power == 0
      ensures records == if ok then old(records) + [record] else old(records)
    {
      ok := power > 0;
      if ok {
        records, power := records + [record], power - 1;
      }
    }

    method Finish(state: State, succeeded: nat, failed: nat, code: string, failedId: Option<ActionId>)
      returns (r: Option<Report>)
      requires succeeded <= |proofs|
      modifies this`records, this`power
      ensures old(records) <= records && (r.None? ==> power == 0)
      ensures r.Some? ==>
                r.value == Report(state, succeeded, failed, Pending(total, succeeded, failed), proofs[..succeeded])
      ensures r.Some? ==> records == old(records)
                                     + (if failedId.Some? then [ActionResult(failedId.value, false, code)] else [])
                                     + [Summary(state, succeeded, failed, r.value.pending, code)]
    {
      var pending := Pending(total, succeeded, failed);
      var ok := true;
      if failedId.Some? {
        ok := Append(ActionResult(failedId.value, false, code));
      }
      if ok {
        ok := Append(Summary(state, succeeded, failed, pending, code));
      }
      r := if ok then Some(Report(state, succeeded, failed, pending, proofs[..succeeded])) else None;
    }
  }

  // ---- One action ----

  ghost predicate SameElsewhere(before: map<string, Object>, after: map<string, Object>, reference: string) {
    forall r | r != reference :: (r in before <==> r in after) && (r in after ==> after[r] == before[r])
  }

  datatype Step = Done | FailedWith(code: string)

  // Why an action is not current.
  function Refusal(a: Action, local: map<string, Object>, remote: map<string, Object>): string {
    if a.localRef !in local then "local-reference-observation-failed"
    else if local[a.localRef] != a.proposed then "local-reference-changed"
    else if Lookup(remote, a.remoteRef) != a.expected then "remote-reference-changed"
    else "reference-ancestry-changed"
  }

  // Checks that the local reference, the remote reference and their ancestry are still as planned.
  method Revalidate(git: Git, a: Action) returns (r: Step)
    modifies git
    ensures r.FailedWith? ==> r.code != ""
    ensures git.pushed == old(git.pushed) && git.accepted == old(git.accepted)
    ensures git.step >= old(git.step) && old(git.seen) <= git.seen
    ensures Undisturbed(git.script, old(git.step)) && r.FailedWith? ==>
              r.code == Refusal(a, old(git.local), old(git.remote))
    ensures r.Done? ==> git.seen == old(git.seen) + [(a.remoteRef, a.expected)]
    ensures r.Done? && a.expected.Some? ==> git.ancestry(a.expected.value, a.proposed)
    ensures NoOtherWriter(git.script, old(git.step)) ==> git.remote == old(git.remote)
    ensures Undisturbed(git.script, old(git.step)) ==>
              git.local == old(git.local) && (r.Done? <==> IsCurrent(a, old(git.local), old(git.remote), git.ancestry))
  {
    var local := git.ReadLocal(a.localRef);
    if local.None? {
      return FailedWith("local-reference-observation-failed");
    }
    if local.value != a.proposed {
      return FailedWith("local-reference-changed");
    }
    var before := git.ReadRemote(a.remoteRef);
    if before.None? {
      return FailedWith("remote-reference-observation-failed");
    }
    if before.value != a.expected {
      return FailedWith("remote-reference-changed");
    }
    if before.value.Some? {
      var related := git.CheckAncestor(before.value.value, local.value);
      if !related {
        return FailedWith("reference-ancestry-changed");
      }
    }
    r := Done;
  }

  // Revalidates an action, pushes it, and reads back what the remote then has.
  method PerformAction(git: Git, a: Action) returns (r: Step)
    modifies git
    ensures r.FailedWith? ==> r.code != ""
    ensures git.pushed == old(git.pushed) || git.pushed == old(git.pushed) + [a.remoteRef]
    ensures r.Done? ==> git.pushed == old(git.pushed) + [a.remoteRef]
    ensures r.Done? ==> git.accepted == old(git.accepted) + [a.remoteRef]
    ensures Undisturbed(git.script, old(git.step)) && r.FailedWith? ==>
              r.code == Refusal(a, old(git.local), old(git.remote))
    ensures git.pushed != old(git.pushed) ==> GoesForward(a, git.ancestry)
    ensures git.pushed != old(git.pushed) ==>
              |git.seen| > |old(git.seen)| && git.seen[|old(git.seen)|] == (a.remoteRef, a.expected)
    ensures git.pushed != old(git.pushed) && Undisturbed(git.script, old(git.step)) ==>
              && a.localRef in old(git.local) && old(git.local)[a.localRef] == a.proposed
              && (if a.remoteRef in old(git.remote) then a.expected == Some(old(git.remote)[a.remoteRef])
                  else a.expected == None)
    ensures old(git.seen) <= git.seen
    ensures r.Done? ==> |git.seen| > |old(git.seen)| && git.seen[|old(git.seen)|] == (a.remoteRef, a.expected)
                        && git.seen[|git.seen| - 1] == (a.remoteRef, Some(a.proposed))
    ensures r.Done? && a.expected.Some? ==> git.ancestry(a.expected.value, a.proposed)
    ensures r.Done? ==> a.remoteRef in git.remote && git.remote[a.remoteRef] == a.proposed
    ensures git.step >= old(git.step)
    ensures NoOtherWriter(git.script, old(git.step)) ==> SameElsewhere(old(git.remote), git.remote, a.remoteRef)
    ensures Undisturbed(git.script, old(git.step)) ==>
              git.local == old(git.local) && (r.Done? <==> IsCurrent(a, old(git.local), old(git.remote), git.ancestry))
  {
    r := Revalidate(git, a);
    if r.FailedWith? {
      return;
    }
    var accepted := git.Push(a.localRef, a.remoteRef);
    if accepted.None? {
      return FailedWith("publication-process-failed");
    }
    if !accepted.value {
      return FailedWith("publication-rejected");
    }
    var after := git.ReadRemote(a.remoteRef);
    if after.None? || after.value.None? {
      return FailedWith("publication-proof-failed");
    }
    if after.value.value != a.proposed {
      return FailedWith("publication-unproven");
    }
    r := Done;
  }

  // ---- The whole plan ----

  // Objects the remote's references were seen at, in order, after each of the first actions.
  ghost predicate ProvenInOrder(actions: seq<Action>, n: nat, seen: seq<(string, Option<Object>)>)
    requires n <= |actions|
  {
    n > 0 ==> exists at: seq<nat> ::
      && |at| == n && (forall i, j | 0 <= i < j < n :: at[i] < at[j]) && (forall i | 0 <= i < n :: at[i] < |seen|)
      && forall i | 0 <= i < n :: seen[at[i]] == (actions[i].remoteRef, Some(actions[i].proposed))
  }

  lemma OneMoreProven(actions: seq<Action>, n: nat, seen: seq<(string, Option<Object>)>,
                      more: seq<(string, Option<Object>)>)
    requires n < |actions| && ProvenInOrder(actions, n, seen) && seen <= more && |seen| < |more|
    requires more[|more| - 1] == (actions[n].remoteRef, Some(actions[n].proposed))
    ensures ProvenInOrder(actions, n + 1, more)
  {
    var at: seq<nat> := [];
    if n > 0 {
      at :| |at| == n && (forall i, j | 0 <= i < j < n :: at[i] < at[j]) && (forall i | 0 <= i < n :: at[i] < |seen|)
            && forall i | 0 <= i < n :: seen[at[i]] == (actions[i].remoteRef, Some(actions[i].proposed));
    }
    var longer: seq<nat> := at + [|more| - 1];
    assert forall i | 0 <= i < n + 1 :: more[longer[i]] == (actions[i].remoteRef, Some(actions[i].proposed));
  }

  lemma ProvenStays(actions: seq<Action>, n: nat, seen: seq<(string, Option<Object>)>,
                    more: seq<(string, Option<Object>)>)
    requires n <= |actions| && ProvenInOrder(actions, n, seen) && seen <= more
    ensures ProvenInOrder(actions, n, more)
  {
    if n > 0 {
      var at: seq<nat> :| && |at| == n && (forall i, j | 0 <= i < j < n :: at[i] < at[j])
                          && (forall i | 0 <= i < n :: at[i] < |seen|)
            && forall i | 0 <= i < n :: seen[at[i]] == (actions[i].remoteRef, Some(actions[i].proposed));
      assert forall i | 0 <= i < n :: more[at[i]] == (actions[i].remoteRef, Some(actions[i].proposed));
    }
  }

  function RemoteRefs(actions: seq<Action>): (r: seq<string>)
    ensures |r| == |actions|
  {
    seq(|actions|, i requires 0 <= i < |actions| => actions[i].remoteRef)
  }

  // The reference an action leaves at its proposed object stays there if no later action of the
  // first `n` proposes another object for the same reference.
  ghost predicate LastFor(actions: seq<Action>, i: nat, n: nat)
    requires i < n <= |actions|
  {
    forall j | i < j < n :: actions[j].remoteRef == actions[i].remoteRef ==> actions[j].proposed == actions[i].proposed
  }

  ghost predicate Holds(remote: map<string, Object>, a: Action) {
    a.remoteRef in remote && remote[a.remoteRef] == a.proposed
  }

  // ---- What a report means ----

  // The log: a header, the successes, a record of the action that failed unless none was tried, and
  // a summary that says why it ended.
  ghost predicate LogShows(records: seq<Record>, actions: seq<Action>, r: Report, reason: Option<string>) {
    && r.succeeded <= |actions| && (reason.Some? ==> r.failed == 1 && r.succeeded == 0)
    && (r.failed == 1 ==> r.succeeded < |actions|)
    && exists code: string ::
         && (r.failed == 0 ==> code == "complete") && (reason.Some? ==> code == reason.value)
         && records == [Header(Ids(actions))] + Published(actions[..r.succeeded])
                       + (if r.failed == 1 && reason.None? then [ActionResult(actions[r.succeeded].id, false, code)]
                          else [])
                       + [Summary(r.state, r.succeeded, r.failed, r.pending, code)]
  }

  ghost predicate ReportIsHonest(r: Report, actions: seq<Action>) {
    && r.succeeded <= |actions| && r.failed <= 1
    && r.succeeded + r.failed + r.pending == |actions|
    && r.proofs == ProofsOf(actions[..r.succeeded])
    && (r.state == Complete <==> r.failed == 0) && (r.state == Complete <==> r.succeeded == |actions|)
  }

  lemma PublishedGrows(actions: seq<Action>, n: nat)
    requires n < |actions|
    ensures Published(actions[..n + 1]) == Published(actions[..n]) + [ActionResult(actions[n].id, true, "published")]
  {
  }

  method FinishWith(log: PushResultLog, actions: seq<Action>, state: State, succeeded: nat, failed: nat, code: string,
                    failedId: Option<ActionId>) returns (r: Option<Report>)
    requires log.total == |actions| && log.proofs == ProofsOf(actions) && succeeded + failed <= |actions| && failed <= 1
    requires log.records == [Header(Ids(actions))] + Published(actions[..succeeded])
    requires (state == Complete <==> failed == 0) && (failed == 0 <==> succeeded == |actions|)
    requires failed == 1 ==> succeeded < |actions| && (failedId.Some? ==> failedId.value == actions[succeeded].id)
    requires failed == 0 ==> failedId.None? && code == "complete"
    requires failed == 1 && failedId.None? ==> succeeded == 0
    modifies log
    ensures r.Some? ==> ReportIsHonest(r.value, actions)
    ensures r.Some? ==>
              LogShows(log.records, actions, r.value, if failed == 1 && failedId.None? then Some(code) else None)
    ensures r.Some? ==> r.value.state == state && r.value.succeeded == succeeded
    ensures r.None? ==> log.power == 0
  {
    r := log.Finish(state, succeeded, failed, code, failedId);
    assert ProofsOf(actions)[..succeeded] == ProofsOf(actions[..succeeded]);
  }

  // The pushes tried: those of the first `n` actions in order, and perhaps the next one's.
  // Nothing is pushed by force: each pushed action's object descends from what it replaces.
  ghost predicate PushedInOrder(pushed: seq<string>, before: seq<string>, actions: seq<Action>, n: nat, stopped: bool,
                                ancestry: (Object, Object) -> bool)
    requires n <= |actions|
  {
    || (pushed == before + RemoteRefs(actions[..n]) && AllForward(actions, n, ancestry))
    || (stopped && n < |actions| && pushed == before + RemoteRefs(actions[..n + 1])
        && AllForward(actions, n + 1, ancestry))
  }

  ghost predicate AllForward(actions: seq<Action>, n: nat, ancestry: (Object, Object) -> bool)
    requires n <= |actions|
  {
    n > 0 ==> GoesForward(actions[n - 1], ancestry) && AllForward(actions, n - 1, ancestry)
  }

  lemma {:induction false} AllForwardMeans(actions: seq<Action>, n: nat, ancestry: (Object, Object) -> bool)
    requires n <= |actions|
    ensures AllForward(actions, n, ancestry) <==> forall i | 0 <= i < n :: GoesForward(actions[i], ancestry)
  {
    if n > 0 {
      AllForwardMeans(actions, n - 1, ancestry);
    }
  }

  predicate GoesForward(a: Action, ancestry: (Object, Object) -> bool) {
    a.expected.Some? ==> ancestry(a.expected.value, a.proposed)
  }

  lemma OneMorePush(before: seq<string>, was: seq<string>, now: seq<string>, actions: seq<Action>, n: nat,
                    ancestry: (Object, Object) -> bool)
    requires n < |actions| && PushedInOrder(was, before, actions, n, false, ancestry)
    requires now == was || (now == was + [actions[n].remoteRef] && GoesForward(actions[n], ancestry))
    ensures PushedInOrder(now, before, actions, n, true, ancestry)
    ensures now == was + [actions[n].remoteRef] ==> PushedInOrder(now, before, actions, n + 1, false, ancestry)
  {
    assert (before + RemoteRefs(actions[..n])) + [actions[n].remoteRef] == before + RemoteRefs(actions[..n + 1]);
  }

  ghost predicate AllHold(remote: map<string, Object>, actions: seq<Action>, n: nat)
    requires n <= |actions|
  {
    forall i | 0 <= i < n && LastFor(actions, i, n) :: Holds(remote, actions[i])
  }

  lemma OneMoreHolds(before: map<string, Object>, after: map<string, Object>, actions: seq<Action>, n: nat)
    requires n < |actions| && AllHold(before, actions, n) && SameElsewhere(before, after, actions[n].remoteRef)
    requires Holds(after, actions[n])
    ensures AllHold(after, actions, n + 1)
  {
    forall i | 0 <= i < n + 1 && LastFor(actions, i, n + 1) ensures Holds(after, actions[i]) {
      if i < n {
        assert LastFor(actions, i, n);
        assert actions[n].remoteRef == actions[i].remoteRef ==> actions[n].proposed == actions[i].proposed;
      }
    }
  }

  ghost predicate DistinctReferences(actions: seq<Action>) {
    forall i, j | 0 <= i < j < |actions| :: actions[i].remoteRef != actions[j].remoteRef
  }

  ghost predicate AllCurrent(actions: seq<Action>, n: nat, local: map<string, Object>, remote: map<string, Object>,
                             ancestry: (Object, Object) -> bool)
  {
    forall i | n <= i < |actions| :: IsCurrent(actions[i], local, remote, ancestry)
  }

  // Performing an action leaves the later ones current when they are for other references.
  lemma OthersStayCurrent(actions: seq<Action>, n: nat, local: map<string, Object>, before: map<string, Object>,
                          after: map<string, Object>, ancestry: (Object, Object) -> bool)
    requires n < |actions| && SameElsewhere(before, after, actions[n].remoteRef)
    ensures DistinctReferences(actions) && AllCurrent(actions, n, local, before, ancestry) ==>
              AllCurrent(actions, n + 1, local, after, ancestry)
  {
    if DistinctReferences(actions) && AllCurrent(actions, n, local, before, ancestry) {
      forall i | n + 1 <= i < |actions| ensures IsCurrent(actions[i], local, after, ancestry) {
        assert IsCurrent(actions[i], local, before, ancestry) && actions[i].remoteRef != actions[n].remoteRef;
      }
    }
  }

  method TryNext(git: Git, actions: seq<Action>, n: nat, ghost pushed: seq<string>) returns (step: Step)
    requires n < |actions| && PushedInOrder(git.pushed, pushed, actions, n, false, git.ancestry)
    requires ProvenInOrder(actions, n, git.seen)
    modifies git
    ensures git.step >= old(git.step) && (step.FailedWith? ==> step.code != "")
    ensures PushedInOrder(git.pushed, pushed, actions, n, true, git.ancestry)
    ensures step.FailedWith? ==> ProvenInOrder(actions, n, git.seen)
    ensures step.Done? ==> PushedInOrder(git.pushed, pushed, actions, n + 1, false, git.ancestry)
    ensures step.Done? ==> ProvenInOrder(actions, n + 1, git.seen) && Holds(git.remote, actions[n])
    ensures NoOtherWriter(git.script, old(git.step)) ==>
              SameElsewhere(old(git.remote), git.remote, actions[n].remoteRef)
    ensures Undisturbed(git.script, old(git.step)) ==>
              && git.local == old(git.local)
              && (step.Done? <==> IsCurrent(actions[n], old(git.local), old(git.remote), git.ancestry))
  {
    step := PerformAction(git, actions[n]);
    OneMorePush(pushed, old(git.pushed), git.pushed, actions, n, git.ancestry);
    if step.Done? {
      OneMoreProven(actions, n, old(git.seen), git.seen);
    } else {
      ProvenStays(actions, n, old(git.seen), git.seen);
    }
  }

  // `alone`: no one else writes from here on; `calm`: and nothing fails, and what is left is current.
  method TryStep(git: Git, actions: seq<Action>, n: nat, ghost pushed: seq<string>, ghost alone: bool, ghost calm: bool)
    returns (step: Step)
    requires n < |actions| && PushedInOrder(git.pushed, pushed, actions, n, false, git.ancestry)
    requires ProvenInOrder(actions, n, git.seen)
    requires alone ==> NoOtherWriter(git.script, git.step) && AllHold(git.remote, actions, n)
    requires calm ==> Undisturbed(git.script, git.step) && DistinctReferences(actions)
    requires calm ==> AllCurrent(actions, n, git.local, git.remote, git.ancestry)
    modifies git
    ensures git.step >= old(git.step) && (step.FailedWith? ==> step.code != "")
    ensures var done := if step.Done? then n + 1 else n;
      PushedInOrder(git.pushed, pushed, actions, done, step.FailedWith?, git.ancestry)
      && ProvenInOrder(actions, done, git.seen)
    ensures alone && step.Done? ==> AllHold(git.remote, actions, n + 1)
    ensures calm ==> step.Done? && AllCurrent(actions, n + 1, git.local, git.remote, git.ancestry)
  {
    ghost var before := git.remote;
    step := TryNext(git, actions, n, pushed);
    if alone && step.Done? {
      OneMoreHolds(before, git.remote, actions, n);
    }
    if calm {
      OthersStayCurrent(actions, n, git.local, before, git.remote, git.ancestry);
    }
  }

  method LogNext(log: PushResultLog, actions: seq<Action>, n: nat) returns (ok: bool)
    requires n < |actions| && log.records == [Header(Ids(actions))] + Published(actions[..n])
    modifies log
    ensures ok ==> log.records == [Header(Ids(actions))] + Published(actions[..n + 1])
    ensures !ok ==> log.power == 0
  {
    PublishedGrows(actions, n);
    ok := log.Append(ActionResult(actions[n].id, true, "published"));
  }

  // Performs the next action and logs its success.
  method PerformStep(git: Git, log: PushResultLog, actions: seq<Action>, n: nat, ghost pushed: seq<string>,
                     ghost alone: bool, ghost calm: bool)
    returns (ok: bool, code: string)
    requires n < |actions| && log.records == [Header(Ids(actions))] + Published(actions[..n])
    requires PushedInOrder(git.pushed, pushed, actions, n, false, git.ancestry) && ProvenInOrder(actions, n, git.seen)
    requires alone ==> NoOtherWriter(git.script, git.step) && AllHold(git.remote, actions, n)
    requires calm ==> Undisturbed(git.script, git.step) && DistinctReferences(actions)
    requires calm ==> AllCurrent(actions, n, git.local, git.remote, git.ancestry)
    modifies git, log
    ensures git.step >= old(git.step) && (!ok ==> log.power == 0)
    ensures var done := if code == "" then n + 1 else n;
      ok ==> && log.records == [Header(Ids(actions))] + Published(actions[..done])
             && PushedInOrder(git.pushed, pushed, actions, done, code != "", git.ancestry)
             && ProvenInOrder(actions, done, git.seen)
    ensures ok && alone && code == "" ==> AllHold(git.remote, actions, n + 1)
    ensures ok && calm ==> code == "" && AllCurrent(actions, n + 1, git.local, git.remote, git.ancestry)
  {
    var step := TryStep(git, actions, n, pushed, alone, calm);
    ok, code := true, "";
    if step.Done? {
      ok := LogNext(log, actions, n);
    } else {
      code := step.code;
    }
  }

  // The loop over the actions, stopping at the first that fails.
  method PerformActions(git: Git, log: PushResultLog, actions: seq<Action>)
    returns (ok: bool, succeeded: nat, code: string)
    requires log.records == [Header(Ids(actions))]
    modifies git, log
    ensures succeeded <= |actions|
    ensures ok ==> log.records == [Header(Ids(actions))] + Published(actions[..succeeded])
    ensures ok ==> (succeeded < |actions| <==> code != "")
    ensures ok ==> PushedInOrder(git.pushed, old(git.pushed), actions, succeeded, code != "", git.ancestry)
    ensures ok ==> ProvenInOrder(actions, succeeded, git.seen)
    ensures ok && succeeded == |actions| && NoOtherWriter(git.script, old(git.step)) ==>
              AllHold(git.remote, actions, |actions|)
    ensures !ok ==> log.power == 0
    ensures ok && Undisturbed(git.script, old(git.step)) && DistinctReferences(actions) ==>
              AllCurrent(actions, 0, old(git.local), old(git.remote), git.ancestry) ==> code == ""
  {
    ghost var alone := NoOtherWriter(git.script, git.step);
    ghost var calm := && Undisturbed(git.script, git.step) && DistinctReferences(actions)
                      && AllCurrent(actions, 0, git.local, git.remote, git.ancestry);
    succeeded, code, ok := 0, "", true;
    while succeeded < |actions| && code == "" && ok
      invariant succeeded <= |actions| && git.step >= old(git.step)
      invariant ok ==> log.records == [Header(Ids(actions))] + Published(actions[..succeeded])
      invariant code != "" ==> succeeded < |actions|
      invariant ok ==> PushedInOrder(git.pushed, old(git.pushed), actions, succeeded, code != "", git.ancestry)
      invariant ok ==> ProvenInOrder(actions, succeeded, git.seen)
      invariant code == "" && ok && alone ==> AllHold(git.remote, actions, succeeded)
      invariant !ok ==> log.power == 0
      invariant ok && calm ==> code == "" && AllCurrent(actions, succeeded, git.local, git.remote, git.ancestry)
      decreases |actions| - succeeded, code == "" && ok
    {
      ok, code := PerformStep(git, log, actions, succeeded, old(git.pushed), alone, calm);
      if ok && code == "" {
        succeeded := succeeded + 1;
      }
    }
  }

  // ---- Drafting ----

  // An existing upstream branch has an old object and needs no approval of its own; a new branch
  // or tag is absent on the remote and does. Every identifier is that of its fields.
  predicate FollowsContract(a: Action, project: string) {
    && (a.needsApproval <==> a.expected.None?)
    && a.id == ActionId(project, a.localRef, a.remoteRef, a.expected, a.proposed)
  }

  function ActionFor(project: string, localRef: string, remoteRef: string, expected: Option<Object>,
                     proposed: Object): Action {
    Action(ActionId(project, localRef, remoteRef, expected, proposed), localRef, remoteRef, expected, proposed,
           expected.None?)
  }

  datatype Upstream = Upstream(localRef: string, remoteRef: string)

  predicate IsAhead(u: Upstream, local: map<string, Object>, remote: map<string, Object>,
                    ancestry: (Object, Object) -> bool) {
    u.localRef in local && u.remoteRef in remote && ancestry(remote[u.remoteRef], local[u.localRef])
  }

  predicate IsNew(reference: string, localOnly: set<string>, local: map<string, Object>, remote: map<string, Object>) {
    reference in localOnly && reference in local && reference !in remote
  }

  method DraftUpstream(git: Git, project: string, u: Upstream) returns (r: Option<Action>)
    modifies git
    ensures git.pushed == old(git.pushed) && git.step >= old(git.step)
    ensures NoOtherWriter(git.script, old(git.step)) ==> git.remote == old(git.remote)
    ensures r.Some? ==> FollowsContract(r.value, project) && r.value.remoteRef == u.remoteRef && r.value.expected.Some?
    ensures r.Some? && NoOtherWriter(git.script, old(git.step)) ==> u.remoteRef in git.remote
    ensures r.Some? ==> git.ancestry(r.value.expected.value, r.value.proposed)
    ensures Undisturbed(git.script, old(git.step)) ==>
              && git.local == old(git.local) && (r.Some? <==> IsAhead(u, git.local, git.remote, git.ancestry))
              && (r.Some? ==> IsCurrent(r.value, git.local, git.remote, git.ancestry))
  {
    r := None;
    var proposed := git.ReadLocal(u.localRef);
    if proposed.None? {
      return;
    }
    var existing := git.ReadRemote(u.remoteRef);
    if existing.None? || existing.value.None? {
      return;
    }
    var related := git.CheckAncestor(existing.value.value, proposed.value);
    if related {
      r := Some(ActionFor(project, u.localRef, u.remoteRef, existing.value, proposed.value));
    }
  }

  method DraftNew(git: Git, project: string, reference: string, localOnly: set<string>) returns (r: Option<Action>)
    modifies git
    ensures git.pushed == old(git.pushed) && git.step >= old(git.step)
    ensures NoOtherWriter(git.script, old(git.step)) ==> git.remote == old(git.remote)
    ensures r.Some? ==> FollowsContract(r.value, project) && r.value.remoteRef == reference && r.value.expected.None?
    ensures r.Some? ==> reference in localOnly
    ensures r.Some? && NoOtherWriter(git.script, old(git.step)) ==> reference !in git.remote
    ensures Undisturbed(git.script, old(git.step)) ==>
              && git.local == old(git.local) && (r.Some? <==> IsNew(reference, localOnly, git.local, git.remote))
              && (r.Some? ==> IsCurrent(r.value, git.local, git.remote, git.ancestry))
  {
    r := None;
    if reference !in localOnly {
      return;
    }
    var proposed := git.ReadLocal(reference);
    if proposed.None? {
      return;
    }
    var existing := git.ReadRemote(reference);
    if existing.Some? && existing.value.None? {
      r := Some(ActionFor(project, reference, reference, None, proposed.value));
    }
  }

  // One action for each reference, in order.
  ghost predicate ActionsFor(actions: seq<Action>, references: seq<string>, localOnly: set<string>, project: string) {
    && |actions| == |references|
    && forall i | 0 <= i < |references| :: FollowsContract(actions[i], project) && actions[i].remoteRef == references[i]
                                           && references[i] in localOnly
  }

  ghost predicate NoneOnRemote(references: seq<string>, remote: map<string, Object>) {
    forall i | 0 <= i < |references| :: references[i] !in remote
  }

  ghost predicate AllNew(references: seq<string>, localOnly: set<string>, local: map<string, Object>,
                         remote: map<string, Object>) {
    forall i | 0 <= i < |references| :: IsNew(references[i], localOnly, local, remote)
  }

  method DraftReferences(git: Git, project: string, references: seq<string>, localOnly: set<string>)
    returns (r: Option<seq<Action>>)
    modifies git
    ensures git.pushed == old(git.pushed) && git.step >= old(git.step)
    ensures NoOtherWriter(git.script, old(git.step)) ==> git.remote == old(git.remote)
    ensures r.Some? ==> ActionsFor(r.value, references, localOnly, project)
    ensures r.Some? && NoOtherWriter(git.script, old(git.step)) ==> NoneOnRemote(references, git.remote)
    ensures Undisturbed(git.script, old(git.step)) ==>
              && git.local == old(git.local) && (r.Some? <==> AllNew(references, localOnly, git.local, git.remote))
              && (r.Some? ==> AllCurrent(r.value, 0, git.local, git.remote, git.ancestry))
  {
    var actions: seq<Action> := [];
    var k := 0;
    while k < |references|
      invariant k <= |references| && ActionsFor(actions, references[..k], localOnly, project)
      invariant git.pushed == old(git.pushed) && git.step >= old(git.step)
      invariant NoOtherWriter(git.script, old(git.step)) ==>
                  git.remote == old(git.remote) && NoneOnRemote(references[..k], git.remote)
      invariant Undisturbed(git.script, old(git.step)) ==>
                  && git.local == old(git.local) && AllNew(references[..k], localOnly, git.local, git.remote)
                  && AllCurrent(actions, 0, git.local, git.remote, git.ancestry)
    {
      var next := DraftNew(git, project, references[k], localOnly);
      if next.None? {
        return None;
      }
      actions := actions + [next.value];
      k := k + 1;
    }
    assert references[..|references|] == references;
    r := Some(actions);
  }

  // What the audit found of the Project: its remotes, what is checked out, the upstream as
  // "remote/branch", and how far the branch is behind and ahead of it.
  datatype Head = Branch(name: string) | Detached | Unborn

  datatype Audit = Audit(remotes: set<string>, head: Head, upstream: Option<string>, behind: Option<nat>,
                         ahead: Option<nat>, localOnly: set<string>)

  // The text before and after the first slash.
  function SplitOnce(s: string): (r: Option<(string, string)>)
    ensures r.Some? ==> s == r.value.0 + "/" + r.value.1 && '/' !in r.value.0
    ensures r.None? ==> '/' !in s
  {
    if s == "" then None
    else if s[0] == '/' then Some(("", s[1..]))
    else
      var rest := SplitOnce(s[1..]);
      if rest.None? then None else Some(([s[0]] + rest.value.0, rest.value.1))
  }

  function Known(count: Option<nat>): nat {
    if count.Some? then count.value else 0
  }

  // The remote is configured and is the upstream's, a branch is checked out, and it is not behind.
  ghost predicate Publishable(audit: Audit, remote: string) {
    && remote in audit.remotes && audit.head.Branch? && '/' !in remote
    && audit.upstream.Some? && remote + "/" <= audit.upstream.value && Known(audit.behind) == 0
  }

  // The upstream to publish to, if the branch is ahead of it.
  ghost function Ahead(audit: Audit, remote: string): Option<Upstream>
    requires Publishable(audit, remote)
  {
    if Known(audit.ahead) == 0 then None
    else Some(Upstream("refs/heads/" + audit.head.name, "refs/heads/" + audit.upstream.value[|remote| + 1..]))
  }

  // None if the Project cannot publish to the remote at all.
  method FindUpstream(audit: Audit, remote: string) returns (r: Option<Option<Upstream>>)
    ensures r.Some? <==> Publishable(audit, remote)
    ensures r.Some? ==> r.value == Ahead(audit, remote)
  {
    if remote !in audit.remotes || !audit.head.Branch? || audit.upstream.None? {
      return None;
    }
    var upstream := SplitOnce(audit.upstream.value);
    SplitsAtRemote(audit.upstream.value, remote);
    if upstream.None? || upstream.value.0 != remote || Known(audit.behind) != 0 {
      return None;
    }
    r := Some(if Known(audit.ahead) > 0
              then Some(Upstream("refs/heads/" + audit.head.name, "refs/heads/" + upstream.value.1)) else None);
  }

  lemma {:induction false} SplitsAtRemote(s: string, remote: string)
    ensures var r := SplitOnce(s);
      && (r.Some? && r.value.0 == remote <==> '/' !in remote && remote + "/" <= s)
      && (r.Some? && r.value.0 == remote ==> r.value.1 == s[|remote| + 1..])
  {
    var r := SplitOnce(s);
    var start := remote + "/";
    if '/' !in remote && start <= s {
      assert s[|remote|] == start[|remote|] == '/';
      assert r.Some?;
      var n := |r.value.0|;
      assert s[n] == (r.value.0 + "/" + r.value.1)[n] == '/' && s[..n] == r.value.0;
      assert forall i | 0 <= i < |remote| :: s[i] == start[i] == remote[i];
      assert forall i | 0 <= i < n :: s[i] == r.value.0[i];
      assert n == |remote|;
      assert r.value.0 == s[..n] == start[..n] == remote;
    }
  }

  // Drafts only what the Project can publish; nothing is read of the remote otherwise.
  method Draft(git: Git, project: string, audit: Audit, remote: string, selected: seq<string>)
    returns (r: Option<seq<Action>>)
    modifies git
    ensures git.pushed == old(git.pushed)
    ensures !Publishable(audit, remote) ==> r.None? && git.step == old(git.step) && git.seen == old(git.seen)
    ensures r.Some? ==> r.value != [] && forall a | a in r.value :: FollowsContract(a, project)
    ensures r.Some? ==>
              forall a | a in r.value && a.needsApproval :: a.remoteRef in selected && a.remoteRef in audit.localOnly
    ensures r.Some? ==> forall s | s in selected :: exists a :: a in r.value && a.remoteRef == s
    ensures r.Some? && NoOtherWriter(git.script, old(git.step)) ==> DistinctReferences(r.value)
    ensures r.Some? && Undisturbed(git.script, old(git.step)) ==>
              AllCurrent(r.value, 0, git.local, git.remote, git.ancestry)
    ensures Undisturbed(git.script, old(git.step)) ==>
              (r.Some? <==> && Publishable(audit, remote)
                            && CanDraft(Ahead(audit, remote), selected, audit.localOnly, git.local, git.remote,
                                        git.ancestry))
  {
    var upstream := FindUpstream(audit, remote);
    if upstream.None? {
      return None;
    }
    r := DraftActions(git, project, upstream.value, selected, audit.localOnly);
  }

  // One action for an upstream branch that is ahead, then one for each selected new reference
  // that the audit found local-only and the remote does not have.
  method DraftActions(git: Git, project: string, ahead: Option<Upstream>, selected: seq<string>, localOnly: set<string>)
    returns (r: Option<seq<Action>>)
    modifies git
    ensures git.pushed == old(git.pushed)
    ensures r.Some? ==> r.value != [] && forall a | a in r.value :: FollowsContract(a, project)
    ensures r.Some? ==>
              forall a | a in r.value && a.needsApproval :: a.remoteRef in selected && a.remoteRef in localOnly
    ensures r.Some? ==> forall s | s in selected :: exists a :: a in r.value && a.remoteRef == s
    ensures r.Some? && NoOtherWriter(git.script, old(git.step)) ==> DistinctReferences(r.value)
    ensures r.Some? && Undisturbed(git.script, old(git.step)) ==>
              AllCurrent(r.value, 0, git.local, git.remote, git.ancestry)
    ensures Undisturbed(git.script, old(git.step)) ==>
              (r.Some? <==> CanDraft(ahead, selected, localOnly, git.local, git.remote, git.ancestry))
  {
    var initial: seq<Action> := [];
    if ahead.Some? {
      var first := DraftUpstream(git, project, ahead.value);
      if first.None? {
        return None;
      }
      initial := [first.value];
    } else if selected == [] {
      return None;
    }
    var sorted := Sort(PlanDocument.TextLess(), selected);
    SortedReferences(selected);
    if HasNeighbours(sorted) {
      return None;
    }
    var drafted := DraftReferences(git, project, sorted, localOnly);
    if drafted.None? {
      return None;
    }
    r := Some(initial + drafted.value);
    DraftedAll(initial, drafted.value, selected, sorted, localOnly, project, git.remote,
               NoOtherWriter(git.script, old(git.step)));
  }

  // There is something to publish, no reference is selected twice, and all can be published.
  ghost predicate CanDraft(ahead: Option<Upstream>, selected: seq<string>, localOnly: set<string>,
                           local: map<string, Object>, remote: map<string, Object>, ancestry: (Object, Object) -> bool)
  {
    && (ahead.Some? || selected != []) && (ahead.Some? ==> IsAhead(ahead.value, local, remote, ancestry))
    && NoDuplicates(selected) && AllNew(selected, localOnly, local, remote)
  }

  predicate HasNeighbours<T(==)>(s: seq<T>) {
    exists i {:trigger s[i]} :: 0 <= i < |s| - 1 && s[i] == s[i + 1]
  }

  // In sorted order equal elements are neighbours.
  lemma NeighboursAreRepeats<T(!new)>(less: (T, T) -> bool, sorted: seq<T>)
    requires Total(less) && Ascending(less, sorted)
    ensures HasNeighbours(sorted) <==> !NoDuplicates(sorted)
  {
    if !NoDuplicates(sorted) {
      var i, j :| 0 <= i < j < |sorted| && sorted[i] == sorted[j];
      if i + 1 < j {
        assert !less(sorted[i + 1], sorted[i]) && !less(sorted[j], sorted[i + 1]);
      }
      assert sorted[i] == sorted[i + 1];
    }
  }

  lemma {:induction false} SortedReferences(selected: seq<string>)
    ensures var sorted := Sort(PlanDocument.TextLess(), selected);
      && (forall s :: s in sorted <==> s in selected) && (NoDuplicates(sorted) <==> NoDuplicates(selected))
      && (HasNeighbours(sorted) <==> !NoDuplicates(sorted))
      && forall localOnly, local, remote ::
           AllNew(sorted, localOnly, local, remote) <==> AllNew(selected, localOnly, local, remote)
  {
    var sorted := Sort(PlanDocument.TextLess(), selected);
    PlanDocument.TextIsTotal();
    SortSorts(PlanDocument.TextLess(), selected);
    NeighboursAreRepeats(PlanDocument.TextLess(), sorted);
    SortPermutes(PlanDocument.TextLess(), selected);
    SameElements(sorted, selected);
    if NoDuplicates(sorted) {
      PermutedNoDuplicates(sorted, selected);
    }
    if NoDuplicates(selected) {
      PermutedNoDuplicates(selected, sorted);
    }
    forall localOnly, local, remote
      ensures AllNew(sorted, localOnly, local, remote) <==> AllNew(selected, localOnly, local, remote)
    {
      NewByElement(sorted, selected, localOnly, local, remote);
      NewByElement(selected, sorted, localOnly, local, remote);
    }
  }

  lemma NewByElement(a: seq<string>, b: seq<string>, localOnly: set<string>, local: map<string, Object>,
                     remote: map<string, Object>)
    requires forall s :: s in b ==> s in a
    ensures AllNew(a, localOnly, local, remote) ==> AllNew(b, localOnly, local, remote)
  {
    if AllNew(a, localOnly, local, remote) {
      forall i | 0 <= i < |b| ensures IsNew(b[i], localOnly, local, remote) {
        assert b[i] in a;
        var j :| 0 <= j < |a| && a[j] == b[i];
      }
    }
  }

  lemma DraftedAll(initial: seq<Action>, drafted: seq<Action>, selected: seq<string>, sorted: seq<string>,
                   localOnly: set<string>, project: string, remote: map<string, Object>, quiet: bool)
    requires |initial| <= 1 && ActionsFor(drafted, sorted, localOnly, project) && NoDuplicates(sorted)
    requires forall s :: s in sorted <==> s in selected
    requires forall a | a in initial ::
              a.expected.Some? && FollowsContract(a, project) && (quiet ==> a.remoteRef in remote)
    requires quiet ==> NoneOnRemote(sorted, remote)
    ensures var actions := initial + drafted;
      && (forall a | a in actions :: FollowsContract(a, project))
      && (forall a | a in actions && a.needsApproval :: a.remoteRef in selected && a.remoteRef in localOnly)
      && (forall s | s in selected :: exists a :: a in actions && a.remoteRef == s)
      && (quiet ==> DistinctReferences(actions))
  {
    var actions := initial + drafted;
    forall s | s in selected ensures exists a :: a in actions && a.remoteRef == s {
      assert s in sorted;
      var i :| 0 <= i < |sorted| && sorted[i] == s;
      assert drafted[i] in actions;
    }
    forall a | a in actions ensures FollowsContract(a, project)
    {
      DraftedFrom(initial, drafted, sorted, localOnly, project, a);
    }
    forall a | a in actions && a.needsApproval ensures a.remoteRef in selected && a.remoteRef in localOnly {
      DraftedFrom(initial, drafted, sorted, localOnly, project, a);
    }
    if quiet {
      forall i, j | 0 <= i < j < |actions| ensures actions[i].remoteRef != actions[j].remoteRef {
        var n := |initial|;
        assert j >= n && actions[j].remoteRef == sorted[j - n];
        if i >= n {
          assert actions[i].remoteRef == sorted[i - n];
        } else {
          assert actions[i] == initial[i] && initial[i] in initial;
        }
      }
    }
  }

  // A drafted action is either one of the first ones or it publishes a selected reference.
  lemma DraftedFrom(initial: seq<Action>, drafted: seq<Action>, sorted: seq<string>, localOnly: set<string>,
                    project: string, a: Action)
    requires ActionsFor(drafted, sorted, localOnly, project) && a in initial + drafted
    ensures a in initial || (a.remoteRef in sorted && a.remoteRef in localOnly && FollowsContract(a, project))
  {
    if a !in initial {
      var i :| 0 <= i < |drafted| && drafted[i] == a;
      assert sorted[i] in sorted;
    }
  }

  // ---- Approval ----

  datatype PushPlan = PushPlan(project: string, remote: string, created: nat, expires: nat, actions: seq<Action>)

  // A Push Plan's hash, taken as injective over its document.
  datatype PlanHash = PlanHash(plan: PushPlan) | OtherHash(text: string)

  datatype Receipt = Receipt(planHash: PlanHash, acknowledged: bool, approved: seq<ActionId>)

  const LIFETIME := 15 * 60

  predicate IsDocument(p: PushPlan) {
    && p.actions != [] && p.created < p.expires <= p.created + LIFETIME
    && forall a | a in p.actions :: FollowsContract(a, p.project)
  }

  // The identifiers that have to be approved, in the plan's order.
  function Required(actions: seq<Action>): seq<ActionId> {
    if actions == [] then []
    else Required(actions[..|actions| - 1])
         + (if actions[|actions| - 1].needsApproval then [actions[|actions| - 1].id] else [])
  }

  // Every action that needs approval has it under an identifier of its own, no identifier is
  // given twice, and nothing else is approved.
  ghost predicate EachApprovedOnce(approved: seq<ActionId>, actions: seq<Action>) {
    NoDuplicates(approved) && (forall id :: id in approved <==> Needed(actions, id)) && OwnIdentifiers(actions)
  }

  ghost predicate Needed(actions: seq<Action>, id: ActionId) {
    exists a :: a in actions && a.needsApproval && a.id == id
  }

  ghost predicate OwnIdentifiers(actions: seq<Action>) {
    forall i, j | 0 <= i < j < |actions| && actions[i].needsApproval && actions[j].needsApproval ::
      actions[i].id != actions[j].id
  }

  // A receipt is given only for the reviewed document, before it expires, with the remote side
  // effects acknowledged and every new branch and tag approved by itself. `less` is the order of
  // the identifiers' texts. The receipt authorizes the plan's execution.
  method Approve(less: (ActionId, ActionId) -> bool, p: PushPlan, reviewed: PlanHash, now: nat, acknowledged: bool,
                 approved: seq<ActionId>)
    returns (r: Option<Receipt>)
    requires Total(less)
    ensures r.Some? <==> && acknowledged && IsDocument(p) && now <= p.expires && reviewed == PlanHash(p)
                         && EachApprovedOnce(approved, p.actions)
    ensures r.Some? ==> Authorizes(less, r.value, p, p.project) && multiset(r.value.approved) == multiset(approved)
  {
    if !acknowledged || !IsDocument(p) || now > p.expires || reviewed != PlanHash(p) {
      return None;
    }
    var required := Sort(less, Required(p.actions));
    var given := Sort(less, approved);
    SortedComparison(less, p.actions, approved);
    if HasNeighbours(given) || given != required {
      return None;
    }
    r := Some(Receipt(PlanHash(p), true, given));
    SortPermutes(less, approved);
  }

  // The comparison of neighbours and then of the two sorted lists decides it.
  lemma {:induction false} SortedComparison(less: (ActionId, ActionId) -> bool, actions: seq<Action>,
                                            approved: seq<ActionId>)
    requires Total(less)
    ensures var given := Sort(less, approved);
      && (!HasNeighbours(given) && given == Sort(less, Required(actions)) <==> EachApprovedOnce(approved, actions))
      && (!HasNeighbours(given) ==> StrictlyOrdered(less, given))
  {
    var required := Required(actions);
    var given, wanted := Sort(less, approved), Sort(less, required);
    SortedList(less, approved);
    SortedList(less, required);
    RequiredIs(actions);
    if EachApprovedOnce(approved, actions) {
      assert NoDuplicates(required) && forall id :: id in given <==> id in wanted;
      IncreasingIsUnique(less, given, wanted);
    }
  }

  // What sorting makes of a list of identifiers.
  lemma {:induction false} SortedList(less: (ActionId, ActionId) -> bool, ids: seq<ActionId>)
    requires Total(less)
    ensures var sorted := Sort(less, ids);
      && (forall id :: id in sorted <==> id in ids) && (HasNeighbours(sorted) <==> !NoDuplicates(ids))
      && (NoDuplicates(ids) ==> Increasing(less, sorted))
      && (Increasing(less, sorted) ==> StrictlyOrdered(less, sorted))
  {
    var sorted := Sort(less, ids);
    SortSorts(less, ids);
    SortPermutes(less, ids);
    SameElements(sorted, ids);
    NeighboursAreRepeats(less, sorted);
    if NoDuplicates(sorted) {
      PermutedNoDuplicates(sorted, ids);
    }
    if NoDuplicates(ids) {
      PermutedNoDuplicates(ids, sorted);
    }
  }

  lemma {:induction false} RequiredIs(actions: seq<Action>)
    ensures forall id :: id in Required(actions) <==> Needed(actions, id)
    ensures NoDuplicates(Required(actions)) <==> OwnIdentifiers(actions)
  {
    if actions != [] {
      var before, last := actions[..|actions| - 1], actions[|actions| - 1];
      RequiredIs(before);
      assert actions == before + [last];
      OneMoreNeeded(before, last);
      if last.needsApproval {
        OneMoreDistinct(Required(before), last.id);
        assert Required(actions) == Required(before) + [last.id];
      } else {
        assert Required(actions) == Required(before) + [] == Required(before);
      }
    }
  }

  lemma OneMoreNeeded(before: seq<Action>, last: Action)
    ensures var actions := before + [last];
      && (forall id :: Needed(actions, id) <==> Needed(before, id) || (last.needsApproval && last.id == id))
      && (OwnIdentifiers(actions) <==> OwnIdentifiers(before) && (last.needsApproval ==> !Needed(before, last.id)))
  {
    var actions := before + [last];
    assert last in actions && forall a :: a in actions <==> a in before || a == last;
    assert actions[|before|] == last && forall i | 0 <= i < |before| :: actions[i] == before[i] && before[i] in before;
    if a :| a in before && a.needsApproval && a.id == last.id {
      var i :| 0 <= i < |before| && before[i] == a;
      assert last.needsApproval ==>
        actions[i].needsApproval && actions[|before|].needsApproval && !OwnIdentifiers(actions);
    }
  }

  lemma OneMoreDistinct<T>(s: seq<T>, x: T)
    ensures NoDuplicates(s + [x]) <==> NoDuplicates(s) && x !in s
  {
    var r := s + [x];
    assert forall i | 0 <= i < |s| :: r[i] == s[i];
    assert r[|s|] == x;
  }

  // What a receipt's list has to look like to be read at all.
  predicate StrictlyOrdered(less: (ActionId, ActionId) -> bool, ids: seq<ActionId>) {
    forall i {:trigger ids[i]} | 0 <= i < |ids| - 1 :: less(ids[i], ids[i + 1])
  }

  predicate Authorizes(less: (ActionId, ActionId) -> bool, receipt: Receipt, p: PushPlan, project: string) {
    && IsDocument(p) && p.project == project && receipt.planHash == PlanHash(p) && receipt.acknowledged
    && StrictlyOrdered(less, receipt.approved) && receipt.approved == Sort(less, Required(p.actions))
  }

  lemma {:induction false} StrictlyOrderedIncreases(less: (ActionId, ActionId) -> bool, ids: seq<ActionId>, i: nat,
                                                    j: nat)
    requires Total(less) && StrictlyOrdered(less, ids) && i < j < |ids|
    ensures less(ids[i], ids[j])
    decreases j
  {
    assert less(ids[j - 1], ids[j - 1 + 1]);
    if i < j - 1 {
      StrictlyOrderedIncreases(less, ids, i, j - 1);
    }
  }

  // A receipt authorizes a document exactly when it is for it, acknowledged, and approves each
  // new branch and tag once, in the identifiers' order.
  lemma {:induction false} AuthorizedExactly(less: (ActionId, ActionId) -> bool, receipt: Receipt, p: PushPlan,
                                             project: string)
    requires Total(less)
    ensures Authorizes(less, receipt, p, project)
       <==> && IsDocument(p) && p.project == project && receipt.planHash == PlanHash(p) && receipt.acknowledged
            && Increasing(less, receipt.approved) && EachApprovedOnce(receipt.approved, p.actions)
  {
    var ids := receipt.approved;
    SortedList(less, Required(p.actions));
    RequiredIs(p.actions);
    if StrictlyOrdered(less, ids) {
      forall i, j | 0 <= i < j < |ids| ensures less(ids[i], ids[j]) {
        StrictlyOrderedIncreases(less, ids, i, j);
      }
    }
    if Increasing(less, ids) && EachApprovedOnce(ids, p.actions) {
      IncreasingIsUnique(less, ids, Sort(less, Required(p.actions)));
    }
    if Authorizes(less, receipt, p, project) {
      assert NoDuplicates(ids);
      PermutedBack(less, Required(p.actions));
    }
  }

  lemma {:induction false} PermutedBack(less: (ActionId, ActionId) -> bool, ids: seq<ActionId>)
    requires NoDuplicates(Sort(less, ids))
    ensures NoDuplicates(ids)
  {
    SortPermutes(less, ids);
    PermutedNoDuplicates(Sort(less, ids), ids);
  }

  // Whatever is authorized has actions, holds for at most fifteen minutes, and names each action by a
  // hash of all that it does.
  lemma AuthorizedDocument(less: (ActionId, ActionId) -> bool, receipt: Receipt, p: PushPlan, project: string)
    requires Authorizes(less, receipt, p, project)
    ensures p.actions != [] && p.created < p.expires <= p.created + 900 && receipt.planHash == PlanHash(p)
    ensures forall a | a in p.actions ::
              && a.id == ActionId(project, a.localRef, a.remoteRef, a.expected, a.proposed)
              && (a.needsApproval <==> a.expected.None?)
  {
  }

  // Whatever is authorized, every action that creates a branch or a tag was approved by itself.
  lemma NewReferencesAreApproved(less: (ActionId, ActionId) -> bool, receipt: Receipt, p: PushPlan, project: string)
    requires Total(less) && Authorizes(less, receipt, p, project)
    ensures forall a | a in p.actions && a.expected.None? :: a.id in receipt.approved
    ensures forall a, b | a in p.actions && b in p.actions && a.expected.None? && b.expected.None? && a != b ::
              a.id != b.id
  {
    AuthorizedExactly(less, receipt, p, project);
  }

  // ---- Executing ----

  // What the caller learns of an execution that returns a report.
  ghost predicate Executed(r: Report, actions: seq<Action>, records: seq<Record>, pushed: seq<string>,
                           before: seq<string>, seen: seq<(string, Option<Object>)>,
                           ancestry: (Object, Object) -> bool, reason: Option<string>)
  {
    && ReportIsHonest(r, actions) && LogShows(records, actions, r, reason)
    && ProvenInOrder(actions, r.succeeded, seen)
    && PushedInOrder(pushed, before, actions, r.succeeded, r.state == Partial, ancestry)
  }

  // Why no action is tried at all.
  function NotStarted(p: PushPlan, now: nat, projectUnchanged: bool): Option<string> {
    if now > p.expires then Some("push-plan-expired")
    else if !projectUnchanged then Some("local-project-changed") else None
  }

  method Execute(git: Git, less: (ActionId, ActionId) -> bool, p: PushPlan, project: string, receipt: Receipt, now: nat,
                 projectUnchanged: bool, power: nat)
    returns (r: Option<Report>, log: PushResultLog)
    modifies git
    ensures fresh(log)
    ensures r.Some? ==> Authorizes(less, receipt, p, project)
    ensures r.Some? ==> Executed(r.value, p.actions, log.records, git.pushed, old(git.pushed), git.seen, git.ancestry,
                                 NotStarted(p, now, projectUnchanged))
    ensures now > p.expires || !projectUnchanged || !Authorizes(less, receipt, p, project) ==>
              git.pushed == old(git.pushed) && (r.Some? ==> r.value.state == Partial && r.value.succeeded == 0)
    ensures r.Some? && r.value.state == Complete && NoOtherWriter(git.script, old(git.step)) ==>
              AllHold(git.remote, p.actions, |p.actions|)
    ensures r.None? ==> !Authorizes(less, receipt, p, project) || log.power == 0
    ensures && r.Some? && now <= p.expires && projectUnchanged && Undisturbed(git.script, old(git.step))
            && AllCurrent(p.actions, 0, old(git.local), old(git.remote), git.ancestry)
            && DistinctReferences(p.actions)
            ==> r.value.state == Complete
  {
    r := None;
    log := new PushResultLog(p.actions, power);
    if !Authorizes(less, receipt, p, project) {
      return;
    }
    assert Published(p.actions[..0]) == [] && RemoteRefs(p.actions[..0]) == [];
    if now > p.expires {
      r := FinishWith(log, p.actions, Partial, 0, 1, "push-plan-expired", None);
      return;
    }
    if !projectUnchanged {
      r := FinishWith(log, p.actions, Partial, 0, 1, "local-project-changed", None);
      return;
    }
    r := PublishAll(git, log, p.actions);
  }

  // The actions, one after the other, and the end of the log.
  method PublishAll(git: Git, log: PushResultLog, actions: seq<Action>) returns (r: Option<Report>)
    requires log.total == |actions| && log.proofs == ProofsOf(actions) && log.records == [Header(Ids(actions))]
    modifies git, log
    ensures r.Some? ==>
              Executed(r.value, actions, log.records, git.pushed, old(git.pushed), git.seen, git.ancestry, None)
    ensures r.Some? && r.value.state == Complete && NoOtherWriter(git.script, old(git.step)) ==>
              AllHold(git.remote, actions, |actions|)
    ensures r.None? ==> log.power == 0
    ensures && r.Some? && Undisturbed(git.script, old(git.step)) && DistinctReferences(actions)
            && AllCurrent(actions, 0, old(git.local), old(git.remote), git.ancestry)
            ==> r.value.state == Complete
  {
    r := None;
    var ok, succeeded, code := PerformActions(git, log, actions);
    if !ok {
      return;
    }
    if code == "" {
      r := FinishWith(log, actions, Complete, succeeded, 0, "complete", None);
    } else {
      r := FinishWith(log, actions, Partial, succeeded, 1, code, Some(actions[succeeded].id));
    }
  }

  // After a complete execution all the references hold their proposed objects at once exactly
  // when no two actions propose different objects for one reference, as in a plan that was drafted
  // while no one else wrote to the remote.
  lemma AllHoldAtOnce(remote: map<string, Object>, actions: seq<Action>)
    requires AllHold(remote, actions, |actions|)
    ensures (forall i | 0 <= i < |actions| :: Holds(remote, actions[i]))
       <==> (forall i, j | 0 <= i < j < |actions| && actions[i].remoteRef == actions[j].remoteRef ::
               actions[i].proposed == actions[j].proposed)
    ensures DistinctReferences(actions) ==> forall i | 0 <= i < |actions| :: Holds(remote, actions[i])
  {
    if forall i | 0 <= i < |actions| :: Holds(remote, actions[i]) {
      forall i, j | 0 <= i < j < |actions| && actions[i].remoteRef == actions[j].remoteRef
        ensures actions[i].proposed == actions[j].proposed
      {
        assert Holds(remote, actions[i]) && Holds(remote, actions[j]);
      }
    }
    if forall i, j | 0 <= i < j < |actions| && actions[i].remoteRef == actions[j].remoteRef ::
         actions[i].proposed == actions[j].proposed {
      forall i | 0 <= i < |actions| ensures Holds(remote, actions[i]) {
        assert LastFor(actions, i, |actions|);
      }
    }
  }
}
