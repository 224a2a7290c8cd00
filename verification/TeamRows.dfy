/** Whose membership rows the mutations of TeamAdmins change, and to what. */
module TeamRows {
  import opened Prelude
  import opened TeamAdmins

  /** A user's rows. */
  function RolesOf(t: Team, user: nat): map<nat, Role> {
    map r | r in t.members && t.members[r].user == user :: t.members[r].role
  }

  predicate HasRowPhase(phase: Phase) {
    phase.Writing? || phase.Recounting? || phase.Compensating?
  }

  /** The row a mutation works on was given out, and is its target's while it exists. */
  predicate TargetedAt(t: Team, i: nat) {
    At(t, i) && HasRowPhase(t.mutations[i].phase) ==>
      var m := t.mutations[i];
      m.phase.row < t.nextRow && (m.phase.row in t.members ==> t.members[m.phase.row].user == m.target)
  }

  ghost predicate Targeted(t: Team) {
    && (forall r <- t.members :: r < t.nextRow)
    && forall i: nat {:trigger TargetedAt(t, i)} :: TargetedAt(t, i)
  }

  lemma TargetedStep(t: Team, e: Event)
    requires Targeted(t)
    ensures Targeted(Step(t, e))
  {
    var u := Step(t, e);
    forall i: nat ensures TargetedAt(u, i) { assert TargetedAt(t, i); }
  }

  lemma {:induction false} TargetedRun(t: Team, events: seq<Event>)
    requires Targeted(t)
    ensures Targeted(Run(t, events))
    decreases |events|
  {
    if events != [] {
      TargetedStep(t, events[0]);
      TargetedRun(Step(t, events[0]), events[1..]);
    }
  }

  // ---------------------------------------------------------------------------
  // Only what targets a user changes its rows
  // ---------------------------------------------------------------------------

  /** The user joins, or a mutation that targets it writes or compensates. */
  predicate Touches(t: Team, e: Event, user: nat) {
    Enabled(t, e) &&
    match e
    case Join(joining, _) => joining == user
    case Write(i, permitted) => permitted && t.mutations[i].target == user
    case Compensate(i) => t.mutations[i].target == user
    case _ => false
  }

  lemma UntouchedStep(t: Team, e: Event, user: nat)
    requires Targeted(t) && !Touches(t, e, user)
    ensures RolesOf(Step(t, e), user) == RolesOf(t, user)
  {
    if e.Write? || e.Compensate? { assert TargetedAt(t, e.mutation); }
  }

  ghost predicate UntouchedThroughout(t: Team, events: seq<Event>, user: nat)
    decreases |events|
  {
    events == [] || (!Touches(t, events[0], user) && UntouchedThroughout(Step(t, events[0]), events[1..], user))
  }

  /** Over a run a user's rows stay as they are unless something in it is about that user. */
  lemma {:induction false} UntouchedKeepsRoles(t: Team, events: seq<Event>, user: nat)
    requires Targeted(t) && UntouchedThroughout(t, events, user)
    ensures RolesOf(Run(t, events), user) == RolesOf(t, user)
    decreases |events|
  {
    if events != [] {
      UntouchedStep(t, events[0], user);
      TargetedStep(t, events[0]);
      UntouchedKeepsRoles(Step(t, events[0]), events[1..], user);
    }
  }

  // ---------------------------------------------------------------------------
  // What a write and a compensation leave
  // ---------------------------------------------------------------------------

  /** A permitted write on a row that exists gives it exactly the asked role, or removes it; else nothing. */
  lemma WriteGives(t: Team, i: nat, permitted: bool)
    requires Targeted(t) && Enabled(t, Write(i, permitted))
    ensures var u, m := Step(t, Write(i, permitted)), t.mutations[i];
            if permitted && m.phase.row in t.members then
              && RolesOf(u, m.target)
                 == (if m.kind.Remove? then RolesOf(t, m.target) - {m.phase.row}
                     else RolesOf(t, m.target)[m.phase.row := m.kind.role])
              && !u.mutations[i].phase.Refused?
            else
              u.members == t.members && u.mutations[i].phase.Refused?
  {
    assert TargetedAt(t, i);
  }

  /** A user who joins gets one row more, with the role it was given. */
  lemma JoinGives(t: Team, user: nat, role: Role)
    requires Targeted(t)
    ensures RolesOf(Step(t, Join(user, role)), user) == RolesOf(t, user)[t.nextRow := role]
    ensures t.nextRow !in RolesOf(t, user)
  {
  }

  /** Whether a compensation finds something to restore. */
  predicate Restorable(t: Team, i: nat)
    requires At(t, i) && t.mutations[i].phase.Compensating?
  {
    t.mutations[i].kind.Remove? || t.mutations[i].phase.row in t.members
  }

  /**
   A compensation makes the target an admin again wherever there is a row to restore: the demoted
   one, or a new one for a removed user. It changes no row of any other user.
   */
  lemma CompensationRestores(t: Team, i: nat)
    requires Targeted(t) && Enabled(t, Compensate(i))
    ensures var u, m := Step(t, Compensate(i)), t.mutations[i];
            && u.mutations[i].phase.Refused?
            && (Restorable(t, i) ==> IsAdmin(u, m.target))
            && (forall user | user != m.target :: RolesOf(u, user) == RolesOf(t, user))
            && RolesOf(u, m.target)
               == if m.kind.Remove? then RolesOf(t, m.target)[t.nextRow := Admin]
                  else if m.phase.row in t.members then RolesOf(t, m.target)[m.phase.row := Admin]
                  else RolesOf(t, m.target)
  {
    var u, m := Step(t, Compensate(i)), t.mutations[i];
    assert TargetedAt(t, i);
    forall user | user != m.target ensures RolesOf(u, user) == RolesOf(t, user) {
      UntouchedStep(t, Compensate(i), user);
    }
    if m.kind.Remove? {
      assert u.members[t.nextRow] == Membership(m.target, Admin);
    } else if m.phase.row in t.members {
      assert u.members[m.phase.row] == Membership(m.target, Admin);
    }
  }

  // ---------------------------------------------------------------------------
  // A refused mutation leaves its target as it was listed
  // ---------------------------------------------------------------------------

  lemma {:induction false} RunSnoc(t: Team, events: seq<Event>, e: Event)
    ensures Run(t, events + [e]) == Step(Run(t, events), e)
    decreases |events|
  {
    if events == [] {
      assert [] + [e] == [e] && [e][1..] == [];
      assert Run(t, [e]) == Run(Step(t, e), []);
    } else {
      assert (events + [e])[1..] == events[1..] + [e];
      RunSnoc(Step(t, events[0]), events[1..], e);
    }
  }

  /** What the mutation's snapshot said of its target; only a listed admin is counted again for. */
  function Snapshot(phase: Phase): Option<bool> {
    match phase
    case Resolving(wasAdmin) => Some(wasAdmin)
    case Writing(_, wasAdmin) => Some(wasAdmin)
    case Recounting(_) => Some(true)
    case Compensating(_) => Some(true)
    case _ => None
  }

  /** The `k`-th event of the run is the mutation's listing, and finds the target an admin or not. */
  ghost predicate ListedAt(start: Team, events: seq<Event>, k: nat, i: nat, admin: bool) {
    && k < |events| && events[k] == List(i)
    && var t := Run(start, events[..k]);
       Enabled(t, List(i)) && IsAdmin(t, t.mutations[i].target) == admin
  }

  ghost predicate Listed(start: Team, events: seq<Event>, i: nat, admin: bool) {
    exists k: nat :: ListedAt(start, events, k, i, admin)
  }

  lemma ListedEarlier(start: Team, events: seq<Event>, e: Event, i: nat, admin: bool)
    requires Listed(start, events, i, admin)
    ensures Listed(start, events + [e], i, admin)
  {
    var k: nat :| ListedAt(start, events, k, i, admin);
    assert (events + [e])[..k] == events[..k];
    assert ListedAt(start, events + [e], k, i, admin);
  }

  lemma SnapshotStep(t: Team, e: Event, i: nat)
    requires At(t, i)
    ensures At(Step(t, e), i) && Step(t, e).mutations[i].target == t.mutations[i].target
    ensures var before, after := Snapshot(t.mutations[i].phase), Snapshot(Step(t, e).mutations[i].phase);
            after.Some? && after != before ==>
              e == List(i) && Enabled(t, e) && after.value == IsAdmin(t, t.mutations[i].target)
  {
  }

  /** A snapshot is what a listing of the run found. */
  lemma {:induction false} SnapshotListed(start: Team, events: seq<Event>, i: nat)
    requires start.mutations == [] && At(Run(start, events), i)
    requires Snapshot(Run(start, events).mutations[i].phase).Some?
    ensures Listed(start, events, i, Snapshot(Run(start, events).mutations[i].phase).value)
    decreases |events|
  {
    if events != [] {
      var init, e := events[..|events| - 1], events[|events| - 1];
      var t := Run(start, init);
      assert events == init + [e];
      RunSnoc(start, init, e);
      if At(t, i) {
        SnapshotStep(t, e, i);
        var admin := Snapshot(Step(t, e).mutations[i].phase).value;
        if Snapshot(t.mutations[i].phase) == Some(admin) {
          SnapshotListed(start, init, i);
          ListedEarlier(start, init, e, i, admin);
        } else {
          assert events[..|init|] == init;
          assert ListedAt(start, events, |init|, i, admin);
        }
      }
    }
  }

  /**
   When a mutation comes to be refused, the step changes no member, or it is the mutation's own
   compensation: its target was listed as an admin, and is one again if there is a row to restore.
   */
  lemma RefusedKeepsRole(start: Team, events: seq<Event>, e: Event, i: nat)
    requires FreshTeam(start)
    requires var t, u := Run(start, events), Run(start, events + [e]);
             At(t, i) && At(u, i) && !t.mutations[i].phase.Refused? && u.mutations[i].phase.Refused?
    ensures var t, u := Run(start, events), Run(start, events + [e]);
            || u.members == t.members
            || (&& e == Compensate(i) && t.mutations[i].phase.Compensating?
                && Listed(start, events, i, true)
                && (Restorable(t, i) ==> IsAdmin(u, t.mutations[i].target)))
  {
    var t := Run(start, events);
    RunSnoc(start, events, e);
    forall i: nat ensures TargetedAt(start, i) { }
    TargetedRun(start, events);
    if e == Compensate(i) {
      SnapshotListed(start, events, i);
      CompensationRestores(t, i);
    }
  }

  // ---------------------------------------------------------------------------
  // One mutation that nothing interrupts
  // ---------------------------------------------------------------------------

  function Alone(i: nat, caller: nat, target: nat, kind: Kind, row: nat, permitted: bool): seq<Event> {
    [Start(caller, target, kind), Authorize(i), List(i), FindRow(i, row), Write(i, permitted),
     Recount(i), Compensate(i)]
  }

  /** An admin asks for a user with a row, and no demotion or removal of the last admin. */
  predicate Allowed(t: Team, caller: nat, target: nat, kind: Kind) {
    && IsAdmin(t, caller) && HasRow(t, target)
    && !(IsAdmin(t, target) && Losing(kind) && |Admins(t.members)| == 1)
  }

  /** It succeeds exactly if it is allowed and permitted, and then does what was asked and no more. */
  lemma AloneDoesWhatIsAsked(t: Team, caller: nat, target: nat, kind: Kind, row: nat, permitted: bool)
    requires HasRow(t, target) ==> IsRowOf(t, row, target)
    ensures var i, u := |t.mutations|, Run(t, Alone(|t.mutations|, caller, target, kind, row, permitted));
            && At(u, i)
            && (if Allowed(t, caller, target, kind) && permitted then
                  && u.mutations[i].phase.Succeeded?
                  && u.members == (if kind.Remove? then t.members - {row}
                                   else t.members[row := Membership(target, kind.role)])
                else
                  u.mutations[i].phase.Refused? && u.members == t.members)
  {
    var i := |t.mutations|;
    var events := Alone(i, caller, target, kind, row, permitted);
    var a := Step(t, Start(caller, target, kind));
    assert a == t.(mutations := t.mutations + [Mutation(caller, target, kind, Authorizing)]);
    SevenSteps(t, events);
    AuthorizedAlone(t, a, caller, target, kind, row, permitted);
  }

  lemma SevenSteps(t: Team, events: seq<Event>)
    requires |events| == 7
    ensures Run(t, events)
         == (var u := Step(Step(Step(Step(t, events[0]), events[1]), events[2]), events[3]);
             Step(Step(Step(u, events[4]), events[5]), events[6]))
  {
    RunSnoc(t, [], events[0]);
    RunSnoc(t, events[..1], events[1]);
    RunSnoc(t, events[..2], events[2]);
    RunSnoc(t, events[..3], events[3]);
    RunSnoc(t, events[..4], events[4]);
    RunSnoc(t, events[..5], events[5]);
    RunSnoc(t, events[..6], events[6]);
    assert forall k | 0 <= k < 7 :: events[..k] + [events[k]] == events[..k + 1];
    assert events[..7] == events && events[..0] == [];
  }

  lemma AuthorizedAlone(t: Team, a: Team, caller: nat, target: nat, kind: Kind, row: nat, permitted: bool)
    requires HasRow(t, target) ==> IsRowOf(t, row, target)
    requires a == t.(mutations := t.mutations + [Mutation(caller, target, kind, Authorizing)])
    ensures var i := |t.mutations|;
            var d := Step(Step(Step(a, Authorize(i)), List(i)), FindRow(i, row));
            var u := Step(Step(Step(d, Write(i, permitted)), Recount(i)), Compensate(i));
            && At(u, i)
            && (if Allowed(t, caller, target, kind) && permitted then
                  && u.mutations[i].phase.Succeeded?
                  && u.members == (if kind.Remove? then t.members - {row}
                                   else t.members[row := Membership(target, kind.role)])
                else
                  u.mutations[i].phase.Refused? && u.members == t.members)
  {
    var i := |t.mutations|;
    var m := Mutation(caller, target, kind, Authorizing);
    var d := Step(Step(Step(a, Authorize(i)), List(i)), FindRow(i, row));
    ListedAlone(t, a, caller, target, kind, row);
    if Allowed(t, caller, target, kind) {
      WrittenAlone(t, d, m.(phase := Writing(row, IsAdmin(t, target))), permitted);
    } else {
      assert d.mutations[i].phase.Refused?;
    }
  }

  lemma ListedAlone(t: Team, a: Team, caller: nat, target: nat, kind: Kind, row: nat)
    requires HasRow(t, target) ==> IsRowOf(t, row, target)
    requires a == t.(mutations := t.mutations + [Mutation(caller, target, kind, Authorizing)])
    ensures var i := |t.mutations|;
            var m := Mutation(caller, target, kind, Authorizing);
            Step(Step(Step(a, Authorize(i)), List(i)), FindRow(i, row))
            == t.(mutations := t.mutations + [m.(phase :=
                    if Allowed(t, caller, target, kind) then Writing(row, IsAdmin(t, target)) else Refused)])
  {
    var i := |t.mutations|;
    var m := Mutation(caller, target, kind, Authorizing);
    var b := Step(a, Authorize(i));
    assert b == t.(mutations := t.mutations + [m.(phase := if IsAdmin(t, caller) then Listing else Refused)]);
    var c := Step(b, List(i));
    assert c == t.(mutations := t.mutations + [m.(phase :=
      if Allowed(t, caller, target, kind) then Resolving(IsAdmin(t, target)) else Refused)]);
  }

  lemma WrittenAlone(t: Team, d: Team, m: Mutation, permitted: bool)
    requires m.phase.Writing? && IsRowOf(t, m.phase.row, m.target) && m.phase.wasAdmin == IsAdmin(t, m.target)
    requires !(m.phase.wasAdmin && Losing(m.kind) && |Admins(t.members)| == 1)
    requires d == t.(mutations := t.mutations + [m])
    ensures var i := |t.mutations|;
            var u := Step(Step(Step(d, Write(i, permitted)), Recount(i)), Compensate(i));
            && At(u, i)
            && (if permitted then
                  && u.mutations[i].phase.Succeeded?
                  && u.members == (if m.kind.Remove? then t.members - {m.phase.row}
                                   else t.members[m.phase.row := Membership(m.target, m.kind.role)])
                else
                  u.mutations[i].phase.Refused? && u.members == t.members)
  {
    var i := |t.mutations|;
    var e := Step(d, Write(i, permitted));
    if permitted && m.phase.wasAdmin && Losing(m.kind) { OthersAreAdmins(t, e, m); }
  }

  lemma OthersAreAdmins(t: Team, e: Team, m: Mutation)
    requires IsAdmin(t, m.target) && |Admins(t.members)| != 1 && m.phase.Writing? && m.phase.row in t.members
    requires forall r <- t.members :: r != m.phase.row ==> r in e.members && e.members[r] == t.members[r]
    ensures Admins(e.members) != {}
  {
    var r :| r in t.members && t.members[r] == Membership(m.target, Admin);
    assert r in Admins(t.members);
    assert Admins(t.members) != {m.phase.row};
    var q :| q in Admins(t.members) && q != m.phase.row;
    assert q in Admins(e.members);
  }
}
