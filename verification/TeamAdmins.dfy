/**
 The "never zero admins" protocol of apps/api/src/auth.ts: updateMemberRole and removeMember
 check, write, count again and compensate, with any number of them racing on the member table.
 */
module TeamAdmins {
  datatype Role = Admin | Member

  datatype Membership = Membership(user: nat, role: Role)

  datatype Kind = SetRole(role: Role) | Remove

  /** Each phase names the store access that comes next. */
  datatype Phase =
    | Authorizing
    | Listing
    | Resolving(wasAdmin: bool)
    | Writing(row: nat, wasAdmin: bool)
    | Recounting(row: nat)
    | Compensating(row: nat)
    | Refused
    | Succeeded

  datatype Mutation = Mutation(caller: nat, target: nat, kind: Kind, phase: Phase)

  datatype Team = Team(members: map<nat, Membership>, nextRow: nat, mutations: seq<Mutation>)

  /** `permitted` is what the library's own permission check answers inside its write. */
  datatype Event =
    | Start(caller: nat, target: nat, kind: Kind)
    | Authorize(mutation: nat)
    | List(mutation: nat)
    | FindRow(mutation: nat, row: nat)
    | Write(mutation: nat, permitted: bool)
    | Recount(mutation: nat)
    | Compensate(mutation: nat)
    | Join(user: nat, role: Role)

  function Admins(members: map<nat, Membership>): set<nat> {
    set r | r in members && members[r].role.Admin?
  }

  predicate IsAdmin(t: Team, user: nat) {
    exists r <- t.members :: t.members[r] == Membership(user, Admin)
  }

  predicate IsRowOf(t: Team, row: nat, user: nat) {
    row in t.members && t.members[row].user == user
  }

  function Goto(t: Team, i: nat, phase: Phase): Team
    requires i < |t.mutations|
  {
    t.(mutations := t.mutations[i := t.mutations[i].(phase := phase)])
  }

  /** The first phases of a demotion or a removal may lose an admin. */
  predicate Losing(kind: Kind) {
    kind.Remove? || kind.role.Member?
  }

  predicate At(t: Team, i: nat) {
    i < |t.mutations|
  }

  predicate Enabled(t: Team, e: Event) {
    match e
    case Start(_, _, _) => true
    case Authorize(i) => At(t, i) && t.mutations[i].phase.Authorizing?
    case List(i) => At(t, i) && t.mutations[i].phase.Listing?
    case FindRow(i, row) =>
      && At(t, i) && t.mutations[i].phase.Resolving?
      && (IsRowOf(t, row, t.mutations[i].target) || !HasRow(t, t.mutations[i].target))
    case Write(i, _) => At(t, i) && t.mutations[i].phase.Writing?
    case Recount(i) => At(t, i) && t.mutations[i].phase.Recounting?
    case Compensate(i) => At(t, i) && t.mutations[i].phase.Compensating?
    case Join(_, _) => true
  }

  predicate HasRow(t: Team, user: nat) {
    exists r <- t.members :: t.members[r].user == user
  }

  /** The snapshot: the target's role, and the last admin refused before anything is written. */
  function StepList(t: Team, i: nat): Team
    requires At(t, i) && t.mutations[i].phase.Listing?
  {
    var m := t.mutations[i];
    if !HasRow(t, m.target) then Goto(t, i, Refused)
    else
      var wasAdmin := IsAdmin(t, m.target);
      if wasAdmin && Losing(m.kind) && |Admins(t.members)| == 1 then Goto(t, i, Refused)
      else Goto(t, i, Resolving(wasAdmin))
  }

  /** The library's write, and whether this mutation has to count again. */
  function StepWrite(t: Team, i: nat, permitted: bool): Team
    requires At(t, i) && t.mutations[i].phase.Writing?
  {
    var m := t.mutations[i];
    var Writing(row, wasAdmin) := m.phase;
    if !permitted || row !in t.members then Goto(t, i, Refused)
    else
      var after := if wasAdmin && Losing(m.kind) then Recounting(row) else Succeeded;
      match m.kind
      case SetRole(role) => Goto(t.(members := t.members[row := t.members[row].(role := role)]), i, after)
      case Remove => Goto(t.(members := t.members - {row}), i, after)
  }

  /** A demoted row is updated in place; a removed one is created again. */
  function StepCompensate(t: Team, i: nat): Team
    requires At(t, i) && t.mutations[i].phase.Compensating?
  {
    var m := t.mutations[i];
    var row := m.phase.row;
    var u := if m.kind.Remove? then
               t.(members := t.members[t.nextRow := Membership(m.target, Admin)], nextRow := t.nextRow + 1)
             else if row in t.members then
               t.(members := t.members[row := t.members[row].(role := Admin)])
             else t;
    Goto(u, i, Refused)
  }

  function Step(t: Team, e: Event): Team {
    if !Enabled(t, e) then t else
    match e
    case Start(caller, target, kind) => t.(mutations := t.mutations + [Mutation(caller, target, kind, Authorizing)])
    case Authorize(i) => Goto(t, i, if IsAdmin(t, t.mutations[i].caller) then Listing else Refused)
    case List(i) => StepList(t, i)
    case FindRow(i, row) =>
      Goto(t, i, if IsRowOf(t, row, t.mutations[i].target) then Writing(row, t.mutations[i].phase.wasAdmin)
          else Refused)
    case Write(i, permitted) => StepWrite(t, i, permitted)
    case Recount(i) =>
      Goto(t, i, if Admins(t.members) == {} then Compensating(t.mutations[i].phase.row) else Succeeded)
    case Compensate(i) => StepCompensate(t, i)
    case Join(user, role) => t.(members := t.members[t.nextRow := Membership(user, role)], nextRow := t.nextRow + 1)
  }

  function Run(t: Team, events: seq<Event>): Team
    decreases |events|
  {
    if events == [] then t else Run(Step(t, events[0]), events[1..])
  }

  // ---------------------------------------------------------------------------
  // Never locked out
  // ---------------------------------------------------------------------------

  /** Between its own write and its compensation, and able to bring an admin back. */
  predicate WillRestore(t: Team, i: nat) {
    && At(t, i)
    && (t.mutations[i].phase.Recounting? || t.mutations[i].phase.Compensating?)
    && (!t.mutations[i].kind.Remove? ==> t.mutations[i].phase.row in t.members)
  }

  /** Zero admins implies that some mutation sits between its write and its compensation. */
  ghost predicate Inv(t: Team) {
    && (forall r <- t.members :: r < t.nextRow)
    && (Admins(t.members) == {} ==> exists i: nat :: WillRestore(t, i))
  }

  /**
   A permitted losing write, on a target that was listed as no admin, so that nobody will count again
   for it, while no row but the one it hits is an admin's.
   */
  predicate Gap(t: Team, e: Event) {
    && e.Write? && Enabled(t, e) && e.permitted && Losing(t.mutations[e.mutation].kind)
    && !t.mutations[e.mutation].phase.wasAdmin
    && t.mutations[e.mutation].phase.row in t.members
    && Admins(t.members) <= {t.mutations[e.mutation].phase.row}
  }

  /** No such write, unless a mutation is about to bring an admin back after it. */
  ghost predicate Covered(t: Team, e: Event) {
    Gap(t, e) ==> exists j: nat :: WillRestore(Step(t, e), j)
  }

  lemma NobodyIsAdmin(t: Team, user: nat)
    requires Admins(t.members) == {}
    ensures !IsAdmin(t, user)
  {
    forall r <- t.members ensures t.members[r] != Membership(user, Admin) { assert r !in Admins(t.members); }
  }

  lemma WriteKeeps(t: Team, i: nat, permitted: bool)
    requires Inv(t) && Enabled(t, Write(i, permitted))
    ensures Inv(StepWrite(t, i, permitted)) <==> Covered(t, Write(i, permitted))
  {
    var u := StepWrite(t, i, permitted);
    var m := t.mutations[i];
    var Writing(row, wasAdmin) := m.phase;
    if permitted && row in t.members {
      if Gap(t, Write(i, permitted)) {
        forall r <- Admins(u.members) ensures r in Admins(t.members) && r != row { assert r in u.members; }
        assert Step(t, Write(i, permitted)) == u;
      } else if Admins(u.members) == {} {
        forall q <- Admins(t.members) ensures q == row { assert q == row || q in Admins(u.members); }
        assert !Losing(m.kind) ==> row in Admins(u.members);
        assert WillRestore(u, i);
      }
    } else {
      assert row !in t.members ==> row !in Admins(t.members);
      if Admins(t.members) == {} {
        var j: nat :| WillRestore(t, j);
        assert WillRestore(u, j);
      }
    }
  }

  lemma CompensateKeeps(t: Team, i: nat)
    requires Inv(t) && Enabled(t, Compensate(i))
    ensures Inv(StepCompensate(t, i))
  {
    var u := StepCompensate(t, i);
    var m := t.mutations[i];
    if m.kind.Remove? {
      assert t.nextRow in Admins(u.members);
    } else if m.phase.row in t.members {
      assert m.phase.row in Admins(u.members);
    } else if Admins(t.members) == {} {
      var j: nat :| WillRestore(t, j);
      assert WillRestore(u, j);
    }
  }

  lemma OtherKeeps(t: Team, e: Event)
    requires Inv(t) && Enabled(t, e) && !e.Write? && !e.Compensate?
    ensures Inv(Step(t, e))
  {
    var u := Step(t, e);
    if e.Join? {
      forall r <- Admins(t.members) ensures r in Admins(u.members) { }
    } else {
      assert u.members == t.members;
    }
    if Admins(u.members) == {} {
      assert Admins(t.members) == {};
      var j: nat :| WillRestore(t, j);
      assert WillRestore(u, j);
    }
  }

  /** A step keeps the invariant exactly if it does not fall into the gap, whatever the library checks. */
  lemma StepKeepsIff(t: Team, e: Event)
    requires Inv(t)
    ensures Inv(Step(t, e)) <==> Covered(t, e)
  {
    if Enabled(t, e) {
      match e
      case Write(i, permitted) => WriteKeeps(t, i, permitted);
      case Compensate(i) => CompensateKeeps(t, i);
      case _ => OtherKeeps(t, e);
    }
  }

  /** Zero admins implies a pending compensation in every state of the run. */
  ghost predicate InvThroughout(t: Team, events: seq<Event>)
    decreases |events|
  {
    Inv(t) && (events != [] ==> InvThroughout(Step(t, events[0]), events[1..]))
  }

  ghost predicate CoveredRun(t: Team, events: seq<Event>)
    decreases |events|
  {
    events == [] || (Covered(t, events[0]) && CoveredRun(Step(t, events[0]), events[1..]))
  }

  /** Over whole runs too: the invariant holds throughout exactly if no step falls into the gap. */
  lemma {:induction false} RunKeepsIff(t: Team, events: seq<Event>)
    requires Inv(t)
    ensures InvThroughout(t, events) <==> CoveredRun(t, events)
    decreases |events|
  {
    if events != [] {
      StepKeepsIff(t, events[0]);
      if Inv(Step(t, events[0])) { RunKeepsIff(Step(t, events[0]), events[1..]); }
    }
  }

  lemma {:induction false} EndsThere(t: Team, events: seq<Event>)
    requires InvThroughout(t, events)
    ensures Inv(Run(t, events))
    decreases |events|
  {
    if events != [] { EndsThere(Step(t, events[0]), events[1..]); }
  }

  /** No mutation is between its write and its compensation. */
  predicate Settled(t: Team) {
    forall m <- t.mutations :: !m.phase.Recounting? && !m.phase.Compensating?
  }

  predicate FreshTeam(t: Team) {
    t.mutations == [] && (forall r <- t.members :: r < t.nextRow) && Admins(t.members) != {}
  }

  /** Any number of interleaved mutations leaves an admin whenever none is half done. */
  lemma NeverLockedOut(start: Team, events: seq<Event>)
    requires FreshTeam(start) && CoveredRun(start, events) && Settled(Run(start, events))
    ensures Admins(Run(start, events).members) != {}
  {
    RunKeepsIff(start, events);
    EndsThere(start, events);
  }

  /** While no admin is left, a mutation is about to bring one back, and a checked write is refused. */
  lemma ZeroAdminsIsTransient(start: Team, events: seq<Event>)
    requires FreshTeam(start) && CoveredRun(start, events) && Admins(Run(start, events).members) == {}
    ensures exists i: nat :: WillRestore(Run(start, events), i)
    ensures forall i: nat, permitted: bool | Enabled(Run(start, events), Write(i, permitted)) ::
              CheckedAtWrite(Run(start, events), Write(i, permitted)) ==> !permitted
  {
    RunKeepsIff(start, events);
    EndsThere(start, events);
    var t := Run(start, events);
    forall i: nat, permitted: bool
      | Enabled(t, Write(i, permitted)) && CheckedAtWrite(t, Write(i, permitted))
      ensures !permitted
    {
      NobodyIsAdmin(t, t.mutations[i].caller);
    }
  }

  // ---------------------------------------------------------------------------
  // The gap in two parts
  // ---------------------------------------------------------------------------

  /** The library refuses a write unless its caller is an admin at the moment of the write. */
  predicate CheckedAtWrite(t: Team, e: Event) {
    e.Write? && Enabled(t, e) && e.permitted ==> IsAdmin(t, t.mutations[e.mutation].caller)
  }

  /** The write hits the only admin: its target was promoted after the snapshot. */
  predicate Promoted(t: Team, e: Event) {
    Gap(t, e) && Admins(t.members) == {t.mutations[e.mutation].phase.row}
  }

  /** No such write, unless another mutation is about to bring an admin back. */
  ghost predicate NotPromoted(t: Team, e: Event) {
    Promoted(t, e) ==> exists j: nat :: WillRestore(Step(t, e), j)
  }

  /** With an atomic check promotion is all of the gap, so the check and `NotPromoted` cover a step. */
  lemma AtomicGap(t: Team, e: Event)
    requires CheckedAtWrite(t, e)
    ensures Gap(t, e) <==> Promoted(t, e)
    ensures Covered(t, e) <==> NotPromoted(t, e)
  {
    if Gap(t, e) && Admins(t.members) == {} { NobodyIsAdmin(t, t.mutations[e.mutation].caller); }
  }

  /** Every event of the run meets the hypotheses that are asked for. */
  ghost predicate Honest(t: Team, events: seq<Event>, atomicCheck: bool, noPromotion: bool)
    decreases |events|
  {
    events == [] ||
    (&& (atomicCheck ==> CheckedAtWrite(t, events[0]))
     && (noPromotion ==> NotPromoted(t, events[0]))
     && Honest(Step(t, events[0]), events[1..], atomicCheck, noPromotion))
  }

  /** With an atomic check throughout, the invariant holds throughout exactly if no promotion intervenes. */
  lemma {:induction false} AtomicRunKeepsIff(t: Team, events: seq<Event>)
    requires Inv(t) && Honest(t, events, true, false)
    ensures InvThroughout(t, events) <==> Honest(t, events, true, true)
    decreases |events|
  {
    if events != [] {
      AtomicGap(t, events[0]);
      StepKeepsIff(t, events[0]);
      if Inv(Step(t, events[0])) { AtomicRunKeepsIff(Step(t, events[0]), events[1..]); }
    }
  }

  // ---------------------------------------------------------------------------
  // Neither part can be dropped
  // ---------------------------------------------------------------------------

  ghost predicate Leads(t: Team, events: seq<Event>, u: Team, atomicCheck: bool, noPromotion: bool) {
    Run(t, events) == u && Honest(t, events, atomicCheck, noPromotion)
  }

  lemma {:induction false} Chain(t: Team, a: seq<Event>, u: Team, b: seq<Event>, v: Team, atomicCheck: bool,
        noPromotion: bool)
    requires Leads(t, a, u, atomicCheck, noPromotion) && Leads(u, b, v, atomicCheck, noPromotion)
    ensures Leads(t, a + b, v, atomicCheck, noPromotion)
    decreases |a|
  {
    if a == [] {
      assert a + b == b;
    } else {
      assert (a + b)[1..] == a[1..] + b;
      Chain(Step(t, a[0]), a[1..], u, b, v, atomicCheck, noPromotion);
    }
  }

  lemma One(t: Team, e: Event, atomicCheck: bool, noPromotion: bool)
    requires (atomicCheck ==> CheckedAtWrite(t, e)) && (noPromotion ==> NotPromoted(t, e))
    ensures Leads(t, [e], Step(t, e), atomicCheck, noPromotion)
  {
    assert [e][1..] == [];
    assert Run(t, [e]) == Run(Step(t, e), []);
  }

  /** One more event at the end of a run. */
  lemma Then(t: Team, a: seq<Event>, u: Team, e: Event, atomicCheck: bool, noPromotion: bool)
    requires Leads(t, a, u, atomicCheck, noPromotion)
    requires (atomicCheck ==> CheckedAtWrite(u, e)) && (noPromotion ==> NotPromoted(u, e))
    ensures Leads(t, a + [e], Step(u, e), atomicCheck, noPromotion)
  {
    One(u, e, atomicCheck, noPromotion);
    Chain(t, a, u, [e], Step(u, e), atomicCheck, noPromotion);
  }

  /** Two admins: user 1 on row 0, user 2 on row 1. */
  const PAIR := Team(map[0 := Membership(1, Admin), 1 := Membership(2, Admin)], 2, [])

  lemma PairHasTwo(t: Team)
    requires t.members == PAIR.members
    ensures Admins(t.members) == {0, 1} && |Admins(t.members)| == 2
    ensures IsAdmin(t, 1) && IsAdmin(t, 2) && HasRow(t, 1) && HasRow(t, 2)
  {
    assert t.members[0] == Membership(1, Admin) && t.members[1] == Membership(2, Admin);
  }

  /** A mutation up to its write, run without interruption on the pair. */
  function Prepare(i: nat, caller: nat, target: nat, kind: Kind): seq<Event>
    requires 1 <= target
  {
    [Start(caller, target, kind), Authorize(i), List(i), FindRow(i, target - 1)]
  }

  lemma Prepared(t: Team, caller: nat, target: nat, kind: Kind, atomicCheck: bool, noPromotion: bool)
    requires t.members == PAIR.members && 1 <= caller <= 2 && 1 <= target <= 2
    ensures Leads(t, Prepare(|t.mutations|, caller, target, kind),
                  t.(mutations := t.mutations + [Mutation(caller, target, kind, Writing(target - 1, true))]),
                  atomicCheck, noPromotion)
  {
    var i := |t.mutations|;
    PairHasTwo(t);
    var a := t.(mutations := t.mutations + [Mutation(caller, target, kind, Authorizing)]);
    One(t, Start(caller, target, kind), atomicCheck, noPromotion);
    var b := t.(mutations := t.mutations + [Mutation(caller, target, kind, Listing)]);
    PairHasTwo(a);
    assert Step(a, Authorize(i)) == b;
    Then(t, [Start(caller, target, kind)], a, Authorize(i), atomicCheck, noPromotion);
    var c := t.(mutations := t.mutations + [Mutation(caller, target, kind, Resolving(true))]);
    PairHasTwo(b);
    assert Step(b, List(i)) == c;
    Then(t, [Start(caller, target, kind)] + [Authorize(i)], b, List(i), atomicCheck, noPromotion);
    Then(t, [Start(caller, target, kind)] + [Authorize(i)] + [List(i)], c, FindRow(i, target - 1), atomicCheck,
        noPromotion);
    assert Prepare(i, caller, target, kind) ==
           [Start(caller, target, kind)] + [Authorize(i)] + [List(i)] + [FindRow(i, target - 1)];
  }

  /** A run of the pair under the chosen hypotheses that ends, with nothing half done, without an admin. */
  ghost predicate LosesAll(events: seq<Event>, atomicCheck: bool, noPromotion: bool) {
    && Honest(PAIR, events, atomicCheck, noPromotion)
    && Settled(Run(PAIR, events))
    && Admins(Run(PAIR, events).members) == {}
  }

  /**
   Were the library's permission check not atomic with its write, a removal authorized earlier
   could delete the row that a demotion is about to restore: the compensating update then hits
   nothing, and no admin is left.
   */
  lemma AtomicCheckNeeded()
    ensures FreshTeam(PAIR) && exists events :: LosesAll(events, false, true)
  {
    PairHasTwo(PAIR);
    var events := AtomicCheckRun();
    assert LosesAll(events, false, true);
  }

  lemma AtomicCheckRun() returns (events: seq<Event>)
    ensures LosesAll(events, false, true)
  {
    PairHasTwo(PAIR);
    var demote := SetRole(Member);
    var d1, d2 := Mutation(1, 1, demote, Writing(0, true)), Mutation(2, 2, demote, Writing(1, true));
    // Both admins demote themselves; a removal of user 2 is authorized meanwhile.
    events := Prepare(0, 1, 1, demote);
    Prepared(PAIR, 1, 1, demote, false, true);
    var t := PAIR.(mutations := [d1]);
    Prepared(t, 2, 2, demote, false, true);
    Chain(PAIR, events, t, Prepare(1, 2, 2, demote), t.(mutations := [d1, d2]), false, true);
    events, t := events + Prepare(1, 2, 2, demote), t.(mutations := [d1, d2]);
    var e := Event.Start(2, 2, Remove);
    Then(PAIR, events, t, e, false, true);
    events, t := events + [e], t.(mutations := [d1, d2, Mutation(2, 2, Remove, Authorizing)]);
    e := Authorize(2);
    PairHasTwo(t);
    Then(PAIR, events, t, e, false, true);
    events, t := events + [e], t.(mutations := [d1, d2, Mutation(2, 2, Remove, Listing)]);
    var rest := FromTwoDemotions(t);
    Chain(PAIR, events, t, rest, Run(t, rest), false, true);
    events := events + rest;
  }

  /** The second half of that run: the first demotion stands, the second empties the team. */
  lemma FromTwoDemotions(start: Team) returns (events: seq<Event>)
    requires start == Team(PAIR.members, 2,
      [Mutation(1, 1, SetRole(Member), Writing(0, true)), Mutation(2, 2, SetRole(Member), Writing(1, true)),
       Mutation(2, 2, Remove, Listing)])
    ensures Honest(start, events, false, true)
    ensures Settled(Run(start, events)) && Admins(Run(start, events).members) == {}
  {
    var done1 := Mutation(1, 1, SetRole(Member), Succeeded);
    var demoting := start.mutations[1];
    var t := Team(map[0 := Membership(1, Member), 1 := Membership(2, Admin)], 2,
                  [Mutation(1, 1, SetRole(Member), Recounting(0)), demoting, start.mutations[2]]);
    One(start, Write(0, true), false, true);
    events := [Write(0, true)];
    assert Step(start, Write(0, true)) == t;
    assert 1 in Admins(t.members);
    Then(start, events, t, Recount(0), false, true);
    events, t := events + [Recount(0)], t.(mutations := [done1, demoting, start.mutations[2]]);
    Then(start, events, t, Write(1, true), false, true);
    events, t := events + [Write(1, true)], Emptied(done1);
    var rest := FromEmptied(done1);
    Chain(start, events, t, rest, Run(t, rest), false, true);
    events := events + rest;
  }

  /** Both users demoted, the second demotion about to count, a removal about to list. */
  function Emptied(done: Mutation): Team {
    Team(map[0 := Membership(1, Member), 1 := Membership(2, Member)], 2,
         [done, Mutation(2, 2, SetRole(Member), Recounting(1)), Mutation(2, 2, Remove, Listing)])
  }

  lemma FromEmptied(done: Mutation) returns (events: seq<Event>)
    requires done.phase.Succeeded?
    ensures Honest(Emptied(done), events, false, true)
    ensures Settled(Run(Emptied(done), events)) && Admins(Run(Emptied(done), events).members) == {}
  {
    var start := Emptied(done);
    var recounting := start.mutations[1];
    assert start.members[1].user == 2;
    One(start, List(2), false, true);
    var t := start.(mutations := [done, recounting, Mutation(2, 2, Remove, Resolving(false))]);
    assert Step(start, List(2)) == t;
    events := [List(2)];
    Then(start, events, t, FindRow(2, 1), false, true);
    events, t := events + [FindRow(2, 1)], t.(mutations := [done, recounting,
        Mutation(2, 2, Remove, Writing(1, false))]);
    assert Admins(t.members) == {};
    Then(start, events, t, Recount(1), false, true);
    var compensating := Mutation(2, 2, SetRole(Member), Compensating(1));
    events, t := events + [Recount(1)], t.(mutations := [done, compensating,
        Mutation(2, 2, Remove, Writing(1, false))]);
    Then(start, events, t, Write(2, true), false, true);
    events, t := events + [Write(2, true)],
                 Team(map[0 := Membership(1, Member)], 2, [done, compensating, Mutation(2, 2, Remove, Succeeded)]);
    Then(start, events, t, Compensate(1), false, true);
    events := events + [Compensate(1)];
  }

  /**
   Were a target that was listed as a plain member promoted before the write, removing it would
   not be counted: user 2, demoted, listed, and promoted again, removes itself after user 1 stepped down.
   */
  lemma NoPromotionNeeded()
    ensures FreshTeam(PAIR) && exists events :: LosesAll(events, true, false)
  {
    PairHasTwo(PAIR);
    var events := NoPromotionRun();
    assert LosesAll(events, true, false);
  }

  lemma NoPromotionRun() returns (events: seq<Event>)
    ensures LosesAll(events, true, false)
  {
    PairHasTwo(PAIR);
    var t := PAIR.(mutations := [Mutation(2, 2, Remove, Listing)]);
    RemovalAuthorized();
    Prepared(t, 1, 2, SetRole(Member), true, false);
    var opening := [Event.Start(2, 2, Remove), Authorize(0)];
    assert t.mutations + [Mutation(1, 2, SetRole(Member), Writing(1, true))] == LISTING.mutations;
    Chain(PAIR, opening, t, Prepare(1, 1, 2, SetRole(Member)), LISTING, true, false);
    var rest := FromListing();
    Chain(PAIR, opening + Prepare(1, 1, 2, SetRole(Member)), LISTING, rest, Run(LISTING, rest), true, false);
    events := opening + Prepare(1, 1, 2, SetRole(Member)) + rest;
  }

  lemma RemovalAuthorized()
    ensures Leads(PAIR, [Event.Start(2, 2, Remove), Authorize(0)],
                  PAIR.(mutations := [Mutation(2, 2, Remove, Listing)]), true, false)
  {
    var e := Event.Start(2, 2, Remove);
    One(PAIR, e, true, false);
    var t := PAIR.(mutations := [Mutation(2, 2, Remove, Authorizing)]);
    assert Step(PAIR, e) == t;
    PairHasTwo(t);
    Then(PAIR, [e], t, Authorize(0), true, false);
    assert [e] + [Authorize(0)] == [e, Authorize(0)];
  }

  /** User 2's removal waits to list while user 1 demotes user 2. */
  const LISTING := Team(PAIR.members, 2, [Mutation(2, 2, Remove, Listing),
      Mutation(1, 2, SetRole(Member), Writing(1, true))])

  lemma FromListing() returns (events: seq<Event>)
    ensures Honest(LISTING, events, true, false)
    ensures Settled(Run(LISTING, events)) && Admins(Run(LISTING, events).members) == {}
  {
    PairHasTwo(LISTING);
    One(LISTING, Write(1, true), true, false);
    events := [Write(1, true)];
    var lone := map[0 := Membership(1, Admin), 1 := Membership(2, Member)];
    var t := Team(lone, 2, [Mutation(2, 2, Remove, Listing), Mutation(1, 2, SetRole(Member), Recounting(1))]);
    assert Step(LISTING, Write(1, true)) == t;
    assert 0 in Admins(lone) && lone[1].user == 2;
    Then(LISTING, events, t, Recount(1), true, false);
    var done1 := Mutation(1, 2, SetRole(Member), Succeeded);
    events, t := events + [Recount(1)], Team(lone, 2, [Mutation(2, 2, Remove, Listing), done1]);
    Then(LISTING, events, t, List(0), true, false);
    events, t := events + [List(0)], Team(lone, 2, [Mutation(2, 2, Remove, Resolving(false)), done1]);
    Then(LISTING, events, t, FindRow(0, 1), true, false);
    events, t := events + [FindRow(0, 1)], Team(lone, 2, [Mutation(2, 2, Remove, Writing(1, false)), done1]);
    var rest := FromWriting(done1);
    Chain(LISTING, events, t, rest, Run(t, rest), true, false);
    events := events + rest;
  }

  /** The removal holds its stale snapshot; user 1 promotes user 2 again. */
  function Stale(done: Mutation): Team {
    Team(map[0 := Membership(1, Admin), 1 := Membership(2, Member)], 2,
        [Mutation(2, 2, Remove, Writing(1, false)), done])
  }

  lemma FromWriting(done: Mutation) returns (events: seq<Event>)
    requires done.phase.Succeeded?
    ensures Honest(Stale(done), events, true, false)
    ensures Settled(Run(Stale(done), events)) && Admins(Run(Stale(done), events).members) == {}
  {
    var start := Stale(done);
    var remove := start.mutations[0];
    assert start.members[0] == Membership(1, Admin) && start.members[1].user == 2;
    var t := start.(mutations := [remove, done, Mutation(1, 2, SetRole(Admin), Authorizing)]);
    One(start, Event.Start(1, 2, SetRole(Admin)), true, false);
    events := [Event.Start(1, 2, SetRole(Admin))];
    Then(start, events, t, Authorize(2), true, false);
    events, t := events + [Authorize(2)], t.(mutations := [remove, done, Mutation(1, 2, SetRole(Admin), Listing)]);
    Then(start, events, t, List(2), true, false);
    events, t := events + [List(2)], t.(mutations := [remove, done, Mutation(1, 2, SetRole(Admin), Resolving(false))]);
    Then(start, events, t, FindRow(2, 1), true, false);
    events, t := events + [FindRow(2, 1)], t.(mutations := [remove, done,
        Mutation(1, 2, SetRole(Admin), Writing(1, false))]);
    Then(start, events, t, Write(2, true), true, false);
    var done2 := Mutation(1, 2, SetRole(Admin), Succeeded);
    events, t := events + [Write(2, true)], Team(PAIR.members, 2, [remove, done, done2]);
    var rest := FromPromoted(remove, done, done2);
    Chain(start, events, t, rest, Run(t, rest), true, false);
    events := events + rest;
  }

  lemma FromPromoted(remove: Mutation, done: Mutation, done2: Mutation) returns (events: seq<Event>)
    requires remove == Mutation(2, 2, Remove, Writing(1, false)) && done.phase.Succeeded? && done2.phase.Succeeded?
    ensures var start := Team(PAIR.members, 2, [remove, done, done2]);
            && Honest(start, events, true, false)
            && Settled(Run(start, events)) && Admins(Run(start, events).members) == {}
  {
    var start := Team(PAIR.members, 2, [remove, done, done2]);
    Prepared(start, 1, 1, SetRole(Member), true, false);
    events := Prepare(3, 1, 1, SetRole(Member));
    var t := start.(mutations := [remove, done, done2, Mutation(1, 1, SetRole(Member), Writing(0, true))]);
    PairHasTwo(t);
    Then(start, events, t, Write(3, true), true, false);
    var other := map[0 := Membership(1, Member), 1 := Membership(2, Admin)];
    events, t := events + [Write(3, true)],
                 Team(other, 2, [remove, done, done2, Mutation(1, 1, SetRole(Member), Recounting(0))]);
    assert 1 in Admins(other) && other[1] == Membership(2, Admin);
    Then(start, events, t, Recount(3), true, false);
    events, t := events + [Recount(3)], t.(mutations := [remove, done, done2,
        Mutation(1, 1, SetRole(Member), Succeeded)]);
    Then(start, events, t, Write(0, true), true, false);
    events := events + [Write(0, true)];
  }
}
