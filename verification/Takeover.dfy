/**
 * A whole run that ends a ban on the creator: from a lone create event, the creator joins, opens
 * the room and hands power to another user, who bans them and then sends their join on the create
 * event.
 */
module Takeover {
  import opened Common
  import opened RoomEvents
  import opened EventAuth
  import opened SampleRooms
  import opened RoomRuns

  function FirstJoin(): Event { Sent("$1", ["$c"], StateEvent(Member, ALICE, ALICE, BLANK.(membership := Join))) }

  function Opening(): Event { Sent("$2", ["$1"], StateEvent(JoinRules, "", ALICE, BLANK.(joinRule := Some(Public)))) }

  function SecondJoin(): Event { Sent("$3", ["$2"], StateEvent(Member, BOB, BOB, BLANK.(membership := Join))) }

  function Handover(): Event {
    Sent("$4", ["$3"], StateEvent(PowerLevels, "", ALICE, BLANK.(levels := NO_LEVELS.(users := map[BOB := Int(100)]))))
  }

  function CreatorsBan(): Event { Sent("$5", ["$4"], StateEvent(Member, ALICE, BOB, BLANK.(membership := Ban))) }

  function CreatorsReturn(): Event { Sent("$6", ["$c"], StateEvent(Member, ALICE, BOB, BLANK.(membership := Join))) }

  function Story(): seq<Event> { [FirstJoin(), Opening(), SecondJoin(), Handover(), CreatorsBan(), CreatorsReturn()] }

  /** A room that ALICE created, without creator power. */
  predicate Created(v: RoomVersion, s: StateMap) {
    !v.creatorPower && CREATE in s && s[CREATE] == CreateBy(v, ALICE)
  }

  lemma EveryoneFederates(v: RoomVersion, s: StateMap)
    requires Created(v, s)
    ensures Federates(s, ALICE) && Federates(s, BOB) && Creator(v, s[CREATE]) == Some(ALICE)
    ensures POWER !in s ==> UserLevel(v, s, ALICE) == Some(100) && UserLevel(v, s, BOB) == Some(0)
  {
    ServersOfSamples();
    hide DomainOf;
  }

  lemma CreatorJoinsAdmitted(v: RoomVersion, s: StateMap, e: Event)
    requires Created(v, s) && e in {FirstJoin(), CreatorsReturn()}
    ensures Admits(v, s, e)
  {
    EveryoneFederates(v, s);
    hide DomainOf, Federates, Creator, UserLevel, MembershipRules;
    assert CreatorJoins(v, e, s);
  }

  lemma OpeningAdmitted(v: RoomVersion, s: StateMap)
    requires Created(v, s) && Joined(s, ALICE) && POWER !in s
    ensures Admits(v, s, Opening())
  {
    EveryoneFederates(v, s);
    hide DomainOf, Federates, Creator, UserLevel, MembershipRules;
  }

  lemma HandoverAdmitted(v: RoomVersion, s: StateMap)
    requires Created(v, s) && Joined(s, ALICE) && POWER !in s
    ensures Admits(v, s, Handover())
  {
    EveryoneFederates(v, s);
    ServersOfSamples();
    hide DomainOf, ParsesAsUser, Federates, Creator, UserLevel, MembershipRules;
    assert CanSend(v, Handover(), s);
    assert PowerLevelsAllowed(v, Handover(), s);
  }

  lemma SecondJoinAdmitted(v: RoomVersion, s: StateMap)
    requires Created(v, s) && JoinRuleOf(s) == Public && MembershipOf(s, BOB) == None && POWER !in s
    ensures Admits(v, s, SecondJoin())
  {
    EveryoneFederates(v, s);
    hide DomainOf, Federates, Creator, UserLevel;
  }

  lemma BanAdmitted(v: RoomVersion, s: StateMap)
    requires Created(v, s) && POWER in s && s[POWER] == Handover() && Joined(s, ALICE) && Joined(s, BOB)
    ensures Admits(v, s, CreatorsBan())
  {
    EveryoneFederates(v, s);
    ServersOfSamples();
    assert UserLevel(v, s, BOB) == Some(100) && UserLevel(v, s, ALICE) == Some(0);
    hide DomainOf, Federates, Creator, UserLevel;
  }

  lemma StoryStates(s0: StateMap)
    ensures var e := Story();
            && StateAt(s0, e, 0) == s0
            && StateAt(s0, e, 1) == s0[MemberKey(ALICE) := e[0]]
            && StateAt(s0, e, 2) == StateAt(s0, e, 1)[JOIN_RULES := e[1]]
            && StateAt(s0, e, 3) == StateAt(s0, e, 2)[MemberKey(BOB) := e[2]]
            && StateAt(s0, e, 4) == StateAt(s0, e, 3)[POWER := e[3]]
            && StateAt(s0, e, 5) == StateAt(s0, e, 4)[MemberKey(ALICE) := e[4]]
            && StateAt(s0, e, 6) == StateAt(s0, e, 5)[MemberKey(ALICE) := e[5]]
  {}

  lemma StoryAdmitted(v: RoomVersion, s0: StateMap)
    requires !v.creatorPower && s0 == map[CREATE := CreateBy(v, ALICE)]
    ensures Run(v, s0, Story())
  {
    ServersOfSamples();
    StoryStates(s0);
    var e := Story();
    hide StateAt, Admits, DomainOf, ParsesAsUser;
    CreatorJoinsAdmitted(v, StateAt(s0, e, 0), e[0]);
    OpeningAdmitted(v, StateAt(s0, e, 1));
    SecondJoinAdmitted(v, StateAt(s0, e, 2));
    HandoverAdmitted(v, StateAt(s0, e, 3));
    BanAdmitted(v, StateAt(s0, e, 4));
    CreatorJoinsAdmitted(v, StateAt(s0, e, 5), e[5]);
  }

  /**
   * Without creator power the creator's join on the create event does end a ban, whoever sends it:
   * a run from a lone create event ends so.
   */
  lemma BannedCreatorReturns(v: RoomVersion)
    requires !v.creatorPower
    ensures exists create: Event, events: seq<Event> ::
              var s0: StateMap := map[CREATE := create];
              && CreateAllowed(v, create) && Creator(v, create) == Some(ALICE) && Run(v, s0, events) && events != []
              && Banned(StateAt(s0, events, |events| - 1), ALICE)
              && Joined(StateAt(s0, events, |events|), ALICE) && events[|events| - 1].sender == BOB
  {
    CreatesAllowed(v);
    var s0: StateMap := map[CREATE := CreateBy(v, ALICE)];
    StoryAdmitted(v, s0);
    StoryStates(s0);
    hide Run, StateAt, CreateAllowed;
    assert Banned(StateAt(s0, Story(), 5), ALICE) && Joined(StateAt(s0, Story(), 6), ALICE);
  }
}
