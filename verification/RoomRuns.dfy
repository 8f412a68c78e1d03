/**
 * Rooms over time: a run accepts events one after another, each against the state its
 * predecessors left. Bans and creators over every run.
 */
module RoomRuns {
  import opened Common
  import opened RoomEvents
  import opened EventAuth
  import opened SampleRooms

  /**
   * An event that the rules let into a room. Of the first stage only the rules for create events are
   * asked, so that claims over runs need no more, and a create event must have predecessors: without
   * any it begins a room and does not extend one.
   */
  ghost predicate Admits(v: RoomVersion, s: StateMap, e: Event) {
    (e.kind.Create? ==> e.prevIds != [] && CreateAllowed(v, e)) && Authorised(v, e, s)
  }

  function StateAt(s0: StateMap, events: seq<Event>, n: nat): StateMap
    requires n <= |events|
  {
    if n == 0 then s0 else Apply(StateAt(s0, events, n - 1), events[n - 1])
  }

  ghost predicate AdmittedAt(v: RoomVersion, s0: StateMap, events: seq<Event>, n: nat)
    requires n < |events|
  {
    Admits(v, StateAt(s0, events, n), events[n])
  }

  ghost predicate Run(v: RoomVersion, s0: StateMap, events: seq<Event>) {
    forall n: nat :: n < |events| ==> AdmittedAt(v, s0, events, n)
  }

  lemma {:induction false} CreateStays(v: RoomVersion, s0: StateMap, events: seq<Event>, n: nat)
    requires Run(v, s0, events) && n <= |events|
    ensures Lookup(StateAt(s0, events, n), CREATE) == Lookup(s0, CREATE)
  {
    if n > 0 {
      CreateStays(v, s0, events, n - 1);
      assert AdmittedAt(v, s0, events, n - 1);
    }
  }

  /** An accepted create event never has predecessors, so it extends no room. */
  lemma CreateExtendsNothing(v: RoomVersion, e: Event)
    requires e.kind.Create? && CreateAllowed(v, e)
    ensures e.prevIds == [] && forall s :: !Admits(v, s, e)
  {}

  /** Without predecessors a second create event passes both stages and takes the place of the first. */
  lemma SecondCreateAccepted(v: RoomVersion)
    ensures exists s: StateMap, e: Event ::
              && CREATE in s && CreateAllowed(v, s[CREATE]) && CreateAllowed(v, e)
              && Preauthorised(v, e, []) && Authorised(v, e, s) && Lookup(Apply(s, e), CREATE) == Some(e) != Lookup(s, CREATE)
  {
    CreatesAllowed(v);
    var s: StateMap, e := map[CREATE := CreateBy(v, ALICE)], CreateBy(v, BOB);
    assert Authorised(v, e, s) && Lookup(Apply(s, e), CREATE) == Some(e);
  }

  // ----- bans -----

  predicate Targets(e: Event, user: string, membership: Membership) {
    e.kind.Member? && e.stateKey == Some(user) && e.content.membership == membership
  }

  /** A leave for `user` from another joined user with the ban level, the kick level and more power. */
  predicate Unbans(v: RoomVersion, s: StateMap, e: Event, user: string) {
    var mine, theirs := UserLevel(v, s, e.sender), UserLevel(v, s, user);
    && Targets(e, user, Leave)
    && e.sender != user
    && Joined(s, e.sender)
    && AtLeast(mine, NamedLevel(s, BanLevel, 50))
    && AtLeast(mine, NamedLevel(s, KickLevel, 50))
    && theirs.Some? && mine.value > theirs.value
  }

  predicate LiftsBan(v: RoomVersion, s: StateMap, e: Event, user: string) {
    Unbans(v, s, e, user) || (Targets(e, user, Join) && CreatorJoins(v, e, s))
  }

  /** An admitted event ends a ban exactly when it is an unban or the creator's join on the create event. */
  lemma BanEndsExactly(v: RoomVersion, s: StateMap, e: Event, user: string)
    requires Admits(v, s, e) && Banned(s, user)
    ensures !Banned(Apply(s, e), user) <==> LiftsBan(v, s, e, user)
  {}

  /** Which leave events for a banned user are let in. */
  lemma UnbanAllowedExactly(v: RoomVersion, s: StateMap, e: Event, user: string)
    requires Banned(s, user) && Targets(e, user, Leave)
    ensures Authorised(v, e, s) <==>
            (&& CREATE in s && Federates(s, e.sender) && Federates(s, user)
             && NamedLevel(s, InviteLevel, 0).Some?
             && Unbans(v, s, e, user))
  {}

  /** Ban persistence: in every run a banned user stays banned up to the first event that lifts the ban. */
  lemma {:induction false} BanPersists(v: RoomVersion, s0: StateMap, events: seq<Event>, user: string, n: nat)
    requires Run(v, s0, events) && Banned(s0, user) && n <= |events|
    ensures Banned(StateAt(s0, events, n), user) ||
            exists m: nat :: m < n && Banned(StateAt(s0, events, m), user) && LiftsBan(v, StateAt(s0, events, m), events[m], user)
  {
    if n > 0 {
      BanPersists(v, s0, events, user, n - 1);
      var s := StateAt(s0, events, n - 1);
      assert AdmittedAt(v, s0, events, n - 1);
      if Banned(s, user) {
        BanEndsExactly(v, s, events[n - 1], user);
      }
    }
  }

  // ----- creators -----

  /** Every readable level, listed or default, is at most `c`. */
  predicate Capped(levels: Levels, c: int) {
    && (forall u :: u in levels.users && ToInt(levels.users[u]).Some? ==> ToInt(levels.users[u]).value <= c)
    && (DefaultLevel(levels).Some? ==> DefaultLevel(levels).value <= c)
  }

  /** No level in force above the creators' level of 2^53; canonical JSON stops one short of it. */
  predicate InForceBelowCreators(s: StateMap) {
    POWER in s ==> Capped(s[POWER].content.levels, CREATOR_POWER_LEVEL)
  }

  lemma NobodyAboveCreators(v: RoomVersion, s: StateMap, user: string)
    requires InForceBelowCreators(s)
    ensures UserLevel(v, s, user).Some? ==> UserLevel(v, s, user).value <= CREATOR_POWER_LEVEL
  {}

  /** A ban of a creator is let in exactly from a joined sender above 2^53 (and at the ban level). */
  lemma CreatorBanExactly(v: RoomVersion, s: StateMap, e: Event, creator: string)
    requires v.creatorPower && CREATE in s && IsCreator(v, s[CREATE], creator) && Targets(e, creator, Ban)
    ensures Authorised(v, e, s) <==>
            (&& Federates(s, e.sender) && Federates(s, creator)
             && MembershipOf(s, creator) != Some(Absent)
             && NamedLevel(s, InviteLevel, 0).Some?
             && Joined(s, e.sender)
             && AtLeast(UserLevel(v, s, e.sender), NamedLevel(s, BanLevel, 50))
             && UserLevel(v, s, e.sender).value > CREATOR_POWER_LEVEL)
  {}

  lemma {:induction false} LevelsStayBelowCreators(v: RoomVersion, s0: StateMap, events: seq<Event>, n: nat)
    requires Run(v, s0, events) && n <= |events| && InForceBelowCreators(s0)
    requires forall e :: e in events && e.kind.PowerLevels? ==> Capped(e.content.levels, CREATOR_POWER_LEVEL)
    ensures InForceBelowCreators(StateAt(s0, events, n))
  {
    if n > 0 {
      LevelsStayBelowCreators(v, s0, events, n - 1);
      assert events[n - 1] in events;
    }
  }

  /** No admitted event bans a creator or makes them leave against their will. */
  lemma CreatorStep(v: RoomVersion, s: StateMap, e: Event, creator: string)
    requires v.creatorPower && CREATE in s && IsCreator(v, s[CREATE], creator) && InForceBelowCreators(s)
    requires Admits(v, s, e)
    ensures !Banned(s, creator) ==> !Banned(Apply(s, e), creator)
    ensures Targets(e, creator, Leave) ==> e.sender == creator
  {
    NobodyAboveCreators(v, s, e.sender);
  }

  /**
   * Creator immunity: in creator-power rooms, no run bans a creator, and every leave of a
   * creator was sent by that creator.
   */
  lemma {:induction false} CreatorImmunity(v: RoomVersion, s0: StateMap, events: seq<Event>, creator: string, n: nat)
    requires v.creatorPower && CREATE in s0 && IsCreator(v, s0[CREATE], creator) && !Banned(s0, creator)
    requires Run(v, s0, events) && n <= |events| && InForceBelowCreators(s0)
    requires forall e :: e in events && e.kind.PowerLevels? ==> Capped(e.content.levels, CREATOR_POWER_LEVEL)
    ensures !Banned(StateAt(s0, events, n), creator)
    ensures forall m: nat :: m < n && Targets(events[m], creator, Leave) ==> events[m].sender == creator
  {
    hide Admits, IsCreator, InForceBelowCreators, Capped, Banned;
    if n > 0 {
      CreatorImmunity(v, s0, events, creator, n - 1);
      var s, e := StateAt(s0, events, n - 1), events[n - 1];
      assert AdmittedAt(v, s0, events, n - 1);
      CreateStays(v, s0, events, n - 1);
      assert CREATE in s && s[CREATE] == s0[CREATE];
      LevelsStayBelowCreators(v, s0, events, n - 1);
      CreatorStep(v, s, e, creator);
    }
  }
}
