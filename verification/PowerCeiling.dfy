/** Power over every run of a room without creator power, once a power_levels event is in force. */
module PowerCeiling {
  import opened Common
  import opened RoomEvents
  import opened EventAuth
  import opened SampleRooms
  import opened RoomRuns

  /** Every user, listed or not, has a level of at most `c` (where it can be read at all). */
  ghost predicate Ceiling(v: RoomVersion, s: StateMap, c: int) {
    forall user :: UserLevel(v, s, user).Some? ==> UserLevel(v, s, user).value <= c
  }

  /** Some user is not listed: the map is finite. */
  lemma {:induction false} UnlistedUser(users: set<string>) returns (user: string)
    ensures forall u :: u in users ==> |u| < |user|
  {
    if users == {} {
      user := "@";
    } else {
      var u :| u in users;
      var longer := UnlistedUser(users - {u});
      user := if |longer| > |u| then longer else u + "@";
      assert forall w :: w in users ==> w == u || w in users - {u};
    }
  }

  /** The ceiling said of the content in force: listed levels and the default. */
  lemma CeilingIsCapped(v: RoomVersion, s: StateMap, c: int)
    requires !v.creatorPower && CREATE in s && POWER in s
    ensures Ceiling(v, s, c) <==> Capped(s[POWER].content.levels, c)
  {
    var levels := s[POWER].content.levels;
    if Ceiling(v, s, c) {
      forall u | u in levels.users && ToInt(levels.users[u]).Some? ensures ToInt(levels.users[u]).value <= c {
        assert UserLevel(v, s, u) == ToInt(levels.users[u]);
      }
      var u := UnlistedUser(levels.users.Keys);
      assert u !in levels.users;
      assert UserLevel(v, s, u) == DefaultLevel(levels);
    }
  }

  /** An event that sets the levels in force without a default for unlisted users. */
  predicate DropsDefault(e: Event) {
    e.kind.PowerLevels? && e.stateKey == Some("") && UsersDefault !in e.content.levels.named
  }

  /**
   * An accepted change of the levels in force lists nothing above the ceiling; it defaults to no
   * more either, unless it leaves the default out under a negative ceiling.
   */
  lemma ChangeStaysCapped(v: RoomVersion, s: StateMap, e: Event, c: int)
    requires !v.creatorPower && CREATE in s && POWER in s && Capped(s[POWER].content.levels, c)
    requires e.kind.PowerLevels? && e.stateKey == Some("") && PowerLevelsAllowed(v, e, s)
    ensures Capped(e.content.levels, c) <==> c >= 0 || !DropsDefault(e)
  {
    var was, now := s[POWER].content.levels, e.content.levels;
    CeilingIsCapped(v, s, c);
    var mine := UserLevel(v, s, e.sender).value;
    assert mine <= c;
    forall u | u in now.users && ToInt(now.users[u]).Some? ensures ToInt(now.users[u]).value <= c {
      assert Checked(v, was, now, OfUser(u));
      assert ChangeAllowed(e.sender, mine, was, now, OfUser(u));
    }
    assert Checked(v, was, now, Named(UsersDefault));
    assert ChangeAllowed(e.sender, mine, was, now, Named(UsersDefault));
  }

  /** An admitted event keeps a ceiling exactly when it is not negative or the default is not left out. */
  lemma StepStaysCapped(v: RoomVersion, s: StateMap, e: Event, c: int)
    requires !v.creatorPower && CREATE in s && POWER in s && Capped(s[POWER].content.levels, c)
    requires Admits(v, s, e)
    ensures POWER in Apply(s, e)
    ensures Capped(Apply(s, e)[POWER].content.levels, c) <==> c >= 0 || !DropsDefault(e)
  {
    if e.kind.PowerLevels? && e.stateKey == Some("") {
      ChangeStaysCapped(v, s, e, c);
    }
  }

  lemma {:induction false} RunStaysCapped(v: RoomVersion, s0: StateMap, events: seq<Event>, c: int, n: nat)
    requires !v.creatorPower && CREATE in s0 && POWER in s0 && c >= 0 && Capped(s0[POWER].content.levels, c)
    requires Run(v, s0, events) && n <= |events|
    ensures var s := StateAt(s0, events, n); CREATE in s && POWER in s && Capped(s[POWER].content.levels, c)
  {
    if n > 0 {
      RunStaysCapped(v, s0, events, c, n - 1);
      assert AdmittedAt(v, s0, events, n - 1);
      CreateStays(v, s0, events, n);
      StepStaysCapped(v, StateAt(s0, events, n - 1), events[n - 1], c);
    }
  }

  /** Power ceiling: no run lifts anyone above the larger of zero and the highest level at its start. */
  lemma PowerNeverRises(v: RoomVersion, s0: StateMap, events: seq<Event>, c: int, n: nat)
    requires !v.creatorPower && CREATE in s0 && POWER in s0 && Ceiling(v, s0, c)
    requires Run(v, s0, events) && n <= |events|
    ensures Ceiling(v, StateAt(s0, events, n), if c > 0 then c else 0)
  {
    var top := if c > 0 then c else 0;
    CeilingIsCapped(v, s0, c);
    RunStaysCapped(v, s0, events, top, n);
    CeilingIsCapped(v, StateAt(s0, events, n), top);
  }

  lemma {:induction false} LevelsStayInForce(v: RoomVersion, s0: StateMap, events: seq<Event>, n: nat)
    requires CREATE in s0 && POWER in s0 && Run(v, s0, events) && n <= |events|
    ensures CREATE in StateAt(s0, events, n) && POWER in StateAt(s0, events, n)
  {
    CreateStays(v, s0, events, n);
    if n > 0 {
      LevelsStayInForce(v, s0, events, n - 1);
    }
  }

  /**
   * The highest level at the start is kept throughout a run exactly when it is not negative, or no
   * power_levels event of the run leaves the default out.
   */
  lemma {:induction false} CeilingKeptExactly(v: RoomVersion, s0: StateMap, events: seq<Event>, c: int, n: nat)
    requires !v.creatorPower && CREATE in s0 && POWER in s0 && Ceiling(v, s0, c)
    requires Run(v, s0, events) && n <= |events|
    ensures (forall m: nat :: m <= n ==> Ceiling(v, StateAt(s0, events, m), c)) <==>
            c >= 0 || forall m: nat :: m < n ==> !DropsDefault(events[m])
  {
    hide Ceiling, DropsDefault, Admits;
    if n > 0 {
      CeilingKeptExactly(v, s0, events, c, n - 1);
      var s, e := StateAt(s0, events, n - 1), events[n - 1];
      LevelsStayInForce(v, s0, events, n - 1);
      LevelsStayInForce(v, s0, events, n);
      if Ceiling(v, s, c) {
        assert AdmittedAt(v, s0, events, n - 1);
        CeilingIsCapped(v, s, c);
        StepStaysCapped(v, s, e, c);
        CeilingIsCapped(v, Apply(s, e), c);
        assert Ceiling(v, StateAt(s0, events, n), c) <==> c >= 0 || !DropsDefault(e);
      }
    }
  }

  /** Zero is needed: dropping a negative default lifts everyone it covered. */
  lemma NegativeDefaultCanBeDropped(v: RoomVersion)
    requires !v.creatorPower
    ensures exists s: StateMap, e: Event ::
              CREATE in s && POWER in s && Admits(v, s, e) && Ceiling(v, s, -1) && !Ceiling(v, Apply(s, e), -1)
  {
    ServersOfSamples();
    var low := NO_LEVELS.(named := map[UsersDefault := Int(-1), StateDefault := Int(-1)]);
    var lower := NO_LEVELS.(named := map[StateDefault := Int(-1)]);
    var s := Founded(ALICE)[POWER := StateEvent(PowerLevels, "", ALICE, BLANK.(levels := low))];
    var e := StateEvent(PowerLevels, "", ALICE, BLANK.(levels := lower));
    hide DomainOf;
    assert UserLevel(v, s, ALICE) == Some(-1) && Federates(s, ALICE) && Joined(s, ALICE);
    hide Federates, UserLevel;
    assert CanSend(v, e, s) && PowerLevelsAllowed(v, e, s);
    CeilingIsCapped(v, s, -1);
    StepStaysCapped(v, s, e, -1);
    CeilingIsCapped(v, Apply(s, e), -1);
  }

  // ----- keeping the top level -----

  function ExplicitLevel(s: StateMap, user: string): Option<int> {
    if POWER in s && user in s[POWER].content.levels.users then ToInt(s[POWER].content.levels.users[user]) else None
  }

  predicate SetsLevels(e: Event, sender: string) {
    e.kind.PowerLevels? && e.stateKey == Some("") && e.sender == sender
  }

  lemma TopLevelStep(v: RoomVersion, s: StateMap, e: Event, c: int, user: string)
    requires !v.creatorPower && CREATE in s && POWER in s && Capped(s[POWER].content.levels, c)
    requires Admits(v, s, e) && ExplicitLevel(s, user) == Some(c) && !SetsLevels(e, user)
    ensures ExplicitLevel(Apply(s, e), user) == Some(c)
  {
    if e.kind.PowerLevels? && e.stateKey == Some("") {
      var was, now := s[POWER].content.levels, e.content.levels;
      CeilingIsCapped(v, s, c);
      var mine := UserLevel(v, s, e.sender).value;
      assert mine <= c;
      assert Checked(v, was, now, OfUser(user));
      assert ChangeAllowed(e.sender, mine, was, now, OfUser(user));
    }
  }

  /** A user listed at a non-negative ceiling keeps that level until they send a power_levels event themselves. */
  lemma {:induction false} TopLevelKept(v: RoomVersion, s0: StateMap, events: seq<Event>, c: int, user: string, n: nat)
    requires !v.creatorPower && CREATE in s0 && POWER in s0 && Ceiling(v, s0, c) && c >= 0
    requires Run(v, s0, events) && n <= |events| && ExplicitLevel(s0, user) == Some(c)
    ensures ExplicitLevel(StateAt(s0, events, n), user) == Some(c) || exists m: nat :: m < n && SetsLevels(events[m], user)
  {
    if n > 0 {
      TopLevelKept(v, s0, events, c, user, n - 1);
      if ExplicitLevel(StateAt(s0, events, n - 1), user) == Some(c) && !SetsLevels(events[n - 1], user) {
        assert AdmittedAt(v, s0, events, n - 1);
        CeilingIsCapped(v, s0, c);
        RunStaysCapped(v, s0, events, c, n - 1);
        TopLevelStep(v, StateAt(s0, events, n - 1), events[n - 1], c, user);
      }
    }
  }
}
