/**
 * The auth-event selection is sufficient: a verdict depends on the room state only through
 * the keys that auth_types_for_event selects. From that, the two stages compose.
 */
module AuthKeys {
  import opened Common
  import opened RoomEvents
  import opened EventAuth
  import opened SampleRooms

  /** A power_levels event changes the levels in force, not a level set under another key. */
  predicate InForceKey(e: Event) {
    e.kind.PowerLevels? && e.stateKey.Some? ==> e.stateKey.value == ""
  }

  predicate VersionConsistent(v: RoomVersion) {
    v.knockRestricted ==> v.restricted
  }

  lemma LevelsAgree(v: RoomVersion, s: StateMap, t: StateMap, user: string)
    requires Agree(s, t, {POWER, CREATE})
    ensures UserLevel(v, s, user) == UserLevel(v, t, user)
    ensures forall name, default :: NamedLevel(s, name, default) == NamedLevel(t, name, default)
    ensures forall kind, isState :: SendLevel(s, kind, isState) == SendLevel(t, kind, isState)
  {
    assert Lookup(s, POWER) == Lookup(t, POWER);
    assert Lookup(s, CREATE) == Lookup(t, CREATE);
  }

  lemma MembershipAgrees(s: StateMap, t: StateMap, keys: set<StateKey>, user: string)
    requires Agree(s, t, keys) && MemberKey(user) in keys
    ensures MembershipOf(s, user) == MembershipOf(t, user)
  {
    assert Lookup(s, MemberKey(user)) == Lookup(t, MemberKey(user));
  }

  lemma RulesAgree(s: StateMap, t: StateMap, keys: set<StateKey>)
    requires Agree(s, t, keys) && JOIN_RULES in keys
    ensures JoinRuleOf(s) == JoinRuleOf(t)
  {
    assert Lookup(s, JOIN_RULES) == Lookup(t, JOIN_RULES);
  }

  lemma JoinAgrees(v: RoomVersion, e: Event, s: StateMap, t: StateMap, keys: set<StateKey>, target: string)
    requires Agree(s, t, keys) && {POWER, CREATE, JOIN_RULES, MemberKey(e.sender), MemberKey(target)} <= keys
    requires VersionConsistent(v)
    requires v.restricted && e.content.authorisingUser.Some? ==> MemberKey(e.content.authorisingUser.value) in keys
    ensures JoinAllowed(v, e, s, target) == JoinAllowed(v, e, t, target)
  {
    RulesAgree(s, t, keys);
    MembershipAgrees(s, t, keys, e.sender);
    MembershipAgrees(s, t, keys, target);
    if v.restricted && e.content.authorisingUser.Some? {
      MembershipAgrees(s, t, keys, e.content.authorisingUser.value);
      LevelsAgree(v, s, t, e.content.authorisingUser.value);
    }
  }

  lemma MembershipRulesAgree(v: RoomVersion, e: Event, s: StateMap, t: StateMap)
    requires e.kind.Member? && AuthTypes(v, e).Some? && VersionConsistent(v)
    requires CREATE in s && CREATE in t && Agree(s, t, AuthTypes(v, e).value)
    ensures MembershipRules(v, e, s, e.stateKey.value) == MembershipRules(v, e, t, e.stateKey.value)
  {
    var target, keys := e.stateKey.value, AuthTypes(v, e).value;
    assert Lookup(s, CREATE) == Lookup(t, CREATE);
    LevelsAgree(v, s, t, e.sender);
    LevelsAgree(v, s, t, target);
    MembershipAgrees(s, t, keys, e.sender);
    MembershipAgrees(s, t, keys, target);
    match e.content.membership
    case Join => JoinAgrees(v, e, s, t, keys, target);
    case Invite =>
      if e.content.thirdParty.Signed? {
        var key := StateKey(ThirdPartyInvite, e.content.thirdParty.token.value);
        assert Lookup(s, key) == Lookup(t, key);
      }
    case Knock => RulesAgree(s, t, keys);
    case _ =>
  }

  lemma SendingAgrees(v: RoomVersion, e: Event, s: StateMap, t: StateMap)
    requires Agree(s, t, {POWER, CREATE})
    ensures CanSend(v, e, s) == CanSend(v, e, t)
    ensures RedactionAllowed(v, e, s) == RedactionAllowed(v, e, t)
    ensures e.kind.PowerLevels? && e.stateKey == Some("") ==> PowerLevelsAllowed(v, e, s) == PowerLevelsAllowed(v, e, t)
  {
    LevelsAgree(v, s, t, e.sender);
    if e.stateKey.Some? && StateKeyOwner(v, e.stateKey.value).Some? {
      LevelsAgree(v, s, t, StateKeyOwner(v, e.stateKey.value).value);
    }
    assert Lookup(s, POWER) == Lookup(t, POWER);
    assert Lookup(s, CREATE) == Lookup(t, CREATE);
  }

  /** Two states agreeing on the selected keys give every event the same verdict. */
  lemma SelectedKeysDecide(v: RoomVersion, e: Event, s: StateMap, t: StateMap)
    requires AuthTypes(v, e).Some? && VersionConsistent(v) && InForceKey(e)
    requires Agree(s, t, AuthTypes(v, e).value)
    ensures Authorised(v, e, s) == Authorised(v, e, t)
  {
    if !e.kind.Create? {
      var keys := AuthTypes(v, e).value;
      assert Lookup(s, CREATE) == Lookup(t, CREATE);
      LevelsAgree(v, s, t, e.sender);
      MembershipAgrees(s, t, keys, e.sender);
      if e.kind.Member? {
        if CREATE in s {
          MembershipRulesAgree(v, e, s, t);
        }
      } else {
        SendingAgrees(v, e, s, t);
      }
    }
  }

  /** Auth-key sufficiency: checking against only the selected events loses nothing. */
  lemma AuthKeysSuffice(v: RoomVersion, e: Event, s: StateMap)
    requires AuthTypes(v, e).Some? && VersionConsistent(v) && InForceKey(e)
    ensures Authorised(v, e, s) == Authorised(v, e, Project(s, AuthTypes(v, e).value))
  {
    SelectedKeysDecide(v, e, s, Project(s, AuthTypes(v, e).value));
  }

  // ----- exactly when the selection is sufficient -----

  ghost predicate Sufficient(v: RoomVersion, e: Event) {
    AuthTypes(v, e).Some? ==>
      forall s: StateMap :: Authorised(v, e, s) == Authorised(v, e, Project(s, AuthTypes(v, e).value))
  }

  const VOUCHED_JOIN := StateEvent(Member, BOB, BOB, BLANK.(membership := Join, authorisingUser := Some(ALICE)))

  function KnockRestrictedRoom(): StateMap {
    Founded(ALICE)[JOIN_RULES := StateEvent(JoinRules, "", ALICE, BLANK.(joinRule := Some(KnockRestricted)))]
  }

  lemma VouchedJoinAllowed(v: RoomVersion)
    requires v.knockRestricted
    ensures Authorised(v, VOUCHED_JOIN, KnockRestrictedRoom())
  {
    ServersOfSamples();
    var s := KnockRestrictedRoom();
    FounderLevel(v, ALICE, s);
    hide DomainOf;
    assert Joined(s, ALICE);
  }

  lemma UnvouchedJoinRefused(v: RoomVersion, t: StateMap)
    requires MemberKey(ALICE) !in t && MemberKey(BOB) !in t && CREATE in t && JoinRuleOf(t) == KnockRestricted
    ensures !Authorised(v, VOUCHED_JOIN, t)
  {
    hide DomainOf, UserLevel, NamedLevel;
    assert |VOUCHED_JOIN.prevIds| == 2;
  }

  lemma VouchedJoinNeedsVoucher(v: RoomVersion)
    requires v.knockRestricted && !v.restricted
    ensures AuthTypes(v, VOUCHED_JOIN).Some?
    ensures Authorised(v, VOUCHED_JOIN, KnockRestrictedRoom())
    ensures !Authorised(v, VOUCHED_JOIN, Project(KnockRestrictedRoom(), AuthTypes(v, VOUCHED_JOIN).value))
  {
    ServersOfSamples();
    VouchedJoinAllowed(v);
    hide Authorised, DomainOf;
    UnvouchedJoinRefused(v, Project(KnockRestrictedRoom(), AuthTypes(v, VOUCHED_JOIN).value));
  }

  /**
   * Over all events that change the levels in force, the selection is sufficient exactly in
   * the versions where knock_restricted comes with restricted.
   */
  lemma SufficientExactlyForVersions(v: RoomVersion)
    ensures (forall e :: InForceKey(e) ==> Sufficient(v, e)) <==> VersionConsistent(v)
  {
    if VersionConsistent(v) {
      forall e | InForceKey(e) ensures Sufficient(v, e) {
        if AuthTypes(v, e).Some? {
          forall s: StateMap { AuthKeysSuffice(v, e, s); }
        }
      }
    } else {
      VouchedJoinNeedsVoucher(v);
      assert InForceKey(VOUCHED_JOIN) && !Sufficient(v, VOUCHED_JOIN);
    }
  }

  /** A state key beginning like a user id but naming no server, so nobody can own it. */
  predicate Unownable(key: string) {
    key != "" && key[0] == '@' && ':' !in key
  }

  lemma UnownableRefused(v: RoomVersion, e: Event, s: StateMap)
    requires e.kind.PowerLevels? && e.stateKey.Some? && Unownable(e.stateKey.value)
    ensures !Authorised(v, e, s)
  {
    var key := e.stateKey.value;
    assert DomainOf(key).None? && Find(key, ':', 1).None?;
  }

  const FIFTY := NO_LEVELS.(named := map[UsersDefault := Int(50)])
  const BAN_51 := NO_LEVELS.(named := map[BanLevel := Int(51)])

  function ClearLevels(owner: string, key: string): Event { StateEvent(PowerLevels, key, owner, BLANK) }

  /** A room that `creator` founded, where `owner` has joined and everyone is at 50. */
  function LevelRoom(creator: string, owner: string): StateMap {
    map[CREATE := StateEvent(Create, "", creator, BLANK.(creator := Some(creator))),
        POWER := StateEvent(PowerLevels, "", creator, BLANK.(levels := FIFTY)),
        MemberKey(owner) := StateEvent(Member, owner, owner, BLANK.(membership := Join))]
  }

  /** The same room with a level above 50 set under `key`. */
  function ShadowRoom(creator: string, owner: string, key: string): StateMap {
    LevelRoom(creator, owner)[StateKey(PowerLevels, key) := StateEvent(PowerLevels, key, owner, BLANK.(levels := BAN_51))]
  }

  lemma OwnerAtFifty(v: RoomVersion, s: StateMap, creator: string, owner: string)
    requires creator != owner && Agree(s, LevelRoom(creator, owner), {CREATE, POWER})
    ensures CREATE in s && UserLevel(v, s, owner) == Some(50)
  {
    assert Lookup(s, CREATE) == Lookup(LevelRoom(creator, owner), CREATE);
    assert Lookup(s, POWER) == Lookup(LevelRoom(creator, owner), POWER);
  }

  lemma ClearingRefused(v: RoomVersion, creator: string, owner: string, key: string)
    requires key != "" && creator != owner
    ensures !Authorised(v, ClearLevels(owner, key), ShadowRoom(creator, owner, key))
  {
    var s, e := ShadowRoom(creator, owner, key), ClearLevels(owner, key);
    OwnerAtFifty(v, s, creator, owner);
    hide UserLevel, Federates, CanSend;
    assert Checked(v, BAN_51, NO_LEVELS, Named(BanLevel));
    assert !ChangeAllowed(owner, 50, BAN_51, NO_LEVELS, Named(BanLevel));
    assert !PowerLevelsAllowed(v, e, s);
  }

  lemma ClearingAllowed(v: RoomVersion, creator: string, owner: string, key: string)
    requires key != "" && creator != owner && DomainOf(creator).Some? && DomainOf(owner).Some? && (key[0] == '@' ==> key == owner)
    ensures Authorised(v, ClearLevels(owner, key), LevelRoom(creator, owner))
  {
    var s, e := LevelRoom(creator, owner), ClearLevels(owner, key);
    OwnerAtFifty(v, s, creator, owner);
    hide UserLevel, DomainOf;
    assert Joined(s, owner) && Federates(s, owner) && CanSend(v, e, s);
    hide Federates, CanSend;
    assert UsersValid(NO_LEVELS) && AllInts(NO_LEVELS) && NoCreatorListed(s, NO_LEVELS);
    assert StateKey(PowerLevels, key) !in s;
  }

  lemma ShadowProjects(v: RoomVersion, creator: string, owner: string, key: string)
    requires key != ""
    ensures AuthTypes(v, ClearLevels(owner, key)).Some?
    ensures Project(ShadowRoom(creator, owner, key), AuthTypes(v, ClearLevels(owner, key)).value) == LevelRoom(creator, owner)
  {}

  lemma ClearingMissed(v: RoomVersion, creator: string, owner: string, key: string)
    requires key != "" && creator != owner && DomainOf(creator).Some? && DomainOf(owner).Some? && (key[0] == '@' ==> key == owner)
    ensures !Sufficient(v, ClearLevels(owner, key))
  {
    ShadowProjects(v, creator, owner, key);
    ClearingRefused(v, creator, owner, key);
    ClearingAllowed(v, creator, owner, key);
    hide Authorised, AuthTypes, LevelRoom, ShadowRoom, Project;
  }

  /** Under any other key there is a room with ordinary levels whose verdict the selected events miss. */
  lemma ShadowLevelsMissed(v: RoomVersion, key: string)
    requires key != "" && !Unownable(key)
    ensures exists e: Event :: e.kind.PowerLevels? && e.stateKey == Some(key) && !Sufficient(v, e)
  {
    hide Find, Sufficient;
    ServersOfSamples();
    var owner := if key[0] == '@' then key else ALICE;
    var creator := if owner == ALICE then BOB else ALICE;
    ClearingMissed(v, creator, owner, key);
    assert ClearLevels(owner, key).kind.PowerLevels? && ClearLevels(owner, key).stateKey == Some(key);
  }

  /** For events that change the levels in force the selection suffices in every version. */
  lemma LevelChangesSuffice(v: RoomVersion, e: Event, s: StateMap)
    requires e.kind.PowerLevels? && e.stateKey == Some("")
    ensures AuthTypes(v, e).Some? && Authorised(v, e, s) == Authorised(v, e, Project(s, AuthTypes(v, e).value))
  {
    var t := Project(s, AuthTypes(v, e).value);
    assert Lookup(s, CREATE) == Lookup(t, CREATE);
    LevelsAgree(v, s, t, e.sender);
    MembershipAgrees(s, t, AuthTypes(v, e).value, e.sender);
    SendingAgrees(v, e, s, t);
    hide UserLevel, CanSend, PowerLevelsAllowed, RedactionAllowed, MembershipAllowed;
  }

  /**
   * For power_levels events under a key, the selection is sufficient exactly when the key is
   * the one in force, or one that no sender can use.
   */
  lemma SufficientExactlyForKeys(v: RoomVersion, key: string)
    ensures (forall e: Event :: e.kind.PowerLevels? && e.stateKey == Some(key) ==> Sufficient(v, e))
            <==> (key == "" || Unownable(key))
  {
    if key == "" {
      forall e: Event | e.kind.PowerLevels? && e.stateKey == Some(key) ensures Sufficient(v, e) {
        forall s: StateMap ensures Authorised(v, e, s) == Authorised(v, e, Project(s, AuthTypes(v, e).value)) {
          LevelChangesSuffice(v, e, s);
        }
      }
    } else if Unownable(key) {
      forall e: Event | e.kind.PowerLevels? && e.stateKey == Some(key) ensures Sufficient(v, e) {
        forall s: StateMap { UnownableRefused(v, e, s); }
      }
    } else {
      ShadowLevelsMissed(v, key);
    }
  }

  // ----- the two stages together -----

  lemma {:induction false} DictHolds(events: seq<Event>, i: nat)
    requires i < |events| && DistinctKeys(events) && events[i].stateKey.Some?
    ensures Lookup(Dict(events), StateKey(events[i].kind, events[i].stateKey.value)) == Some(events[i])
  {
    var last := |events| - 1;
    if i < last {
      var front := events[..last];
      assert DistinctKeys(front);
      DictHolds(front, i);
      assert (events[i].kind, events[i].stateKey) != (events[last].kind, events[last].stateKey);
    }
  }

  /** With one event per key, the state map does not depend on the order of the events. */
  lemma DictIgnoresOrder(events: seq<Event>, others: seq<Event>)
    requires DistinctKeys(events) && DistinctKeys(others)
    requires forall a :: a in events <==> a in others
    ensures Dict(events) == Dict(others)
  {
    forall k ensures Lookup(Dict(events), k) == Lookup(Dict(others), k) {
      DictKeys(events, k);
      DictKeys(others, k);
      if k in Dict(events) {
        var a :| a in events && a.stateKey == Some(k.key) && a.kind == k.kind;
        var i :| 0 <= i < |events| && events[i] == a;
        DictHolds(events, i);
        assert a in others;
        var j :| 0 <= j < |others| && others[j] == a;
        DictHolds(others, j);
        assert Lookup(Dict(events), k) == Some(a);
        assert Lookup(Dict(others), k) == Some(a);
      }
    }
    assert forall k :: k in Dict(events) ==> Lookup(Dict(events), k) == Some(Dict(events)[k]);
    assert forall k :: k in Dict(others) ==> Lookup(Dict(others), k) == Some(Dict(others)[k]);
  }

  lemma TwiceIn(events: seq<Event>, i: nat, j: nat)
    requires i < j < |events| && events[i] == events[j]
    ensures multiset(events)[events[i]] >= 2
  {
    assert events == events[..j] + [events[j]] + events[j + 1..];
    assert events[i] in events[..j];
    assert multiset(events) == multiset(events[..j]) + multiset{events[j]} + multiset(events[j + 1..]);
  }

  lemma {:induction false} OnceIn(events: seq<Event>, a: Event)
    requires DistinctKeys(events)
    ensures multiset(events)[a] <= 1
  {
    if events != [] {
      var last := |events| - 1;
      var front := events[..last];
      assert events == front + [events[last]];
      assert DistinctKeys(front);
      OnceIn(front, a);
      if a == events[last] {
        assert forall i :: 0 <= i < last ==> (events[i].kind, events[i].stateKey) != (a.kind, a.stateKey);
        assert a !in front;
      }
    }
  }

  lemma PermutedKeysDistinct(events: seq<Event>, others: seq<Event>)
    requires DistinctKeys(events) && multiset(events) == multiset(others)
    ensures DistinctKeys(others)
    ensures forall a :: a in events <==> a in others
  {
    forall a ensures a in events <==> a in others {
      assert a in multiset(events) <==> a in multiset(others);
    }
    forall i, j | 0 <= i < j < |others|
      ensures (others[i].kind, others[i].stateKey) != (others[j].kind, others[j].stateKey)
    {
      assert others[i] in events && others[j] in events;
      if others[i] == others[j] {
        TwiceIn(others, i, j);
        OnceIn(events, others[i]);
        assert false;
      }
    }
  }

  /**
   * Two-stage composition: once an event passes the state-independent stage, its verdict on its
   * own declared auth events, listed in any order, is its verdict on every room state that holds
   * exactly those events under the selected keys.
   */
  lemma StagesCompose(v: RoomVersion, e: Event, declared: seq<Event>, listed: seq<Event>, s: StateMap)
    requires VersionConsistent(v) && InForceKey(e) && !e.kind.Create?
    requires Preauthorised(v, e, declared) && multiset(listed) == multiset(declared)
    requires Agree(s, Dict(declared), AuthTypes(v, e).value)
    ensures Dict(listed).Keys <= AuthTypes(v, e).value
    ensures Authorised(v, e, Dict(listed)) == Authorised(v, e, s)
  {
    PermutedKeysDistinct(declared, listed);
    DictIgnoresOrder(declared, listed);
    forall k | k in Dict(listed) ensures k in AuthTypes(v, e).value {
      DictKeys(listed, k);
    }
    SelectedKeysDecide(v, e, s, Dict(declared));
  }
}
