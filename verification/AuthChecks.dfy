/** The checks of both stages as the source runs them, against the rules and against the book. */
module AuthChecks {
  import opened Common
  import opened RoomEvents
  import opened EventAuth
  import opened RuleBook

  // ----- the state-independent stage -----

  lemma FreshKeyDistinct(declared: seq<Event>, i: nat)
    requires i < |declared| && DistinctKeys(declared[..i])
    ensures DistinctKeys(declared[..i + 1]) <==>
            !exists a :: a in declared[..i] && a.stateKey == declared[i].stateKey && a.kind == declared[i].kind
  {
    var front, more := declared[..i], declared[..i + 1];
    if a :| a in front && a.stateKey == declared[i].stateKey && a.kind == declared[i].kind {
      var j :| 0 <= j < i && front[j] == a;
      assert (more[j].kind, more[j].stateKey) == (more[i].kind, more[i].stateKey);
    } else {
      forall j, k | 0 <= j < k < |more| ensures (more[j].kind, more[j].stateKey) != (more[k].kind, more[k].stateKey) {
        assert more[j] == front[j] && front[j] in front;
        assert k < i ==> more[k] == front[k];
      }
    }
  }

  /** Adding one declared event keeps the keys distinct exactly when its key is not there yet. */
  lemma KeysStayDistinct(declared: seq<Event>, i: nat)
    requires i < |declared| && declared[i].stateKey.Some? && DistinctKeys(declared[..i])
    ensures var k := StateKey(declared[i].kind, declared[i].stateKey.value);
            && (DistinctKeys(declared[..i + 1]) <==> k !in Dict(declared[..i]))
            && Dict(declared[..i + 1]).Keys == Dict(declared[..i]).Keys + {k}
  {
    hide Dict, DistinctKeys;
    DictMore(declared, i);
    DictKeys(declared[..i], StateKey(declared[i].kind, declared[i].stateKey.value));
    FreshKeyDistinct(declared, i);
  }

  lemma DistinctPrefix(declared: seq<Event>, n: nat)
    requires n <= |declared| && !DistinctKeys(declared[..n])
    ensures !DistinctKeys(declared)
  {
    var i, j :| 0 <= i < j < n && (declared[i].kind, declared[i].stateKey) == (declared[j].kind, declared[j].stateKey);
  }

  lemma NoDeclared(declared: seq<Event>)
    ensures DistinctKeys(declared[..0]) && Dict(declared[..0]) == map[]
  {}

  /** The loop over the declared auth events, as the source runs it. */
  method CheckStateIndependent(v: RoomVersion, e: Event, declared: seq<Event>) returns (ok: bool)
    ensures ok <==> Preauthorised(v, e, declared)
    ensures ok <==> FirstStage(v, e, declared)
  {
    FirstStageByTheBook(v, e, declared);
    hide AuthTypes, CreateAllowed, DistinctKeys, Dict, FirstStage;
    if e.kind.Create? {
      return CreateAllowed(v, e);
    }
    var expected := AuthTypes(v, e);
    if expected.None? {
      return false;
    }
    var authDict: map<StateKey, string> := map[];
    NoDeclared(declared);
    for i := 0 to |declared|
      invariant forall a :: a in declared[..i] ==> AuthEventOk(e, expected.value, a)
      invariant DistinctKeys(declared[..i])
      invariant authDict.Keys == Dict(declared[..i]).Keys
    {
      var a := declared[i];
      assert a in declared;
      if a.roomId != e.roomId || a.stateKey.None? {
        return false;
      }
      var k := StateKey(a.kind, a.stateKey.value);
      KeysStayDistinct(declared, i);
      if k in authDict {
        DistinctPrefix(declared, i + 1);
        return false;
      }
      if k !in expected.value || a.rejected {
        return false;
      }
      authDict := authDict[k := a.id];
    }
    assert declared[..|declared|] == declared;
    ok := CREATE in authDict;
  }

  // ----- the comparison loop of a power_levels change -----

  const NAMED_POSITIONS: seq<Position> :=
    [Named(UsersDefault), Named(EventsDefault), Named(StateDefault), Named(BanLevel),
     Named(RedactLevel), Named(KickLevel), Named(InviteLevel)]

  lemma NamedPositionsAreAll(p: Position)
    ensures p in NAMED_POSITIONS <==> p.Named?
  {
    if p.Named? {
      match p.name
      case UsersDefault => assert NAMED_POSITIONS[0] == p;
      case EventsDefault => assert NAMED_POSITIONS[1] == p;
      case StateDefault => assert NAMED_POSITIONS[2] == p;
      case BanLevel => assert NAMED_POSITIONS[3] == p;
      case RedactLevel => assert NAMED_POSITIONS[4] == p;
      case KickLevel => assert NAMED_POSITIONS[5] == p;
      case InviteLevel => assert NAMED_POSITIONS[6] == p;
    }
  }

  /** The positions of one directory: `make` of every key of either content. */
  method DirectoryPositions<K(==)>(keys: set<K>, make: K -> Position) returns (r: seq<Position>)
    ensures forall p :: p in r <==> exists k :: k in keys && make(k) == p
  {
    var listed := Listing(keys);
    r := [];
    for i := 0 to |listed|
      invariant |r| == i
      invariant forall j :: 0 <= j < i ==> r[j] == make(listed[j])
    {
      r := r + [make(listed[i])];
    }
    forall k | k in keys ensures make(k) in r {
      assert k in listed;
      var i :| 0 <= i < |listed| && listed[i] == k;
      assert r[i] == make(k);
    }
    forall p | p in r ensures exists k :: k in keys && make(k) == p {
      var i :| 0 <= i < |r| && r[i] == p;
      assert listed[i] in keys;
    }
  }

  method PositionsToCheck(v: RoomVersion, was: Levels, now: Levels) returns (r: seq<Position>)
    ensures forall p :: p in r <==> Checked(v, was, now, p)
  {
    var users := DirectoryPositions(was.users.Keys + now.users.Keys, u => OfUser(u));
    var kinds := DirectoryPositions(was.events.Keys + now.events.Keys, k => OfEvent(k));
    var keys: seq<Position> := [];
    if v.limitNotifications {
      keys := DirectoryPositions(was.notifications.Keys + now.notifications.Keys, k => OfNotification(k));
    }
    r := NAMED_POSITIONS + users + kinds + keys;
    forall p ensures p in r <==> Checked(v, was, now, p) {
      NamedPositionsAreAll(p);
    }
  }

  /** The loop over the listed users. */
  method CheckUsers(levels: Levels) returns (ok: bool)
    ensures ok <==> UsersValid(levels)
  {
    hide ParsesAsUser, ToInt;
    var users := Listing(levels.users.Keys);
    for i := 0 to |users|
      invariant forall j :: 0 <= j < i ==> ParsesAsUser(users[j]) && ToInt(levels.users[users[j]]).Some?
    {
      assert users[i] in levels.users.Keys;
      if !ParsesAsUser(users[i]) || ToInt(levels.users[users[i]]).None? {
        return false;
      }
    }
    forall u | u in levels.users ensures ParsesAsUser(u) && ToInt(levels.users[u]).Some? {
      assert u in users;
    }
    return true;
  }

  /** _check_power_levels as the source runs it: list the positions to compare, then walk the list. */
  method CheckPowerLevels(v: RoomVersion, e: Event, s: StateMap) returns (ok: bool)
    ensures ok <==> PowerLevelsAllowed(v, e, s)
    ensures ok <==> LevelsBook(v, e, s)
  {
    LevelChangesByTheBook(v, e, s);
    hide LevelsBook, UsersValid, NoCreatorListed, AllInts, UserLevel, ChangeAllowed, Checked;
    var levels := e.content.levels;
    var fit := CheckUsers(levels);
    if !fit {
      return false;
    }
    if (v.creatorPower && !NoCreatorListed(s, levels)) || (v.enforceInts && !AllInts(levels)) || e.stateKey.None? {
      return false;
    }
    var key := StateKey(e.kind, e.stateKey.value);
    if key !in s {
      return true;
    }
    var level := UserLevel(v, s, e.sender);
    if level.None? {
      return false;
    }
    var was := s[key].content.levels;
    var toCheck := PositionsToCheck(v, was, levels);
    for i := 0 to |toCheck|
      invariant forall j :: 0 <= j < i ==> ChangeAllowed(e.sender, level.value, was, levels, toCheck[j])
    {
      if !ChangeAllowed(e.sender, level.value, was, levels, toCheck[i]) {
        assert toCheck[i] in toCheck;
        assert Checked(v, was, levels, toCheck[i]);
        return false;
      }
    }
    return true;
  }

  // ----- the state-dependent stage as the source runs it -----

  /** check_state_dependent_auth_rules as the source runs it on a list of auth events. */
  method CheckStateDependent(v: RoomVersion, e: Event, events: seq<Event>) returns (ok: bool)
    ensures ok <==> e.kind.Create? || ((forall a :: a in events ==> a.stateKey.Some?) && Authorised(v, e, Dict(events)))
    ensures ok <==> e.kind.Create? || ((forall a :: a in events ==> a.stateKey.Some?) && Book(v, e, Dict(events)))
  {
    AuthorisedByTheBook(v, e, Dict(events));
    hide Book;
    if e.kind.Create? {
      return true;
    }
    var s: StateMap := map[];
    for i := 0 to |events|
      invariant s == Dict(events[..i])
      invariant forall a :: a in events[..i] ==> a.stateKey.Some?
    {
      assert events[..i + 1][..i] == events[..i];
      if events[i].stateKey.None? {
        assert events[i] in events;
        return false;
      }
      s := s[StateKey(events[i].kind, events[i].stateKey.value) := events[i]];
    }
    assert events[..|events|] == events;
    if CREATE !in s || !Federates(s, e.sender) {
      return false;
    }
    if e.kind.Aliases? && v.specialAliases {
      return e.stateKey.Some? && e.stateKey.value != "" && e.stateKey == DomainOf(e.sender);
    }
    if e.kind.Member? {
      return MembershipAllowed(v, e, s);
    }
    if !Joined(s, e.sender) {
      return false;
    }
    if e.kind.ThirdPartyInvite? {
      return AtLeast(UserLevel(v, s, e.sender), NamedLevel(s, InviteLevel, 0));
    }
    ok := CanSend(v, e, s);
    if ok && e.kind.PowerLevels? {
      ok := CheckPowerLevels(v, e, s);
    }
    if ok && e.kind.Redaction? {
      ok := RedactionAllowed(v, e, s);
    }
  }
}
