/**
 * The event authorisation rules. Every check is a predicate: true is "allowed", false is
 * any raised error, including errors raised by reading malformed content.
 */
module EventAuth {
  import opened Common
  import opened RoomEvents

  /** One more than the largest integer of canonical JSON: 2^53. */
  const CREATOR_POWER_LEVEL: int := 0x20_0000_0000_0000

  // ----- power levels -----

  /** Python's `int()` on a level value; None where it raises. */
  function ToInt(level: Level): Option<int> {
    match level
    case Int(n) => Some(n)
    case Text(n) => Some(n)
    case Null => None
    case Junk => None
  }

  predicate Readable(level: Option<Level>) {
    level.Some? ==> ToInt(level.value).Some?
  }

  function Creator(v: RoomVersion, create: Event): Option<string> {
    if v.implicitCreator then Some(create.sender) else create.content.creator
  }

  predicate IsCreator(v: RoomVersion, create: Event, user: string) {
    create.sender == user || (v.creatorPower && user in create.content.additionalCreators)
  }

  function DefaultLevel(levels: Levels): Option<int> {
    match Lookup(levels.named, UsersDefault)
    case None => Some(0)
    case Some(level) => if level.Null? then Some(0) else ToInt(level)
  }

  function ListedLevel(levels: Levels, user: string): Option<int> {
    if user in levels.users && !levels.users[user].Null? then ToInt(levels.users[user])
    else DefaultLevel(levels)
  }

  /** get_user_power_level; None where it raises. */
  function UserLevel(v: RoomVersion, s: StateMap, user: string): Option<int> {
    if CREATE !in s then None
    else if v.creatorPower && IsCreator(v, s[CREATE], user) then Some(CREATOR_POWER_LEVEL)
    else if POWER in s then ListedLevel(s[POWER].content.levels, user)
    else
      match Creator(v, s[CREATE])
      case None => None
      case Some(creator) => Some(if creator == user then 100 else 0)
  }

  /** get_named_level; None where it raises. */
  function NamedLevel(s: StateMap, name: LevelName, default: int): Option<int> {
    if POWER !in s then Some(default)
    else
      match Lookup(s[POWER].content.levels.named, name)
      case None => Some(default)
      case Some(level) => if level.Null? then Some(default) else ToInt(level)
  }

  /** get_send_level; None where it raises. */
  function SendLevel(s: StateMap, kind: EventType, isState: bool): Option<int> {
    if POWER !in s then Some(if isState then 50 else 0)
    else
      var levels := s[POWER].content.levels;
      if kind in levels.events && !levels.events[kind].Null? then ToInt(levels.events[kind])
      else
        match Lookup(levels.named, if isState then StateDefault else EventsDefault)
        case None => Some(if isState then 50 else 0)
        case Some(level) => ToInt(level)
  }

  /** The user named by `user` is defined to have at least the level named by `needed`. */
  predicate AtLeast(user: Option<int>, needed: Option<int>) {
    user.Some? && needed.Some? && user.value >= needed.value
  }

  // ----- membership -----

  function MembershipOf(s: StateMap, user: string): Option<Membership> {
    if MemberKey(user) in s then Some(s[MemberKey(user)].content.membership) else None
  }

  predicate Joined(s: StateMap, user: string) { MembershipOf(s, user) == Some(Join) }

  predicate Banned(s: StateMap, user: string) { MembershipOf(s, user) == Some(Ban) }

  predicate Invited(s: StateMap, user: string) { MembershipOf(s, user) == Some(Invite) }

  function JoinRuleOf(s: StateMap): JoinRule {
    if JOIN_RULES in s && s[JOIN_RULES].content.joinRule.Some? then s[JOIN_RULES].content.joinRule.value
    else InviteOnly
  }

  /** The sender's or target's server may take part: same server as the creator, or a federated room. */
  predicate Federates(s: StateMap, user: string)
    requires CREATE in s
  {
    var home := DomainOf(s[CREATE].sender);
    home.Some? && DomainOf(user).Some? && (home == DomainOf(user) || s[CREATE].content.federate)
  }

  /** A join that names the create event as its only predecessor. */
  predicate JoinsOnCreate(e: Event, s: StateMap) {
    |e.prevIds| == 1 && e.content.membership == Join && CREATE in s && e.prevIds[0] == s[CREATE].id
  }

  /** The creator's join directly on the create event, let through before all other checks. */
  predicate CreatorJoins(v: RoomVersion, e: Event, s: StateMap) {
    JoinsOnCreate(e, s) && e.stateKey.Some? && Creator(v, s[CREATE]) == e.stateKey
  }

  /** _verify_third_party_invite, with signature checks read off the signed block. */
  predicate ThirdPartyOk(e: Event, s: StateMap) {
    var block := e.content.thirdParty;
    block.Signed? && block.mxid.Some? && block.token.Some? && block.hasSignatures &&
    var key := StateKey(ThirdPartyInvite, block.token.value);
    key in s && s[key].sender == e.sender && block.mxid == e.stateKey &&
    exists k :: k in s[key].content.publicKeys && k in block.verifiedBy
  }

  /** The join rule lets strangers in when a member of the room vouches for them. */
  predicate RestrictedJoins(v: RoomVersion, rule: JoinRule) {
    (v.restricted && rule == Restricted) || (v.knockRestricted && rule == KnockRestricted)
  }

  predicate JoinAllowed(v: RoomVersion, e: Event, s: StateMap, target: string) {
    var rule := JoinRuleOf(s);
    var insider := Joined(s, e.sender) || Invited(s, e.sender);
    && e.sender == target
    && !Banned(s, target)
    && if rule == Public then true
       else if RestrictedJoins(v, rule) then
         insider ||
         (&& e.content.authorisingUser.Some?
          && Joined(s, e.content.authorisingUser.value)
          && AtLeast(UserLevel(v, s, e.content.authorisingUser.value), NamedLevel(s, InviteLevel, 0)))
       else if rule == InviteOnly || (v.knock && rule == KnockRule) then insider
       else false
  }

  predicate LeaveAllowed(v: RoomVersion, e: Event, s: StateMap, target: string) {
    var mine := UserLevel(v, s, e.sender);
    var theirs := UserLevel(v, s, target);
    && (Banned(s, target) ==> AtLeast(mine, NamedLevel(s, BanLevel, 50)))
    && (target != e.sender ==>
          && AtLeast(mine, NamedLevel(s, KickLevel, 50))
          && theirs.Some? && mine.value > theirs.value)
  }

  predicate BanAllowed(v: RoomVersion, e: Event, s: StateMap, target: string) {
    var mine := UserLevel(v, s, e.sender);
    var theirs := UserLevel(v, s, target);
    AtLeast(mine, NamedLevel(s, BanLevel, 50)) && theirs.Some? && mine.value > theirs.value
  }

  predicate KnockAllowed(v: RoomVersion, e: Event, s: StateMap, target: string) {
    var rule := JoinRuleOf(s);
    && (rule == KnockRule || (v.knockRestricted && rule == KnockRestricted))
    && target == e.sender
    && !Joined(s, target)
    && !Invited(s, e.sender)
    && !Banned(s, target)
  }

  /** An invited or knocking user declining or withdrawing. */
  predicate Withdraws(v: RoomVersion, e: Event, s: StateMap, target: string) {
    && e.content.membership == Leave
    && target == e.sender
    && (Invited(s, e.sender) || (v.knock && MembershipOf(s, e.sender) == Some(Knock)))
  }

  /** The membership rules after the creator's bypass. */
  predicate MembershipRules(v: RoomVersion, e: Event, s: StateMap, target: string)
    requires CREATE in s
  {
    var membership := e.content.membership;
    && Federates(s, target)
    && MembershipOf(s, e.sender) != Some(Absent)
    && MembershipOf(s, target) != Some(Absent)
    && UserLevel(v, s, e.sender).Some?
    && UserLevel(v, s, target).Some?
    && NamedLevel(s, InviteLevel, 0).Some?
    && NamedLevel(s, BanLevel, 50).Some?
    && if membership == Invite && !e.content.thirdParty.NoThirdParty? then
         ThirdPartyOk(e, s) && !Banned(s, target)
       else if Withdraws(v, e, s, target) then true
       else
         && (membership != Join && membership != Knock ==> Joined(s, e.sender))
         && match membership
            case Invite =>
              && !Banned(s, target)
              && !Joined(s, target)
              && AtLeast(UserLevel(v, s, e.sender), NamedLevel(s, InviteLevel, 0))
            case Join => JoinAllowed(v, e, s, target)
            case Leave => LeaveAllowed(v, e, s, target)
            case Ban => BanAllowed(v, e, s, target)
            case Knock => v.knock && KnockAllowed(v, e, s, target)
            case _ => false
  }

  /** _is_membership_change_allowed. */
  predicate MembershipAllowed(v: RoomVersion, e: Event, s: StateMap)
    requires CREATE in s
  {
    && e.content.membership != Absent
    && e.stateKey.Some?
    && (JoinsOnCreate(e, s) ==> Creator(v, s[CREATE]).Some?)
    && (CreatorJoins(v, e, s) || MembershipRules(v, e, s, e.stateKey.value))
  }

  // ----- sending -----

  /** The user owning a state key of the form user id, or user id then underscore and suffix. */
  function StateKeyOwner(v: RoomVersion, key: string): Option<string> {
    match Find(key, ':', 1)
    case None => None
    case Some(colon) =>
      var owner := match Find(key, '_', colon + 1) case None => key case Some(i) => key[..i];
      if ParsesAsUser(owner) && DomainOf(owner).Some? && v.validServer(DomainOf(owner).value) then Some(owner)
      else None
  }

  /** _can_send_event. */
  predicate CanSend(v: RoomVersion, e: Event, s: StateMap) {
    var mine := UserLevel(v, s, e.sender);
    && AtLeast(mine, SendLevel(s, e.kind, e.stateKey.Some?))
    && (e.stateKey.Some? && |e.stateKey.value| > 0 && e.stateKey.value[0] == '@' && e.stateKey.value != e.sender ==>
          && v.ownedState
          && var owner := StateKeyOwner(v, e.stateKey.value);
             && owner.Some?
             && (owner.value == e.sender ||
                 (UserLevel(v, s, owner.value).Some? && mine.value > UserLevel(v, s, owner.value).value)))
  }

  /** check_redaction: true unless the redaction is definitely refused. */
  predicate RedactionAllowed(v: RoomVersion, e: Event, s: StateMap) {
    var mine := UserLevel(v, s, e.sender);
    var needed := NamedLevel(s, RedactLevel, 50);
    && mine.Some? && needed.Some?
    && (mine.value >= needed.value || !v.oldEventIds ||
        (&& DomainOf(e.id).Some?
         && (e.redacts.Some? ==> DomainOf(e.redacts.value) == DomainOf(e.id))))
  }

  // ----- power_levels events -----

  /** The positions of a power_levels content that a change is checked at. */
  datatype Position = Named(name: LevelName) | OfUser(user: string) | OfEvent(kind: EventType) | OfNotification(key: string)

  function LevelAt(levels: Levels, p: Position): Option<Level> {
    match p
    case Named(name) => Lookup(levels.named, name)
    case OfUser(user) => Lookup(levels.users, user)
    case OfEvent(kind) => Lookup(levels.events, kind)
    case OfNotification(key) => Lookup(levels.notifications, key)
  }

  predicate Checked(v: RoomVersion, was: Levels, now: Levels, p: Position) {
    match p
    case Named(name) => true
    case OfUser(user) => user in was.users || user in now.users
    case OfEvent(kind) => kind in was.events || kind in now.events
    case OfNotification(key) => v.limitNotifications && (key in was.notifications || key in now.notifications)
  }

  /** One turn of the comparison loop: a sender of level `mine` may change `was` into `now` at `p`. */
  predicate ChangeAllowed(sender: string, mine: int, was: Levels, now: Levels, p: Position) {
    var before, after := LevelAt(was, p), LevelAt(now, p);
    && Readable(before) && Readable(after)
    && ((before.Some? && after.Some? && ToInt(before.value) == ToInt(after.value)) ||
        (&& (p.OfUser? && p.user != sender && before.Some? ==> ToInt(before.value) != Some(mine))
         && (before.Some? ==> ToInt(before.value).value <= mine)
         && (after.Some? ==> ToInt(after.value).value <= mine)))
  }

  predicate UsersValid(levels: Levels) {
    forall u :: u in levels.users ==> ParsesAsUser(u) && ToInt(levels.users[u]).Some?
  }

  predicate NoCreatorListed(s: StateMap, levels: Levels) {
    CREATE in s && s[CREATE].sender !in levels.users && s[CREATE].content.additionalCreators !! levels.users.Keys
  }

  predicate AllInts(levels: Levels) {
    && (forall k :: k in levels.named ==> levels.named[k].Int?)
    && (forall k :: k in levels.users ==> levels.users[k].Int?)
    && (forall k :: k in levels.events ==> levels.events[k].Int?)
    && (forall k :: k in levels.notifications ==> levels.notifications[k].Int?)
  }

  /** _check_power_levels as one condition on the old and new contents. */
  ghost predicate PowerLevelsAllowed(v: RoomVersion, e: Event, s: StateMap) {
    var levels := e.content.levels;
    && UsersValid(levels)
    && (v.creatorPower ==> NoCreatorListed(s, levels))
    && (v.enforceInts ==> AllInts(levels))
    && e.stateKey.Some?
    && var key := StateKey(e.kind, e.stateKey.value);
       key in s ==>
         && UserLevel(v, s, e.sender).Some?
         && var was := s[key].content.levels;
            forall p :: Checked(v, was, levels, p) ==>
              ChangeAllowed(e.sender, UserLevel(v, s, e.sender).value, was, levels, p)
  }

  // ----- the whole state-dependent stage -----

  /** check_state_dependent_auth_rules on the state `s`. */
  ghost predicate Authorised(v: RoomVersion, e: Event, s: StateMap) {
    e.kind.Create? ||
    (&& CREATE in s
     && Federates(s, e.sender)
     && if e.kind.Aliases? && v.specialAliases then
          e.stateKey.Some? && e.stateKey.value != "" && e.stateKey == DomainOf(e.sender)
        else if e.kind.Member? then MembershipAllowed(v, e, s)
        else
          && Joined(s, e.sender)
          && if e.kind.ThirdPartyInvite? then
               AtLeast(UserLevel(v, s, e.sender), NamedLevel(s, InviteLevel, 0))
             else
               && CanSend(v, e, s)
               && (e.kind.PowerLevels? ==> PowerLevelsAllowed(v, e, s))
               && (e.kind.Redaction? ==> RedactionAllowed(v, e, s)))
  }

  /** auth_types_for_event: the state keys that may be needed; None where selecting them raises. */
  function AuthTypes(v: RoomVersion, e: Event): Option<set<StateKey>> {
    if e.kind.Create? then Some({})
    else
      var base := {POWER, MemberKey(e.sender), CREATE};
      if !e.kind.Member? then Some(base)
      else if e.content.membership == Absent || e.stateKey.None? then None
      else
        var membership := e.content.membership;
        var withRules := base + (if membership in {Join, Invite, Knock} then {JOIN_RULES} else {});
        var withTarget := withRules + {MemberKey(e.stateKey.value)};
        var authoriser :=
          if v.restricted && membership == Join && e.content.authorisingUser.Some?
          then {MemberKey(e.content.authorisingUser.value)} else {};
        if membership == Invite && !e.content.thirdParty.NoThirdParty? then
          if e.content.thirdParty.Signed? && e.content.thirdParty.token.Some? then
            Some(withTarget + {StateKey(ThirdPartyInvite, e.content.thirdParty.token.value)})
          else None
        else Some(withTarget + authoriser)
  }

  // ----- the state-independent stage -----

  /** _check_create. */
  predicate CreateAllowed(v: RoomVersion, e: Event) {
    && e.prevIds == []
    && (if v.roomIdsAsHashes then !e.carriesRoomId
        else DomainOf(e.sender).Some? && DomainOf(e.roomId) == DomainOf(e.sender))
    && e.content.knownRoomVersion
    && (v.implicitCreator || e.content.creator.Some?)
    && (v.creatorPower ==>
          forall c :: c in e.content.additionalCreators ==>
            ParsesAsUser(c) && DomainOf(c).Some? && v.validServer(DomainOf(c).value) && |c| <= 255)
  }

  /** The state map built from a list of events, a later event replacing an earlier one of its key. */
  function Dict(events: seq<Event>): StateMap {
    if events == [] then map[] else Apply(Dict(events[..|events| - 1]), events[|events| - 1])
  }

  predicate AuthEventOk(e: Event, expected: set<StateKey>, a: Event) {
    && a.roomId == e.roomId
    && a.stateKey.Some?
    && StateKey(a.kind, a.stateKey.value) in expected
    && !a.rejected
  }

  predicate DistinctKeys(events: seq<Event>) {
    forall i, j :: 0 <= i < j < |events| ==> (events[i].kind, events[i].stateKey) != (events[j].kind, events[j].stateKey)
  }

  /**
   * check_state_independent_auth_rules as one condition on the event and its declared auth
   * events: for the right room, expected, unrejected, one per key, and including a create event.
   */
  ghost predicate Preauthorised(v: RoomVersion, e: Event, declared: seq<Event>) {
    if e.kind.Create? then CreateAllowed(v, e)
    else
      && AuthTypes(v, e).Some?
      && (forall a :: a in declared ==> AuthEventOk(e, AuthTypes(v, e).value, a))
      && DistinctKeys(declared)
      && CREATE in Dict(declared)
  }

  lemma {:induction false} DictKeys(events: seq<Event>, k: StateKey)
    ensures k in Dict(events) <==> exists a :: a in events && a.stateKey == Some(k.key) && a.kind == k.kind
  {
    if events != [] {
      DictKeys(events[..|events| - 1], k);
      assert events == events[..|events| - 1] + [events[|events| - 1]];
    }
  }

  lemma DictMore(events: seq<Event>, i: nat)
    requires i < |events| && events[i].stateKey.Some?
    ensures Dict(events[..i + 1]) == Dict(events[..i])[StateKey(events[i].kind, events[i].stateKey.value) := events[i]]
  {
    assert events[..i + 1][..i] == events[..i];
  }

  /** The dictionary holds, under each key, the last listed event of that type and state key. */
  lemma {:induction false} DictExactly(events: seq<Event>, k: StateKey, a: Event)
    ensures Lookup(Dict(events), k) == Some(a) <==>
            exists i :: 0 <= i < |events| && events[i] == a && a.kind == k.kind && a.stateKey == Some(k.key) &&
              forall j :: i < j < |events| ==> !(events[j].kind == k.kind && events[j].stateKey == Some(k.key))
  {
    if events != [] {
      var last := |events| - 1;
      var front, b := events[..last], events[last];
      DictExactly(front, k, a);
      if b.kind == k.kind && b.stateKey == Some(k.key) {
        assert Lookup(Dict(events), k) == Some(b);
      } else {
        assert Lookup(Dict(events), k) == Lookup(Dict(front), k);
        assert forall j :: 0 <= j < last ==> front[j] == events[j];
      }
    }
  }
}
