/**
 * The state-dependent rules by the book: the "Authorization rules" section of the Matrix
 * specification for room version 9 (with knock_restricted of version 10 and creator power of
 * version 12), in its order and terms and read straight off the content of the events, set against
 * the source's own sequence of checks.
 */
module RuleBook {
  import opened Common
  import opened RoomEvents
  import opened EventAuth
  import opened RoomRuns

  // ----- what the content says -----

  /** The integer a level value stands for, `blank` where there is no value or a null. */
  function Number(level: Option<Level>, blank: int): Option<int> {
    match level
    case None => Some(blank)
    case Some(Null) => Some(blank)
    case Some(Int(n)) => Some(n)
    case Some(Text(n)) => Some(n)
    case Some(Junk) => None
  }

  /** A user's level: 2^53 for creators with power, else as listed, else as defaulted, else 100 for the creator. */
  function LevelOf(v: RoomVersion, s: StateMap, user: string): Option<int> {
    match (Lookup(s, CREATE), Lookup(s, POWER))
    case (None, _) => None
    case (Some(create), power) =>
      if v.creatorPower && (user == create.sender || user in create.content.additionalCreators) then Some(9007199254740992)
      else
        match power
        case Some(p) =>
          var listed := Lookup(p.content.levels.users, user);
          if listed in {None, Some(Null)} then Number(Lookup(p.content.levels.named, UsersDefault), 0) else Number(listed, 0)
        case None =>
          if v.implicitCreator then Some(if user == create.sender then 100 else 0)
          else if create.content.creator.None? then None
          else Some(if Some(user) == create.content.creator then 100 else 0)
  }

  /** The level that the content asks for under a name, `blank` where it names none. */
  function Needed(s: StateMap, name: LevelName, blank: int): Option<int> {
    match Lookup(s, POWER)
    case None => Some(blank)
    case Some(p) => Number(Lookup(p.content.levels.named, name), blank)
  }

  /** The level for sending an event: that of its type, else the default for its sort, else `blank`. */
  function NeededToSend(s: StateMap, kind: EventType, default: LevelName, blank: int): Option<int> {
    match Lookup(s, POWER)
    case None => Some(blank)
    case Some(p) =>
      var own: Option<Level> := Lookup(p.content.levels.events, kind);
      var others: Option<Level> := Lookup(p.content.levels.named, default);
      if own !in {None, Some(Null)} then Number(own, blank) else if others == Some(Null) then None else Number(others, blank)
  }

  predicate Has(v: RoomVersion, s: StateMap, user: string, needed: Option<int>) {
    needed.Some? && LevelOf(v, s, user).Some? && needed.value <= LevelOf(v, s, user).value
  }

  predicate Outranks(v: RoomVersion, s: StateMap, user: string, other: string) {
    LevelOf(v, s, user).Some? && LevelOf(v, s, other).Some? && LevelOf(v, s, other).value < LevelOf(v, s, user).value
  }

  function RuleInForce(s: StateMap): JoinRule {
    match Lookup(s, JOIN_RULES)
    case None => InviteOnly
    case Some(rules) => match rules.content.joinRule case None => InviteOnly case Some(rule) => rule
  }

  function Current(s: StateMap, user: string): Option<Membership> {
    match Lookup(s, StateKey(Member, user)) case None => None case Some(m) => Some(m.content.membership)
  }

  /** The user's server may take part: it is the one the room was created on, or the room is federated. */
  predicate TakesPart(s: StateMap, user: string)
    requires CREATE in s
  {
    var home, theirs := DomainOf(s[CREATE].sender), DomainOf(user);
    home.Some? && theirs.Some? && (s[CREATE].content.federate || theirs.value == home.value)
  }

  // ----- membership -----

  /** The join rules of this version under which members and invited users may join. */
  predicate InsidersMayJoin(v: RoomVersion, rule: JoinRule) {
    match rule
    case Public => true
    case InviteOnly => true
    case KnockRule => v.knock
    case Restricted => v.restricted
    case KnockRestricted => v.knockRestricted
    case _ => false
  }

  /** A member of the room with the power to invite vouches for the joining user. */
  predicate VouchedFor(v: RoomVersion, e: Event, s: StateMap) {
    match e.content.authorisingUser
    case None => false
    case Some(voucher) => Current(s, voucher) == Some(Join) && Has(v, s, voucher, Needed(s, InviteLevel, 0))
  }

  /** Whether the join rule lets in somebody whose membership is `current`. */
  predicate DoorOpen(v: RoomVersion, e: Event, s: StateMap, current: Option<Membership>) {
    match current
    case Some(Ban) => false
    case Some(Join) => InsidersMayJoin(v, RuleInForce(s))
    case Some(Invite) => InsidersMayJoin(v, RuleInForce(s))
    case _ =>
      match RuleInForce(s)
      case Public => true
      case Restricted => v.restricted && VouchedFor(v, e, s)
      case KnockRestricted => v.knockRestricted && VouchedFor(v, e, s)
      case _ => false
  }

  /** The invite was signed for its target under a key of the third-party invite its token names, of the same sender. */
  predicate SignedInvite(e: Event, s: StateMap) {
    match e.content.thirdParty
    case Signed(mxid, Some(token), signed, verifiedBy) =>
      && signed && mxid.Some? && mxid == e.stateKey
      && StateKey(ThirdPartyInvite, token) in s
      && var word := s[StateKey(ThirdPartyInvite, token)];
         word.sender == e.sender && !(word.content.publicKeys !! verifiedBy)
    case _ => false
  }

  /** What the specification asks of a change of the target's membership, by the membership asked for. */
  predicate MembershipBook(v: RoomVersion, e: Event, s: StateMap, target: string) {
    var current, inside := Current(s, target), Current(s, e.sender) == Some(Join);
    match e.content.membership
    case Join => e.sender == target && DoorOpen(v, e, s, current)
    case Invite =>
      if e.content.thirdParty != NoThirdParty then current != Some(Ban) && SignedInvite(e, s)
      else inside && current !in {Some(Join), Some(Ban)} && Has(v, s, e.sender, Needed(s, InviteLevel, 0))
    case Leave =>
      if e.sender == target then current in {Some(Join), Some(Invite)} || (v.knock && current == Some(Knock))
      else
        && inside && Outranks(v, s, e.sender, target) && Has(v, s, e.sender, Needed(s, KickLevel, 50))
        && (current == Some(Ban) ==> Has(v, s, e.sender, Needed(s, BanLevel, 50)))
    case Ban => inside && Outranks(v, s, e.sender, target) && Has(v, s, e.sender, Needed(s, BanLevel, 50))
    case Knock =>
      && v.knock && e.sender == target
      && (RuleInForce(s) == KnockRule || (v.knockRestricted && RuleInForce(s) == KnockRestricted))
      && current !in {Some(Join), Some(Invite), Some(Ban)}
    case _ => false
  }

  /** What the source reads before any rule, and refuses the event when it cannot. */
  predicate Legible(v: RoomVersion, e: Event, s: StateMap, target: string) {
    && Current(s, e.sender) != Some(Absent) && Current(s, target) != Some(Absent)
    && LevelOf(v, s, e.sender).Some? && LevelOf(v, s, target).Some?
    && Needed(s, InviteLevel, 0).Some? && Needed(s, BanLevel, 50).Some?
  }

  /** The one join exempt from all other rules: the creator's, with the create event as its only predecessor. */
  predicate FirstJoin(v: RoomVersion, e: Event, s: StateMap)
    requires CREATE in s
  {
    && e.content.membership == Join && e.prevIds == [s[CREATE].id] && e.stateKey.Some?
    && (if v.implicitCreator then e.stateKey == Some(s[CREATE].sender) else e.stateKey == s[CREATE].content.creator)
  }

  // ----- other events -----

  /** The first colon after the sigil, and after it a valid server name without an underscore. */
  predicate ServerAfter(v: RoomVersion, owner: string, colon: int) {
    && 1 <= colon < |owner| && owner[colon] == ':' && ':' !in owner[1..colon]
    && '_' !in owner[colon + 1..] && v.validServer(owner[colon + 1..])
  }

  /** `owner` is the user id that `key` is, or begins with up to an underscore after its server's name. */
  ghost predicate OwnsKey(v: RoomVersion, owner: string, key: string) {
    && owner <= key && owner != "" && owner[0] == '@'
    && (owner == key || key[|owner|] == '_')
    && exists colon :: ServerAfter(v, owner, colon)
  }

  /** A state key like a user id is for that user, or where the version says so for its owner and those above them. */
  ghost predicate MayUseKey(v: RoomVersion, e: Event, s: StateMap) {
    match e.stateKey
    case None => true
    case Some(key) =>
      |key| > 0 && key[0] == '@' && key != e.sender ==>
        v.ownedState && exists owner :: OwnsKey(v, owner, key) && (owner == e.sender || Outranks(v, s, e.sender, owner))
  }

  predicate MayRedact(v: RoomVersion, e: Event, s: StateMap) {
    && LevelOf(v, s, e.sender).Some? && Needed(s, RedactLevel, 50).Some?
    && (Has(v, s, e.sender, Needed(s, RedactLevel, 50)) || !v.oldEventIds ||
        (DomainOf(e.id).Some? && (e.redacts == None || DomainOf(e.redacts.value) == DomainOf(e.id))))
  }

  /** A value a sender of level `mine` leaves alone, or changes from and to no more than their own level. */
  predicate MayChange(was: Option<Level>, now: Option<Level>, mine: int) {
    && was !in {Some(Null), Some(Junk)} && now !in {Some(Null), Some(Junk)}
    && ((was.Some? && now.Some? && was.value.n == now.value.n) ||
        ((was.Some? ==> was.value.n <= mine) && (now.Some? ==> now.value.n <= mine)))
  }

  /** Somebody else's level equal to the sender's own is left alone. */
  predicate LeavesEqual(was: Option<Level>, now: Option<Level>, mine: int) {
    was in {Some(Int(mine)), Some(Text(mine))} ==> now in {Some(Int(mine)), Some(Text(mine))}
  }

  /** A change of the levels `was` into `now` by a sender of level `mine`, value by value. */
  ghost predicate MayChangeLevels(v: RoomVersion, sender: string, mine: int, was: Levels, now: Levels) {
    && (forall k :: MayChange(Lookup(was.named, k), Lookup(now.named, k), mine))
    && (forall k :: MayChange(Lookup(was.users, k), Lookup(now.users, k), mine))
    && (forall k :: k != sender ==> LeavesEqual(Lookup(was.users, k), Lookup(now.users, k), mine))
    && (forall k :: MayChange(Lookup(was.events, k), Lookup(now.events, k), mine))
    && (v.limitNotifications ==> forall k :: MayChange(Lookup(was.notifications, k), Lookup(now.notifications, k), mine))
  }

  /** Content that a power_levels event may have: user ids with integers, no creator with power, no texts where forbidden. */
  ghost predicate FitLevels(v: RoomVersion, s: StateMap, levels: Levels) {
    && (forall u :: u in levels.users ==> |u| > 0 && u[0] == '@' && ':' in u[1..] && !levels.users[u].Null? && !levels.users[u].Junk?)
    && (v.creatorPower ==> CREATE in s && forall u :: u in levels.users ==> u != s[CREATE].sender && u !in s[CREATE].content.additionalCreators)
    && (v.enforceInts ==>
          && (forall k :: k in levels.named ==> levels.named[k].Int?)
          && (forall k :: k in levels.users ==> levels.users[k].Int?)
          && (forall k :: k in levels.events ==> levels.events[k].Int?)
          && (forall k :: k in levels.notifications ==> levels.notifications[k].Int?))
  }

  ghost predicate LevelsBook(v: RoomVersion, e: Event, s: StateMap) {
    && e.stateKey.Some? && FitLevels(v, s, e.content.levels)
    && match Lookup(s, StateKey(e.kind, e.stateKey.value))
       case None => true
       case Some(current) =>
         LevelOf(v, s, e.sender).Some? &&
         MayChangeLevels(v, e.sender, LevelOf(v, s, e.sender).value, current.content.levels, e.content.levels)
  }

  /** An event of any type but membership from a joined sender. */
  ghost predicate SendingBook(v: RoomVersion, e: Event, s: StateMap) {
    && Has(v, s, e.sender, if e.stateKey == None then NeededToSend(s, e.kind, EventsDefault, 0) else NeededToSend(s, e.kind, StateDefault, 50))
    && MayUseKey(v, e, s)
    && (e.kind == PowerLevels ==> LevelsBook(v, e, s))
    && (e.kind == Redaction ==> MayRedact(v, e, s))
  }

  /** All the state-dependent rules. */
  ghost predicate Book(v: RoomVersion, e: Event, s: StateMap) {
    if e.kind == Create then true
    else
      && CREATE in s && TakesPart(s, e.sender)
      && if e.kind == Aliases && v.specialAliases then
           e.stateKey.Some? && e.stateKey != Some("") && e.stateKey == DomainOf(e.sender)
         else if e.kind == Member then
           && e.content.membership != Absent && e.stateKey.Some?
           && (e.content.membership == Join && e.prevIds == [s[CREATE].id] ==> v.implicitCreator || s[CREATE].content.creator.Some?)
           && (FirstJoin(v, e, s) ||
               (TakesPart(s, e.stateKey.value) && Legible(v, e, s, e.stateKey.value) && MembershipBook(v, e, s, e.stateKey.value)))
         else
           && Current(s, e.sender) == Some(Join)
           && if e.kind == ThirdPartyInvite then Has(v, s, e.sender, Needed(s, InviteLevel, 0)) else SendingBook(v, e, s)
  }

  // ----- the source's readings are the book's -----

  lemma LevelsRead(v: RoomVersion, s: StateMap, user: string)
    ensures UserLevel(v, s, user) == LevelOf(v, s, user)
  {}

  lemma NamesRead(s: StateMap)
    ensures forall name, blank :: NamedLevel(s, name, blank) == Needed(s, name, blank)
  {}

  lemma SendLevelsRead(s: StateMap, kind: EventType)
    ensures SendLevel(s, kind, false) == NeededToSend(s, kind, EventsDefault, 0)
    ensures SendLevel(s, kind, true) == NeededToSend(s, kind, StateDefault, 50)
  {}

  lemma StateRead(s: StateMap, user: string)
    ensures JoinRuleOf(s) == RuleInForce(s) && MembershipOf(s, user) == Current(s, user)
    ensures CREATE in s ==> Federates(s, user) == TakesPart(s, user)
  {}

  lemma OwnerOwns(v: RoomVersion, key: string, owner: string)
    requires key != "" && key[0] == '@' && StateKeyOwner(v, key) == Some(owner)
    ensures OwnsKey(v, owner, key)
  {
    hide Find;
    var colon := Find(key, ':', 1).value;
    assert colon < |owner| && owner[colon] == ':';
    assert owner[1..colon] == key[1..colon];
    FirstOf(owner, ':', 0, colon);
    if owner != key {
      assert owner[colon + 1..] == key[colon + 1..|owner|];
    }
    assert ServerAfter(v, owner, colon);
  }

  lemma ColonRead(key: string, owner: string, colon: int)
    requires owner <= key && owner != "" && owner[0] == '@'
    requires 1 <= colon < |owner| && owner[colon] == ':' && ':' !in owner[1..colon]
    ensures Find(key, ':', 1) == Some(colon) && DomainOf(owner) == Some(owner[colon + 1..]) && ParsesAsUser(owner)
  {
    hide Find;
    assert owner[1..colon] == key[1..colon];
    FirstOf(key, ':', 1, colon);
    assert owner[0..colon] == [owner[0]] + owner[1..colon];
    FirstOf(owner, ':', 0, colon);
    assert owner[1..][colon - 1] == ':';
  }

  lemma UnderscoreRead(key: string, owner: string, after: nat)
    requires owner <= key && after <= |owner| && '_' !in owner[after..] && (owner == key || key[|owner|] == '_')
    ensures (match Find(key, '_', after) case None => key case Some(i) => key[..i]) == owner
  {
    hide Find;
    if owner == key {
      NowhereFound(key, '_', after);
    } else {
      assert owner[after..] == key[after..|owner|];
      FirstOf(key, '_', after, |owner|);
      assert key[..|owner|] == owner;
    }
  }

  lemma OwnerAt(v: RoomVersion, key: string, owner: string, colon: int)
    requires owner <= key && owner != "" && owner[0] == '@' && (owner == key || key[|owner|] == '_') && ServerAfter(v, owner, colon)
    ensures StateKeyOwner(v, key) == Some(owner)
  {
    ColonRead(key, owner, colon);
    UnderscoreRead(key, owner, colon + 1);
    hide Find, DomainOf, ParsesAsUser;
  }

  lemma OwnerIsRead(v: RoomVersion, key: string, owner: string)
    requires key != "" && key[0] == '@' && OwnsKey(v, owner, key)
    ensures StateKeyOwner(v, key) == Some(owner)
  {
    hide ServerAfter, StateKeyOwner;
    var colon :| ServerAfter(v, owner, colon);
    OwnerAt(v, key, owner, colon);
  }

  lemma KeysRead(v: RoomVersion, e: Event, s: StateMap)
    requires AtLeast(UserLevel(v, s, e.sender), SendLevel(s, e.kind, e.stateKey.Some?))
    ensures CanSend(v, e, s) <==> MayUseKey(v, e, s)
  {
    hide UserLevel, SendLevel, StateKeyOwner, OwnsKey, LevelOf;
    if e.stateKey.Some? && e.stateKey.value != "" && e.stateKey.value[0] == '@' && e.stateKey.value != e.sender {
      var key := e.stateKey.value;
      LevelsRead(v, s, e.sender);
      forall owner ensures StateKeyOwner(v, key) == Some(owner) <==> OwnsKey(v, owner, key) {
        if StateKeyOwner(v, key) == Some(owner) {
          OwnerOwns(v, key, owner);
        } else if OwnsKey(v, owner, key) {
          OwnerIsRead(v, key, owner);
        }
      }
      forall owner ensures UserLevel(v, s, owner) == LevelOf(v, s, owner) {
        LevelsRead(v, s, owner);
      }
    }
  }

  lemma RedactionsRead(v: RoomVersion, e: Event, s: StateMap)
    ensures RedactionAllowed(v, e, s) <==> MayRedact(v, e, s)
  {
    hide UserLevel, LevelOf, NamedLevel, Needed, DomainOf;
    LevelsRead(v, s, e.sender);
    NamesRead(s);
  }

  // ----- changes of the levels -----

  lemma ChangeRead(sender: string, mine: int, was: Levels, now: Levels, p: Position)
    ensures ChangeAllowed(sender, mine, was, now, p) <==>
            && MayChange(LevelAt(was, p), LevelAt(now, p), mine)
            && (p.OfUser? && p.user != sender ==> LeavesEqual(LevelAt(was, p), LevelAt(now, p), mine))
  {
    hide LevelAt;
  }

  lemma UncheckedUnchanged(mine: int)
    ensures MayChange(None, None, mine) && LeavesEqual(None, None, mine)
  {}

  lemma ChangesRead(v: RoomVersion, sender: string, mine: int, was: Levels, now: Levels)
    ensures (forall p :: Checked(v, was, now, p) ==> ChangeAllowed(sender, mine, was, now, p)) <==>
            MayChangeLevels(v, sender, mine, was, now)
  {
    hide ChangeAllowed, MayChange, LeavesEqual;
    UncheckedUnchanged(mine);
    forall p ensures ChangeAllowed(sender, mine, was, now, p) <==>
                     && MayChange(LevelAt(was, p), LevelAt(now, p), mine)
                     && (p.OfUser? && p.user != sender ==> LeavesEqual(LevelAt(was, p), LevelAt(now, p), mine))
    {
      ChangeRead(sender, mine, was, now, p);
    }
    if forall p :: Checked(v, was, now, p) ==> ChangeAllowed(sender, mine, was, now, p) {
      forall k ensures MayChange(Lookup(was.named, k), Lookup(now.named, k), mine) {
        assert Checked(v, was, now, Named(k));
      }
      forall k ensures MayChange(Lookup(was.users, k), Lookup(now.users, k), mine)
        ensures k != sender ==> LeavesEqual(Lookup(was.users, k), Lookup(now.users, k), mine)
      {
        assert Checked(v, was, now, OfUser(k)) || (k !in was.users && k !in now.users);
      }
      forall k ensures MayChange(Lookup(was.events, k), Lookup(now.events, k), mine) {
        assert Checked(v, was, now, OfEvent(k)) || (k !in was.events && k !in now.events);
      }
      if v.limitNotifications {
        forall k ensures MayChange(Lookup(was.notifications, k), Lookup(now.notifications, k), mine) {
          assert Checked(v, was, now, OfNotification(k)) || (k !in was.notifications && k !in now.notifications);
        }
      }
    }
  }

  lemma FitLevelsRead(v: RoomVersion, s: StateMap, levels: Levels)
    ensures UsersValid(levels) && (v.creatorPower ==> NoCreatorListed(s, levels)) && (v.enforceInts ==> AllInts(levels)) <==>
            FitLevels(v, s, levels)
  {}

  /** _check_power_levels comes to the book, value by value. */
  lemma LevelChangesByTheBook(v: RoomVersion, e: Event, s: StateMap)
    ensures PowerLevelsAllowed(v, e, s) <==> LevelsBook(v, e, s)
  {
    hide ChangeAllowed, UsersValid, NoCreatorListed, AllInts, UserLevel, LevelOf, Checked, FitLevels, MayChangeLevels;
    LevelsRead(v, s, e.sender);
    FitLevelsRead(v, s, e.content.levels);
    if e.stateKey.Some? && StateKey(e.kind, e.stateKey.value) in s && UserLevel(v, s, e.sender).Some? {
      ChangesRead(v, e.sender, UserLevel(v, s, e.sender).value, s[StateKey(e.kind, e.stateKey.value)].content.levels, e.content.levels);
    }
  }

  // ----- whole verdicts -----

  lemma SignaturesRead(e: Event, s: StateMap)
    ensures ThirdPartyOk(e, s) <==> SignedInvite(e, s)
  {
    if e.content.thirdParty.Signed? && e.content.thirdParty.token.Some? {
      var key := StateKey(ThirdPartyInvite, e.content.thirdParty.token.value);
      if key in s {
        var keys, verified := s[key].content.publicKeys, e.content.thirdParty.verifiedBy;
        assert (exists k :: k in keys && k in verified) <==> !(keys !! verified);
      }
    }
  }

  /** The source's early returns and branches on a membership event come to the book. */
  lemma RulesByTheBook(v: RoomVersion, e: Event, s: StateMap, target: string)
    requires CREATE in s && Legible(v, e, s, target)
    ensures MembershipRules(v, e, s, target) <==> TakesPart(s, target) && MembershipBook(v, e, s, target)
  {
    hide UserLevel, LevelOf, NamedLevel, Needed, MembershipOf, Current, Federates, TakesPart, ThirdPartyOk, SignedInvite, JoinRuleOf, RuleInForce;
    forall user ensures UserLevel(v, s, user) == LevelOf(v, s, user) && MembershipOf(s, user) == Current(s, user) {
      LevelsRead(v, s, user);
      StateRead(s, user);
    }
    StateRead(s, target);
    NamesRead(s);
    SignaturesRead(e, s);
  }

  lemma MembershipByTheBook(v: RoomVersion, e: Event, s: StateMap)
    requires e.kind.Member?
    ensures Authorised(v, e, s) <==> Book(v, e, s)
  {
    hide UserLevel, LevelOf, NamedLevel, Needed, MembershipOf, Current, Federates, TakesPart, ThirdPartyOk, SignedInvite, JoinRuleOf, RuleInForce, MembershipBook;
    if CREATE in s {
      StateRead(s, e.sender);
      if e.stateKey.Some? {
        var target := e.stateKey.value;
        StateRead(s, target);
        LevelsRead(v, s, e.sender);
        LevelsRead(v, s, target);
        NamesRead(s);
        if Legible(v, e, s, target) {
          RulesByTheBook(v, e, s, target);
        }
      }
    }
  }

  lemma SendingByTheBook(v: RoomVersion, e: Event, s: StateMap)
    ensures CanSend(v, e, s) && (e.kind.PowerLevels? ==> PowerLevelsAllowed(v, e, s)) && (e.kind.Redaction? ==> RedactionAllowed(v, e, s)) <==>
            SendingBook(v, e, s)
  {
    hide UserLevel, LevelOf, SendLevel, NeededToSend, PowerLevelsAllowed, LevelsBook, RedactionAllowed, MayRedact, MayUseKey, StateKeyOwner;
    LevelsRead(v, s, e.sender);
    SendLevelsRead(s, e.kind);
    LevelChangesByTheBook(v, e, s);
    RedactionsRead(v, e, s);
    if AtLeast(UserLevel(v, s, e.sender), SendLevel(s, e.kind, e.stateKey.Some?)) {
      KeysRead(v, e, s);
    }
  }

  /** check_state_dependent_auth_rules allows exactly what the book allows, whatever the event and the state. */
  lemma AuthorisedByTheBook(v: RoomVersion, e: Event, s: StateMap)
    ensures Authorised(v, e, s) <==> Book(v, e, s)
  {
    if e.kind.Member? {
      MembershipByTheBook(v, e, s);
    } else {
      StateRead(s, e.sender);
      LevelsRead(v, s, e.sender);
      NamesRead(s);
      SendingByTheBook(v, e, s);
      hide UserLevel, LevelOf, NamedLevel, Needed, MembershipOf, Current, Federates, TakesPart, CanSend, PowerLevelsAllowed, RedactionAllowed, SendingBook;
    }
  }

  /** A message is let in from a joined sender with the level its type, or events_default, or else zero asks for. */
  lemma MessageVerdict(v: RoomVersion, e: Event, s: StateMap, n: int)
    requires CREATE in s && POWER in s && e.kind.Other? && e.stateKey == None
    requires var levels := s[POWER].content.levels;
             if e.kind in levels.events then levels.events[e.kind] == Int(n)
             else if EventsDefault in levels.named then levels.named[EventsDefault] == Int(n) else n == 0
    ensures Authorised(v, e, s) <==>
            && TakesPart(s, e.sender) && Lookup(s, MemberKey(e.sender)).Some? && s[MemberKey(e.sender)].content.membership == Join
            && LevelOf(v, s, e.sender).Some? && n <= LevelOf(v, s, e.sender).value
  {
    AuthorisedByTheBook(v, e, s);
    hide Authorised, LevelOf, TakesPart;
  }

  /** So is a state event under a key that is no user id, with state_default and else 50. */
  lemma StateVerdict(v: RoomVersion, e: Event, s: StateMap, n: int)
    requires CREATE in s && POWER in s && e.kind.Other? && e.stateKey.Some? && (e.stateKey.value != "" ==> e.stateKey.value[0] != '@')
    requires var levels := s[POWER].content.levels;
             if e.kind in levels.events then levels.events[e.kind] == Int(n)
             else if StateDefault in levels.named then levels.named[StateDefault] == Int(n) else n == 50
    ensures Authorised(v, e, s) <==>
            && TakesPart(s, e.sender) && Lookup(s, MemberKey(e.sender)).Some? && s[MemberKey(e.sender)].content.membership == Join
            && LevelOf(v, s, e.sender).Some? && n <= LevelOf(v, s, e.sender).value
  {
    AuthorisedByTheBook(v, e, s);
    hide Authorised, LevelOf, TakesPart;
  }

  /** The number under a name, `blank` where there is none, as a plain fact about the content. */
  predicate Says(s: StateMap, name: LevelName, blank: int, n: int) {
    if POWER in s && name in s[POWER].content.levels.named then s[POWER].content.levels.named[name] == Int(n) else n == blank
  }

  /** Bans, kicks and invites need the level that stands in the content under that very name. */
  lemma NamedLevelsBind(v: RoomVersion, e: Event, s: StateMap, ban: int, kick: int, invite: int)
    requires e.kind == Member && e.stateKey.Some? && e.stateKey.value != e.sender && Authorised(v, e, s)
    requires Says(s, BanLevel, 50, ban) && Says(s, KickLevel, 50, kick) && Says(s, InviteLevel, 0, invite)
    ensures e.content.membership in {Ban, Leave} ==>
              && LevelOf(v, s, e.sender).Some? && LevelOf(v, s, e.stateKey.value).Some?
              && LevelOf(v, s, e.stateKey.value).value < LevelOf(v, s, e.sender).value
              && (e.content.membership == Ban ==> ban <= LevelOf(v, s, e.sender).value)
              && (e.content.membership == Leave ==> kick <= LevelOf(v, s, e.sender).value)
    ensures e.content.membership == Invite && e.content.thirdParty == NoThirdParty ==>
              LevelOf(v, s, e.sender).Some? && invite <= LevelOf(v, s, e.sender).value
  {
    AuthorisedByTheBook(v, e, s);
    hide Authorised, LevelOf, TakesPart;
  }

  // ----- the first stage -----

  /** The key is among those selected for the event. */
  predicate Selected(v: RoomVersion, e: Event, k: StateKey) {
    || k in {StateKey(Create, ""), StateKey(PowerLevels, ""), StateKey(Member, e.sender)}
    || (&& e.kind == Member
        && (|| Some(k) == (if e.stateKey.Some? then Some(StateKey(Member, e.stateKey.value)) else None)
            || (e.content.membership in {Invite, Join, Knock} && k == StateKey(JoinRules, ""))
            || (e.content.membership == Invite && e.content.thirdParty.Signed? && k.kind == ThirdPartyInvite && Some(k.key) == e.content.thirdParty.token)
            || (e.content.membership == Join && v.restricted && k.kind == Member && Some(k.key) == e.content.authorisingUser)))
  }

  /** What selecting reads is there: a target with a membership, and the token of a third-party invite. */
  predicate Selecting(e: Event) {
    e.kind == Member ==>
      && e.stateKey != None && e.content.membership != Absent
      && (e.content.membership == Invite && e.content.thirdParty != NoThirdParty ==>
            e.content.thirdParty.Signed? && e.content.thirdParty.token != None)
  }

  /** auth_types_for_event selects these keys and no others. */
  lemma SelectionExactly(v: RoomVersion, e: Event)
    requires e.kind != Create
    ensures AuthTypes(v, e).Some? <==> Selecting(e)
    ensures AuthTypes(v, e).Some? ==> forall k :: k in AuthTypes(v, e).value <==> Selected(v, e, k)
  {}

  /** A create event begins a room of a known version on its sender's server, with a creator and proper co-creators. */
  ghost predicate CreateBook(v: RoomVersion, e: Event) {
    && |e.prevIds| == 0 && e.content.knownRoomVersion
    && (v.roomIdsAsHashes ==> !e.carriesRoomId)
    && (!v.roomIdsAsHashes ==> exists domain :: DomainOf(e.sender) == Some(domain) && DomainOf(e.roomId) == Some(domain))
    && (e.content.creator == None ==> v.implicitCreator)
    && (v.creatorPower ==> forall c :: c in e.content.additionalCreators ==>
          0 < |c| <= 255 && c[0] == '@' && ':' in c[1..] && exists domain :: DomainOf(c) == Some(domain) && v.validServer(domain))
  }

  lemma CreateByTheBook(v: RoomVersion, e: Event)
    ensures CreateAllowed(v, e) <==> CreateBook(v, e)
  {
    hide DomainOf;
    assert forall c :: c in e.content.additionalCreators && DomainOf(c).Some? ==> DomainOf(c) == Some(DomainOf(c).value);
  }

  ghost predicate FirstStage(v: RoomVersion, e: Event, declared: seq<Event>) {
    if e.kind == Create then CreateBook(v, e)
    else
      && Selecting(e)
      && (forall a :: a in declared ==>
            a.roomId == e.roomId && !a.rejected && a.stateKey.Some? && Selected(v, e, StateKey(a.kind, a.stateKey.value)))
      && (forall i, j :: 0 <= i < j < |declared| ==> declared[i].kind != declared[j].kind || declared[i].stateKey != declared[j].stateKey)
      && exists a :: a in declared && a.kind == Create && a.stateKey == Some("")
  }

  /** check_state_independent_auth_rules allows exactly what the book allows. */
  lemma FirstStageByTheBook(v: RoomVersion, e: Event, declared: seq<Event>)
    ensures Preauthorised(v, e, declared) <==> FirstStage(v, e, declared)
  {
    if e.kind == Create {
      CreateByTheBook(v, e);
    } else {
      SelectionExactly(v, e);
      DictKeys(declared, CREATE);
    }
    hide CreateAllowed, CreateBook, AuthTypes, Selected, Selecting, Dict;
  }

  // ----- whose act a membership is -----

  /** Knocks are one's own act, joins too but for the creator's on the create event, bans never are. */
  predicate RightHand(v: RoomVersion, create: Event, m: Event, user: string) {
    && (m.content.membership == Knock ==> m.sender == user)
    && (m.content.membership == Join ==> m.sender == user || (Creator(v, create) == Some(user) && m.prevIds == [create.id]))
    && (m.content.membership == Ban ==> m.sender != user)
  }

  lemma StepByRightHand(v: RoomVersion, s: StateMap, e: Event, user: string)
    requires Admits(v, s, e) && CREATE in s && e.kind.Member? && e.stateKey == Some(user)
    ensures RightHand(v, s[CREATE], e, user)
  {}

  /** In every run each membership in the state was there at the start or came by the right hand. */
  lemma {:induction false} MembershipsByRightHand(v: RoomVersion, s0: StateMap, events: seq<Event>, user: string, n: nat)
    requires Run(v, s0, events) && CREATE in s0 && n <= |events| && MemberKey(user) in StateAt(s0, events, n)
    ensures var m := StateAt(s0, events, n)[MemberKey(user)];
            Lookup(s0, MemberKey(user)) == Some(m) || RightHand(v, s0[CREATE], m, user)
  {
    hide RightHand, Admits;
    if n > 0 {
      var e := events[n - 1];
      CreateStays(v, s0, events, n - 1);
      assert AdmittedAt(v, s0, events, n - 1);
      if e.kind.Member? && e.stateKey == Some(user) {
        StepByRightHand(v, StateAt(s0, events, n - 1), e, user);
      } else {
        MembershipsByRightHand(v, s0, events, user, n - 1);
      }
    }
  }
}
