/**
 * Events and room state as the authorisation and visibility rules read them.
 * An event's JSON content is a record of exactly the fields those rules look at.
 */
module RoomEvents {
  import opened Common

  datatype EventType =
    | Create | Member | PowerLevels | JoinRules | ThirdPartyInvite | Aliases | Redaction
    | HistoryVisibility | Dummy | Other(name: string)

  /** `Absent` is content without a membership field, on which reading it raises. */
  datatype Membership = Absent | Join | Invite | Knock | Leave | Ban | Unlisted(name: string)

  datatype JoinRule =
    | Public | InviteOnly | KnockRule | Restricted | KnockRestricted | UnlistedRule(name: string)

  datatype Visibility = WorldReadable | Shared | ToInvited | ToJoined | UnlistedVisibility(name: string)

  /** A JSON value at a power-level position: a number, text that `int()` reads, null, or anything else. */
  datatype Level = Int(n: int) | Text(n: int) | Null | Junk

  datatype LevelName =
    | UsersDefault | EventsDefault | StateDefault | BanLevel | RedactLevel | KickLevel | InviteLevel

  datatype Levels = Levels(
    named: map<LevelName, Level>,
    users: map<string, Level>,
    events: map<EventType, Level>,
    notifications: map<string, Level>)

  /**
   * The third_party_invite field of an invite. `Opaque` has no `signed` mapping.
   * `verifiedBy` holds the public keys under which the signatures of the block check out.
   */
  datatype ThirdParty =
    | NoThirdParty
    | Opaque
    | Signed(mxid: Option<string>, token: Option<string>, hasSignatures: bool, verifiedBy: set<string>)

  datatype Content = Content(
    membership: Membership,
    authorisingUser: Option<string>,
    thirdParty: ThirdParty,
    creator: Option<string>,
    knownRoomVersion: bool,
    federate: bool,
    additionalCreators: set<string>,
    joinRule: Option<JoinRule>,
    levels: Levels,
    publicKeys: set<string>,
    visibility: Option<Visibility>)

  datatype Event = Event(
    id: string,
    roomId: string,
    carriesRoomId: bool,
    kind: EventType,
    sender: string,
    stateKey: Option<string>,
    prevIds: seq<string>,
    authIds: seq<string>,
    redacts: Option<string>,
    content: Content,
    rejected: bool,
    outlier: bool,
    softFailed: bool,
    sentAt: int,
    prevMembership: Option<Membership>,
    prevVisibility: Option<Visibility>)

  datatype StateKey = StateKey(kind: EventType, key: string)

  type StateMap = map<StateKey, Event>

  const CREATE := StateKey(Create, "")
  const POWER := StateKey(PowerLevels, "")
  const JOIN_RULES := StateKey(JoinRules, "")
  const HISTORY := StateKey(HistoryVisibility, "")

  function MemberKey(user: string): StateKey { StateKey(Member, user) }

  /** The flags of a room version that the rules consult, and which server names parse. */
  datatype RoomVersion = RoomVersion(
    oldEventIds: bool,
    specialAliases: bool,
    limitNotifications: bool,
    implicitCreator: bool,
    restricted: bool,
    knock: bool,
    knockRestricted: bool,
    enforceInts: bool,
    ownedState: bool,
    creatorPower: bool,
    roomIdsAsHashes: bool,
    validServer: string -> bool)

  const NO_LEVELS := Levels(map[], map[], map[], map[])
  const BLANK := Content(Absent, None, NoThirdParty, None, true, true, {}, None, NO_LEVELS, {}, None)

  /** The state after a state event is accepted; other events leave it alone. */
  function Apply(s: StateMap, e: Event): StateMap {
    if e.stateKey.Some? then s[StateKey(e.kind, e.stateKey.value) := e] else s
  }

  /** `s` and `t` hold the same events under every key of `keys`. */
  ghost predicate Agree(s: StateMap, t: StateMap, keys: set<StateKey>) {
    forall k :: k in keys ==> Lookup(s, k) == Lookup(t, k)
  }

  function Project(s: StateMap, keys: set<StateKey>): StateMap {
    map k | k in s && k in keys :: s[k]
  }
}
