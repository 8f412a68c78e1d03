/**
 * History visibility: which users may see an event. The check for one user against the whole
 * state after the event, and the batch filter that fetches state twice, each time in part.
 */
module Visibility {
  import opened Common
  import opened RoomEvents
  import EventAuth
  import opened SampleRooms

  /** What one user gets: an error, nothing, or the event (redacted to its skeleton when `pruned`). */
  datatype Sight = Raises | Hidden | Shown(pruned: bool)

  /** What a membership check answers; None where reading the membership raises. */
  datatype Standing = Standing(allowed: bool, joined: bool)

  function VisibilityRank(v: Visibility): nat {
    match v
    case WorldReadable => 0
    case Shared => 1
    case ToInvited => 2
    case ToJoined => 3
    case UnlistedVisibility(_) => 4
  }

  function KnownVisibility(v: Option<Visibility>): (r: Visibility)
    ensures !r.UnlistedVisibility?
  {
    if v.Some? && !v.value.UnlistedVisibility? then v.value else Shared
  }

  /** get_effective_room_visibility_from_state. */
  function EffectiveVisibility(s: StateMap): Visibility {
    if HISTORY in s then KnownVisibility(s[HISTORY].content.visibility) else Shared
  }

  function MembershipRank(m: Membership): nat {
    match m
    case Join => 0
    case Invite => 1
    case Knock => 2
    case Leave => 3
    case Ban => 4
    case _ => 5
  }

  function KnownMembership(m: Membership): Membership {
    if m.Absent? || m.Unlisted? then Leave else m
  }

  predicate OwnMembership(e: Event, user: string) {
    e.kind.Member? && e.stateKey == Some(user)
  }

  /** The more joined of the memberships before and after the user's own membership event. */
  function MostJoined(e: Event): Membership {
    var after := KnownMembership(e.content.membership);
    var before := if e.prevMembership.Some? then KnownMembership(e.prevMembership.value) else Leave;
    if MembershipRank(before) < MembershipRank(after) then before else after
  }

  /** The user's own leave from joined or invited is always shown to them. */
  predicate OwnDeparture(e: Event, user: string) {
    && OwnMembership(e, user)
    && KnownMembership(e.content.membership) == Leave
    && (e.prevMembership == Some(Join) || e.prevMembership == Some(Invite))
  }

  function StandingFor(membership: Option<Membership>, visibility: Visibility, peeking: bool): Standing {
    if membership == Some(Join) then Standing(true, true)
    else
      match visibility
      case ToJoined => Standing(false, false)
      case ToInvited => Standing(membership == Some(Invite), false)
      case Shared => Standing(!peeking, false)
      case _ => Standing(true, false)
  }

  /** _check_membership. */
  function MembershipCheck(user: string, e: Event, visibility: Visibility, s: StateMap, peeking: bool): Option<Standing> {
    if OwnDeparture(e, user) then Some(Standing(true, false))
    else if OwnMembership(e, user) then Some(StandingFor(Some(MostJoined(e)), visibility, peeking))
    else
      var membership := EventAuth.MembershipOf(s, user);
      if membership == Some(Absent) then None else Some(StandingFor(membership, visibility, peeking))
  }

  /** _check_history_visibility: lax enough, or laxer before this change of visibility. */
  predicate LaxHistory(e: Event, visibility: Visibility, peeking: bool) {
    var before := KnownVisibility(e.prevVisibility);
    var v := if e.kind.HistoryVisibility? && VisibilityRank(before) < VisibilityRank(visibility) then before else visibility;
    v == WorldReadable || (v == Shared && !peeking)
  }

  /** What the checks read from the stores about the sender, the room and the clock. */
  datatype Circumstances = Circumstances(
    now: int,
    maxLifetime: Option<int>,
    ignoring: set<string>,
    peeking: bool,
    toClient: bool)

  /** _check_filter_send_to_client, as "may be sent". */
  predicate MaySend(e: Event, c: Circumstances, ignored: bool) {
    && !e.kind.Dummy?
    && !(e.stateKey.None? && ignored)
    && !e.kind.Aliases?
    && !(e.stateKey.None? && c.maxLifetime.Some? && e.sentAt < c.now - c.maxLifetime.value)
  }

  /** _check_client_allowed_to_see_event for one user on the state after the event. */
  function Sees(user: string, e: Event, c: Circumstances, always: set<string>, erased: bool, s: StateMap): Sight {
    if c.toClient && !MaySend(e, c, user in c.ignoring) then Hidden
    else if e.id in always then Shown(false)
    else if e.outlier then (if OwnMembership(e, user) then Shown(false) else Hidden)
    else if !erased && LaxHistory(e, EffectiveVisibility(s), c.peeking) then Shown(false)
    else
      match MembershipCheck(user, e, EffectiveVisibility(s), s, c.peeking)
      case None => Raises
      case Some(standing) => if standing.allowed then Shown(erased && !standing.joined) else Hidden
  }

  // ----- the same by a table over the raw content -----

  /** The visibility that the history event in the state, if any, and its content say: shared unless it names another. */
  function SaidVisibility(content: Option<Visibility>): Visibility {
    match content
    case Some(WorldReadable) => WorldReadable
    case Some(ToInvited) => ToInvited
    case Some(ToJoined) => ToJoined
    case _ => Shared
  }

  function RoomVisibility(s: StateMap): Visibility {
    match Lookup(s, StateKey(HistoryVisibility, "")) case None => Shared case Some(h) => SaidVisibility(h.content.visibility)
  }

  /** Not for any client: dummies and aliases, and messages from ignored senders or past their lifetime. */
  predicate Withheld(user: string, e: Event, c: Circumstances) {
    || e.kind == Dummy || e.kind == Aliases
    || (e.stateKey == None && (user in c.ignoring || (c.maxLifetime != None && c.now - e.sentAt > c.maxLifetime.value)))
  }

  /** Whom a visibility lets see whatever they are: everyone, or everyone who does not merely peek. */
  predicate OpenVisibility(v: Visibility, peeking: bool) {
    v == WorldReadable || (v == Shared && !peeking)
  }

  /** Open to all: by the room's visibility, or for a change of it also by the one before. */
  predicate OpenToAll(e: Event, s: StateMap, peeking: bool) {
    OpenVisibility(RoomVisibility(s), peeking) ||
    (e.kind == HistoryVisibility && OpenVisibility(SaidVisibility(e.prevVisibility), peeking))
  }

  /** On one side of the user's own membership event they have this membership. */
  predicate OnEitherSide(e: Event, m: Membership) {
    e.content.membership == m || e.prevMembership == Some(m)
  }

  /** The user's own event takes them out of the room or turns down an invite, an unknown membership counting as leaving. */
  predicate TakesOut(e: Event) {
    && (e.content.membership in {Leave, Absent} || e.content.membership.Unlisted?)
    && e.prevMembership in {Some(Join), Some(Invite)}
  }

  /** The membership in the state: joined users see everything, invited ones where the visibility says so. */
  predicate Admitted(joined: bool, invited: bool, v: Visibility, peeking: bool) {
    joined || (invited && v == ToInvited) || OpenVisibility(v, peeking)
  }

  /** What one user gets of an event, row by row. */
  function SightTable(user: string, e: Event, c: Circumstances, always: set<string>, erased: bool, s: StateMap): Sight {
    var own := e.kind == Member && e.stateKey == Some(user);
    var stored := Lookup(s, StateKey(Member, user));
    var v := RoomVisibility(s);
    if c.toClient && Withheld(user, e, c) then Hidden
    else if e.id in always then Shown(false)
    else if e.outlier then (if own then Shown(false) else Hidden)
    else if OpenToAll(e, s, c.peeking) && !erased then Shown(false)
    else if own && TakesOut(e) then Shown(erased)
    else if own then
      var joined := OnEitherSide(e, Join);
      if Admitted(joined, OnEitherSide(e, Invite), v, c.peeking) then Shown(erased && !joined) else Hidden
    else if stored.Some? && stored.value.content.membership == Absent then Raises
    else
      var joined := stored.Some? && stored.value.content.membership == Join;
      var invited := stored.Some? && stored.value.content.membership == Invite;
      if Admitted(joined, invited, v, c.peeking) then Shown(erased && !joined) else Hidden
  }

  lemma VisibilityRead(e: Event, s: StateMap, peeking: bool)
    ensures EffectiveVisibility(s) == RoomVisibility(s) && !RoomVisibility(s).UnlistedVisibility?
    ensures LaxHistory(e, EffectiveVisibility(s), peeking) <==> OpenToAll(e, s, peeking)
  {}

  lemma OwnMembershipRead(user: string, e: Event)
    ensures OwnDeparture(e, user) <==> e.kind == Member && e.stateKey == Some(user) && TakesOut(e)
    ensures MostJoined(e) == Join <==> OnEitherSide(e, Join)
    ensures MostJoined(e) == Invite <==> OnEitherSide(e, Invite) && !OnEitherSide(e, Join)
  {}

  /** The check for one user follows the table. */
  lemma SeesByTable(user: string, e: Event, c: Circumstances, always: set<string>, erased: bool, s: StateMap)
    ensures Sees(user, e, c, always, erased, s) == SightTable(user, e, c, always, erased, s)
  {
    VisibilityRead(e, s, c.peeking);
    OwnMembershipRead(user, e);
    hide EffectiveVisibility, LaxHistory, RoomVisibility, OpenToAll, MostJoined, OwnDeparture;
  }

  // ----- fetching state -----

  /** The stored state before the event: event ids by key, and the events the store still has. */
  datatype Store = Store(ids: map<StateKey, string>, events: map<string, Event>)

  /** The whole state after the event. */
  function StateAfter(store: Store, e: Event): StateMap {
    Apply(map k | k in store.ids && store.ids[k] in store.events :: store.events[store.ids[k]], e)
  }

  /** The state after an event holds that event under its own key and elsewhere what the store still has. */
  lemma StateAfterExactly(store: Store, e: Event, k: StateKey, x: Event)
    ensures Lookup(StateAfter(store, e), k) == Some(x) <==>
            if e.stateKey == Some(k.key) && e.kind == k.kind then x == e
            else k in store.ids && Lookup(store.events, store.ids[k]) == Some(x)
  {}

  /** What _get_state_map returns for a filter: the wanted part of that state, and always the event itself. */
  function Fetched(store: Store, e: Event, wanted: set<StateKey>): StateMap {
    Apply(map k | k in store.ids && k in wanted && store.ids[k] in store.events :: store.events[store.ids[k]], e)
  }

  /** _get_state_map as the source runs it. */
  method GetStateMap(store: Store, e: Event, wanted: set<StateKey>) returns (r: StateMap)
    ensures r == Fetched(store, e, wanted)
  {
    var ids := map k | k in store.ids && k in wanted :: store.ids[k];
    var keys := Listing(ids.Keys);
    r := map[];
    for i := 0 to |keys|
      invariant r == map k | k in store.ids && k in keys[..i] && store.ids[k] in store.events :: store.events[store.ids[k]]
    {
      var k := keys[i];
      assert k in ids.Keys;
      assert keys[..i + 1] == keys[..i] + [k];
      if ids[k] in store.events {
        r := r[k := store.events[ids[k]]];
      }
    }
    assert keys[..|keys|] == keys;
    assert forall k :: k in keys <==> k in store.ids && k in wanted;
    if e.stateKey.Some? {
      r := r[StateKey(e.kind, e.stateKey.value) := e];
    }
  }

  lemma FetchedAgrees(store: Store, e: Event, wanted: set<StateKey>, key: StateKey)
    requires key in wanted
    ensures Lookup(Fetched(store, e, wanted), key) == Lookup(StateAfter(store, e), key)
  {}

  // ----- one user needs only two keys -----

  /** The per-user check reads the state only at the visibility key and the user's own membership. */
  lemma SightNeedsTwoKeys(user: string, e: Event, c: Circumstances, always: set<string>, erased: bool, s: StateMap, t: StateMap)
    requires Agree(s, t, {HISTORY, MemberKey(user)})
    ensures Sees(user, e, c, always, erased, s) == Sees(user, e, c, always, erased, t)
  {
    assert Lookup(s, HISTORY) == Lookup(t, HISTORY);
    assert Lookup(s, MemberKey(user)) == Lookup(t, MemberKey(user));
  }

  /** Fetching those two keys of the state after the event is enough for one user. */
  lemma TwoKeysFetched(user: string, e: Event, c: Circumstances, always: set<string>, erased: bool, s: StateMap)
    ensures Sees(user, e, c, always, erased, Project(s, {HISTORY, MemberKey(user)})) == Sees(user, e, c, always, erased, s)
  {
    SightNeedsTwoKeys(user, e, c, always, erased, Project(s, {HISTORY, MemberKey(user)}), s);
  }

  // ----- the batch filter -----

  /** The users the batch filter answers for on the full state, were each asked alone. */
  ghost function Pointwise(users: set<string>, e: Event, c: Circumstances, s: StateMap): set<string> {
    set u | u in users && Sees(u, e, c, {}, false, s).Shown?
  }

  ghost predicate SomeRaises(users: set<string>, e: Event, c: Circumstances, s: StateMap) {
    exists u :: u in users && Sees(u, e, c, {}, false, s).Raises?
  }

  /** The loop discarding users the event may not be sent to. */
  method SendableUsers(userIds: seq<string>, e: Event, c: Circumstances) returns (allowed: set<string>)
    ensures allowed == set u | u in userIds && (c.toClient ==> MaySend(e, c, u in c.ignoring))
  {
    allowed := set u | u in userIds;
    if c.toClient {
      for i := 0 to |userIds|
        invariant allowed == set u | u in userIds && (u in userIds[..i] ==> MaySend(e, c, u in c.ignoring))
      {
        if !MaySend(e, c, userIds[i] in c.ignoring) {
          allowed := allowed - {userIds[i]};
        }
        assert userIds[..i + 1] == userIds[..i] + [userIds[i]];
      }
      assert userIds[..|userIds|] == userIds;
    }
  }

  /** `r` is the answer of the batch filter were each user asked alone on the state `s`. */
  ghost predicate MatchesPointwise(r: Option<set<string>>, users: set<string>, e: Event, c: Circumstances, s: StateMap) {
    && (r.None? <==> SomeRaises(users, e, c, s))
    && (r.Some? ==> r.value == Pointwise(users, e, c, s))
  }

  /** The same by the table over the raw content. */
  ghost predicate MatchesTable(r: Option<set<string>>, users: set<string>, e: Event, c: Circumstances, s: StateMap) {
    && (r.None? <==> exists u :: u in users && SightTable(u, e, c, {}, false, s) == Raises)
    && (r.Some? ==> r.value == set u | u in users && SightTable(u, e, c, {}, false, s).Shown?)
  }

  lemma PointwiseByTable(r: Option<set<string>>, users: set<string>, e: Event, c: Circumstances, s: StateMap)
    ensures MatchesPointwise(r, users, e, c, s) <==> MatchesTable(r, users, e, c, s)
  {
    hide Sees, SightTable;
    forall u ensures Sees(u, e, c, {}, false, s) == SightTable(u, e, c, {}, false, s) {
      SeesByTable(u, e, c, {}, false, s);
    }
  }

  lemma OutlierMatches(r: set<string>, users: set<string>, allowed: set<string>, e: Event, c: Circumstances, s: StateMap)
    requires allowed == set u | u in users && (c.toClient ==> MaySend(e, c, u in c.ignoring))
    requires e.outlier && r == set u | u in allowed && OwnMembership(e, u)
    ensures MatchesPointwise(Some(r), users, e, c, s)
  {}

  lemma LaxMatches(users: set<string>, allowed: set<string>, e: Event, c: Circumstances, s: StateMap)
    requires allowed == set u | u in users && (c.toClient ==> MaySend(e, c, u in c.ignoring))
    requires !e.outlier && LaxHistory(e, EffectiveVisibility(s), c.peeking)
    ensures MatchesPointwise(Some(allowed), users, e, c, s)
  {}

  ghost function MembershipAnswer(allowed: set<string>, e: Event, visibility: Visibility, s: StateMap, peeking: bool): Option<set<string>> {
    if exists u :: u in allowed && MembershipCheck(u, e, visibility, s, peeking).None? then None
    else Some(set u | u in allowed && MembershipCheck(u, e, visibility, s, peeking).value.allowed)
  }

  lemma MembershipMatches(users: set<string>, allowed: set<string>, e: Event, c: Circumstances, s: StateMap)
    requires allowed == set u | u in users && (c.toClient ==> MaySend(e, c, u in c.ignoring))
    requires !e.outlier && !LaxHistory(e, EffectiveVisibility(s), c.peeking)
    ensures MatchesPointwise(MembershipAnswer(allowed, e, EffectiveVisibility(s), s, c.peeking), users, e, c, s)
  {
    var visibility := EffectiveVisibility(s);
    assert forall u :: u in users ==>
      (Sees(u, e, c, {}, false, s).Raises? <==> u in allowed && MembershipCheck(u, e, visibility, s, c.peeking).None?);
  }

  lemma SecondFetchEnough(store: Store, e: Event, visibility: Visibility, peeking: bool, allowed: set<string>, wanted: set<StateKey>)
    requires forall u :: u in allowed ==> MemberKey(u) in wanted
    ensures MembershipAnswer(allowed, e, visibility, Fetched(store, e, wanted), peeking) ==
            MembershipAnswer(allowed, e, visibility, StateAfter(store, e), peeking)
  {
    forall u | u in allowed
      ensures MembershipCheck(u, e, visibility, Fetched(store, e, wanted), peeking) ==
              MembershipCheck(u, e, visibility, StateAfter(store, e), peeking)
    {
      FetchedAgrees(store, e, wanted, MemberKey(u));
    }
    var part, whole := Fetched(store, e, wanted), StateAfter(store, e);
    if forall u :: u in allowed ==> MembershipCheck(u, e, visibility, whole, peeking).Some? {
      assert (set u | u in allowed && MembershipCheck(u, e, visibility, part, peeking).value.allowed) ==
             (set u | u in allowed && MembershipCheck(u, e, visibility, whole, peeking).value.allowed);
    }
  }

  /** The filter once the event is known not to be soft-failed and somebody asks. */
  method FilterByState(store: Store, userIds: seq<string>, e: Event, c: Circumstances) returns (r: Option<set<string>>)
    ensures MatchesPointwise(r, (set u | u in userIds), e, c, StateAfter(store, e))
  {
    ghost var full, users := StateAfter(store, e), (set u | u in userIds);
    var allowed := SendableUsers(userIds, e, c);
    if e.outlier {
      if e.kind.Member? && e.stateKey.Some? && e.stateKey.value in allowed {
        r := Some({e.stateKey.value});
      } else {
        r := Some({});
      }
      OutlierMatches(r.value, users, allowed, e, c, full);
      return;
    }
    var first := GetStateMap(store, e, {HISTORY});
    FetchedAgrees(store, e, {HISTORY}, HISTORY);
    var visibility := EffectiveVisibility(first);
    if LaxHistory(e, visibility, c.peeking) {
      LaxMatches(users, allowed, e, c, full);
      return Some(allowed);
    }
    var wanted := (set u | u in allowed :: MemberKey(u)) + {HISTORY};
    var second := GetStateMap(store, e, wanted);
    SecondFetchEnough(store, e, visibility, c.peeking, allowed, wanted);
    MembershipMatches(users, allowed, e, c, full);
    if exists u :: u in allowed && MembershipCheck(u, e, visibility, second, c.peeking).None? {
      r := None;
    } else {
      r := Some(set u | u in allowed && MembershipCheck(u, e, visibility, second, c.peeking).value.allowed);
    }
    assert r == MembershipAnswer(allowed, e, visibility, second, c.peeking);
  }

  /**
   * filter_event_for_clients_with_state: for an event that was not soft-failed it raises exactly
   * when the check of some requested user raises on the full state, and otherwise returns exactly
   * the users whose own check shows them the event.
   */
  method FilterForClients(store: Store, userIds: seq<string>, e: Event, c: Circumstances) returns (r: Option<set<string>>)
    ensures e.softFailed ==> r == Some({})
    ensures !e.softFailed ==> MatchesPointwise(r, (set u | u in userIds), e, c, StateAfter(store, e))
    ensures !e.softFailed ==> MatchesTable(r, (set u | u in userIds), e, c, StateAfter(store, e))
  {
    hide Sees, SightTable, StateAfter;
    if e.softFailed || userIds == [] {
      r := Some({});
    } else {
      r := FilterByState(store, userIds, e, c);
    }
    PointwiseByTable(r, (set u | u in userIds), e, c, StateAfter(store, e));
  }

  // ----- erased senders -----

  /** A visibility change from lax to strict, on which the two checks judge an erased sender differently. */
  predicate Tightens(e: Event, s: StateMap, peeking: bool) {
    && LaxHistory(e, EffectiveVisibility(s), peeking)
    && !(EffectiveVisibility(s) == WorldReadable || (EffectiveVisibility(s) == Shared && !peeking))
  }

  /**
   * The batch filter never asks whether the sender was erased. Its answer for a user still matches
   * the per-user check with an erased sender exactly when the event is an outlier or may not be
   * sent to the user at all; or the history is not lax; or, where the event tightens the visibility, the user is joined, or invited under the new visibility; or, where
   * it does not, it is the user's own membership event or their membership can be read.
   */
  lemma ErasureMattersExactly(user: string, e: Event, c: Circumstances, s: StateMap)
    ensures Sees(user, e, c, {}, true, s).Shown? == Sees(user, e, c, {}, false, s).Shown?
            <==>
            var current := EventAuth.MembershipOf(s, user);
            e.outlier || (c.toClient && !MaySend(e, c, user in c.ignoring)) || !LaxHistory(e, EffectiveVisibility(s), c.peeking) ||
            if Tightens(e, s, c.peeking)
            then current == Some(Join) || (EffectiveVisibility(s) == ToInvited && current == Some(Invite))
            else OwnMembership(e, user) || current != Some(Absent)
  {}

  /** A change from shared to joined by an erased sender: the batch filter shows it to a user who left. */
  lemma ErasureMatters(user: string, sender: string, c: Circumstances)
    requires !c.peeking
    ensures exists e: Event, s: StateMap ::
              && e.sender == sender && e.stateKey == Some("") && Lookup(s, HISTORY) == Some(e)
              && EventAuth.MembershipOf(s, user) == Some(Leave)
              && Sees(user, e, c, {}, false, s).Shown? && Sees(user, e, c, {}, true, s).Hidden?
  {
    var change := BLANK.(visibility := Some(ToJoined));
    var e := StateEvent(HistoryVisibility, "", sender, change).(prevVisibility := Some(Shared));
    var s: StateMap := map[HISTORY := e, MemberKey(user) := StateEvent(Member, user, user, BLANK.(membership := Leave))];
    assert EffectiveVisibility(s) == ToJoined && LaxHistory(e, ToJoined, c.peeking);
    assert EventAuth.MembershipOf(s, user) == Some(Leave);
    assert Sees(user, e, c, {}, false, s).Shown? && Sees(user, e, c, {}, true, s).Hidden?;
    assert Lookup(s, HISTORY) == Some(e);
  }
}
