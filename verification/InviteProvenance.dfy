/** How users get into a room that never opens its join rule. */
module InviteProvenance {
  import opened Common
  import opened RoomEvents
  import opened EventAuth
  import opened RoomRuns

  /** The join rule admits nobody without an invite: not public, and not a supported restricted rule. */
  predicate Closed(v: RoomVersion, s: StateMap) {
    JoinRuleOf(s) != Public && !RestrictedJoins(v, JoinRuleOf(s))
  }

  /** A run in a room that holds only its create event at the start and is closed whenever an event comes in. */
  ghost predicate ClosedRun(v: RoomVersion, s0: StateMap, events: seq<Event>) {
    && s0.Keys == {CREATE}
    && Run(v, s0, events)
    && forall n: nat :: n < |events| ==> Closed(v, StateAt(s0, events, n))
  }

  /** The state key of the third-party invite that the token of a signed invite names. */
  function WordKey(e: Event): Option<StateKey> {
    if e.content.thirdParty.Signed? && e.content.thirdParty.token.Some?
    then Some(StateKey(ThirdPartyInvite, e.content.thirdParty.token.value)) else None
  }

  /** The third_party_invite field of `e` was signed for `user` under a key that `word` announces. */
  predicate SignedOn(e: Event, word: Event, user: string) {
    var block := e.content.thirdParty;
    && block.Signed? && block.hasSignatures && block.mxid == Some(user)
    && exists key :: key in word.content.publicKeys && key in block.verifiedBy
  }

  /**
   * Event `i` invites `user` on the word of the sender of event `j`: event `i` itself, or for an
   * invite with a third_party_invite field the earlier event its token names and it is signed on.
   */
  ghost predicate Invites(events: seq<Event>, i: nat, j: nat, user: string)
    requires j <= i < |events|
  {
    && Targets(events[i], user, Invite)
    && events[j].sender == events[i].sender
    && if events[i].content.thirdParty.NoThirdParty? then j == i
       else
         && j < i && events[j].stateKey.Some?
         && WordKey(events[i]) == Some(StateKey(events[j].kind, events[j].stateKey.value))
         && SignedOn(events[i], events[j], user)
  }

  /**
   * Within the first `n` events `user` is the creator, or was invited on the word of someone who
   * was joined when they gave it and was vouched for by then. Positions decrease along the chain,
   * so every chain is finite and ends at the creator.
   */
  ghost predicate Vouched(v: RoomVersion, s0: StateMap, events: seq<Event>, n: nat, user: string)
    requires n <= |events| && CREATE in s0
    decreases n
  {
    || Creator(v, s0[CREATE]) == Some(user)
    || exists i: nat, j: nat {:trigger Invites(events, i, j, user)} ::
         && j <= i < n
         && Invites(events, i, j, user)
         && Joined(StateAt(s0, events, j), events[j].sender)
         && Vouched(v, s0, events, j, events[j].sender)
  }

  lemma VouchedLater(v: RoomVersion, s0: StateMap, events: seq<Event>, n: nat, user: string)
    requires n < |events| && CREATE in s0 && Vouched(v, s0, events, n, user)
    ensures Vouched(v, s0, events, n + 1, user)
  {}

  /** Every event in the state was accepted earlier in the run, or was there at the start. */
  lemma {:induction false} StateFromRun(s0: StateMap, events: seq<Event>, n: nat, key: StateKey) returns (j: nat)
    requires n <= |events| && key in StateAt(s0, events, n) && key !in s0
    ensures j < n && events[j] == StateAt(s0, events, n)[key]
    ensures events[j].kind == key.kind && events[j].stateKey == Some(key.key)
  {
    var e := events[n - 1];
    if e.stateKey.Some? && StateKey(e.kind, e.stateKey.value) == key {
      j := n - 1;
    } else {
      j := StateFromRun(s0, events, n - 1, key);
    }
  }

  /** What an admitted membership event in a closed room rests on. */
  lemma EntryNeedsInvite(v: RoomVersion, s: StateMap, e: Event, user: string)
    requires Admits(v, s, e) && Closed(v, s) && CREATE in s
    requires Targets(e, user, Join)
    ensures Creator(v, s[CREATE]) == Some(user) || Joined(s, user) || Invited(s, user)
  {}

  /** An invite with a third_party_invite field rests on the event its token names, any other on a joined sender. */
  lemma InviteNeedsWord(v: RoomVersion, s: StateMap, e: Event, user: string)
    requires Admits(v, s, e) && Targets(e, user, Invite)
    ensures if e.content.thirdParty.NoThirdParty? then Joined(s, e.sender)
            else
              && WordKey(e).Some? && WordKey(e).value in s
              && s[WordKey(e).value].sender == e.sender && SignedOn(e, s[WordKey(e).value], user)
  {}

  lemma ThirdPartyNeedsMember(v: RoomVersion, s: StateMap, e: Event)
    requires Admits(v, s, e) && e.kind.ThirdPartyInvite?
    ensures Joined(s, e.sender)
  {}

  /** Everyone joined or invited after `n` events is vouched for by then. */
  lemma {:induction false} InsidersVouched(v: RoomVersion, s0: StateMap, events: seq<Event>, n: nat, user: string)
    requires ClosedRun(v, s0, events) && n <= |events|
    requires Joined(StateAt(s0, events, n), user) || Invited(StateAt(s0, events, n), user)
    ensures Vouched(v, s0, events, n, user)
    decreases n, 1
  {
    var m := n - 1;
    var s, e := StateAt(s0, events, m), events[m];
    CreateStays(v, s0, events, m);
    assert CREATE in s0 && CREATE in s && s[CREATE] == s0[CREATE];
    assert AdmittedAt(v, s0, events, m);
    if Targets(e, user, Invite) {
      InviteeVouched(v, s0, events, m, user);
    } else {
      if Targets(e, user, Join) {
        EntryNeedsInvite(v, s, e, user);
      }
      if Creator(v, s0[CREATE]) != Some(user) {
        InsidersVouched(v, s0, events, m, user);
        VouchedLater(v, s0, events, m, user);
      }
    }
  }

  lemma {:induction false} InviteeVouched(v: RoomVersion, s0: StateMap, events: seq<Event>, m: nat, user: string)
    requires ClosedRun(v, s0, events) && m < |events| && Targets(events[m], user, Invite)
    ensures Vouched(v, s0, events, m + 1, user)
    decreases m, 2
  {
    var s, e := StateAt(s0, events, m), events[m];
    assert AdmittedAt(v, s0, events, m);
    InviteNeedsWord(v, s, e, user);
    var j := m;
    if !e.content.thirdParty.NoThirdParty? {
      j := StateFromRun(s0, events, m, WordKey(e).value);
      assert AdmittedAt(v, s0, events, j);
      ThirdPartyNeedsMember(v, StateAt(s0, events, j), events[j]);
    }
    InsidersVouched(v, s0, events, j, events[j].sender);
    assert Invites(events, m, j, user);
  }

  /** Invite provenance: in a closed run every joined user traces back to the creator through accepted invites. */
  lemma MembersTraceToCreator(v: RoomVersion, s0: StateMap, events: seq<Event>)
    requires ClosedRun(v, s0, events)
    ensures forall user :: Joined(StateAt(s0, events, |events|), user) ==> Vouched(v, s0, events, |events|, user)
  {
    forall user | Joined(StateAt(s0, events, |events|), user) ensures Vouched(v, s0, events, |events|, user) {
      InsidersVouched(v, s0, events, |events|, user);
    }
  }
}
