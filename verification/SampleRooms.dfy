/** Small rooms used as witnesses where a claim about every room fails. */
module SampleRooms {
  import opened Common
  import opened RoomEvents
  import opened EventAuth

  function StateEvent(kind: EventType, key: string, sender: string, content: Content): Event {
    Event("$id", "!r:h", true, kind, sender, Some(key), ["$p", "$q"], [], None, content,
          false, false, false, 0, None, None)
  }

  /** A room whose creator `owner` has joined, and nothing else. */
  function Founded(owner: string): StateMap {
    map[CREATE := StateEvent(Create, "", owner, BLANK.(creator := Some(owner))),
        MemberKey(owner) := StateEvent(Member, owner, owner, BLANK.(membership := Join))]
  }

  /** The same event with its own id and predecessors. */
  function Sent(id: string, prevIds: seq<string>, e: Event): Event { e.(id := id, prevIds := prevIds) }

  /** A create event that starts a room of this version. */
  function CreateBy(v: RoomVersion, owner: string): Event {
    Sent("$c", [], StateEvent(Create, "", owner, BLANK.(creator := Some(owner)))).(carriesRoomId := !v.roomIdsAsHashes)
  }

  lemma FounderLevel(v: RoomVersion, owner: string, s: StateMap)
    requires CREATE in s && s[CREATE] == Founded(owner)[CREATE] && POWER !in s
    ensures UserLevel(v, s, owner) == Some(if v.creatorPower then CREATOR_POWER_LEVEL else 100)
  {}

  const ALICE := "@a:h"
  const BOB := "@b:h"

  lemma ServersOfSamples()
    ensures DomainOf("!r:h") == Some("h")
    ensures ParsesAsUser(ALICE) && ParsesAsUser(BOB)
    ensures DomainOf(ALICE) == Some("h") && DomainOf(BOB) == Some("h") && ALICE != BOB
  {
    assert ALICE[0] == '@' && ALICE[1] == 'a' && ALICE[2] == ':' && ALICE[3..] == "h";
    assert BOB[0] == '@' && BOB[1] == 'b' && BOB[2] == ':' && BOB[3..] == "h";
    assert "!r:h"[3..] == "h" && Find("!r:h", ':', 0) == Find("!r:h", ':', 1) == Find("!r:h", ':', 2) == Some(2);
    assert ALICE[1..][1] == ':' && BOB[1..][1] == ':';
    assert Find(ALICE, ':', 0) == Find(ALICE, ':', 1) == Find(ALICE, ':', 2) == Some(2);
    assert Find(BOB, ':', 0) == Find(BOB, ':', 1) == Find(BOB, ':', 2) == Some(2);
  }

  lemma CreatesAllowed(v: RoomVersion)
    ensures CreateAllowed(v, CreateBy(v, ALICE)) && CreateAllowed(v, CreateBy(v, BOB))
    ensures CreateBy(v, ALICE) != CreateBy(v, BOB)
  {
    ServersOfSamples();
  }
}
