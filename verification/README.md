# A verified model of the homeserver's hard core

The repository is a Matrix homeserver. This project models seven parts of it in Dafny and proves
what each is for, over every input and every run.

| part | files | main results |
|---|---|---|
| event authorisation | `RoomEvents`, `EventAuth`, `RuleBook`, `AuthChecks`, `AuthKeys`, `RoomRuns`, `Takeover`, `PowerCeiling`, `InviteProvenance`, `SampleRooms` | every verdict is that of the Matrix specification read straight off the content; the selected auth events decide every verdict; bans, power levels, creators and invites over whole runs |
| history visibility | `Visibility` | the batch filter equals the per-user check on the full state, and both a table over visibility and membership |
| rate limiting | `LeakyBucket`, `RateLimiter`, `RetryTimes` | the lazy bucket refines an ideal leaky meter; rate bound; exact retry times |
| database port | `TablePort`, `TableOrder` | every row exactly once across crashes; tables only after those they refer to |
| notifier | `ListenerRuns`, `PendingQueue`, `Notifier` | index equals a full scan; listeners resolved once; queue conservation |
| component builder | `Components` | memoised building fails exactly on a reachable cycle or failing builder |
| worker requests | `Workers` | accepted exactly when compatible; distinct names numbered without gaps |

How the source is represented:

- **Room state** is a map from event type and state key to event. A check is a predicate: any error
  the source raises is `false`. A run accepts events one after another and writes each state event
  into the map. A run holds no create event: one with predecessors is refused, and one without begins
  a room. The source accepts a second create event without predecessors, and it would take the first
  one's place (`CreateExtendsNothing`, `SecondCreateAccepted`).
- **Reference definitions** stand beside the functions that follow the source: the rule book, the
  sight table and the reading of rows and strings are written on the raw content and share no reading
  with what they are set against.
- **Power levels** are integers, integer texts, null or junk, as the source coerces them.
- **Signatures** are a set, carried by the signed block, of the public keys under which it verifies.
  Whether a server name is valid is a parameter of the room version.
- **Time** is a real number passed in. The rate limiter's proofs are carried out in tokens (seconds
  times rate), where they are linear.
- **Objects that change** are classes: `Ratelimiter`, `Porter`, `HomeServer`, `UserStream`,
  `Deferred`, `Notifier`. Each method is one uninterrupted stretch of the source's event loop or one
  database transaction, and is proved against a function of the old state.
- **Crashes** of the port may fall between any two transactions.
- **Python's** blank characters, `int` and the order of `sorted` are parameters of the worker parser.
- An iteration over a Python set takes its elements in any order.

Claims that are false of the code as one would first state them, each proved here with its exact
condition:

- The auth events selected for an event suffice to judge it only in versions where knock_restricted
  comes with restricted, and, for a power_levels event, only when its state key is empty or cannot
  be owned by any sender (`SufficientExactlyForVersions`, `SufficientExactlyForKeys`).
- A ban can end without an unban: by the creator's join directly on the create event
  (`BanEndsExactly`), and without creator power a whole run does so (`BannedCreatorReturns`).
- A run can lift users above the highest level at its start, though never above zero
  (`PowerNeverRises`). It keeps that level exactly when the level is not negative or no power_levels
  event leaves users_default out (`CeilingKeptExactly`, `NegativeDefaultCanBeDropped`).
- Registering a second stream for a user leaves the first behind in the room index exactly when that
  stream listed a room (`Notifier.Register`). Two coroutines can both pass the test at
  textrp_briij/notifier.py:644 because of the await that follows it.
- The documentation of `can_do_action` promises the time at which the action can be performed next.
  For a denied request the time is that of a single action, whatever was asked for
  (`RetryTimeExactly`, `DenialMisleads`). For a permitted look that records nothing the time is right exactly when one
  action more than asked for is permitted too (`LookTimeExactly`, `LookMisleads`); for one further
  action the exact condition over all checks is that of `NextTimeExactly`.
- `record_action` does not pour into the bucket's level when the bucket has drained unpruned
  (`RecordPoursExactly`, `RecordMisses`).
- A limiter can grant more than its rate once it is asked at other limits than those of the key, or
  once actions are recorded or refunded unasked (`RefundForgets`). Asked at the limits of its keys only,
  it never does (`Ratelimiter.WithinRate`).
- The batch visibility filter never asks whether the sender was erased (`ErasureMattersExactly`,
  `ErasureMatters`).
- The copying loop goes round for ever exactly when a foreign key leaves the copied tables or closes
  a cycle (`PortInOrder`), and a batch size of zero copies nothing (`Porter.Port`).
- The comment at docker/configure_workers_and_start.py:619-626 says a negative multiplier is an
  error. The code takes it as zero, and so does the model (`NegativeCountIsNone`).

## Model

| member | source | states |
|---|---|---|
| AuthChecks.CheckStateIndependent | textrp_briij/event_auth.py:161-277 | The loop over the declared auth events accepts iff all are of the room, unrejected and selected, no type and key is declared twice, and a create event is among them; a create event iff it passes its own rules. |
| AuthChecks.CheckStateDependent | textrp_briij/event_auth.py:280-382 | Reading a list of auth events into a dictionary and branching on the event type gives the verdict of the rule book on the state that list stands for; an auth event without state key is refused. |
| AuthChecks.PositionsToCheck | textrp_briij/event_auth.py:992-1018 | The list built for comparison holds exactly the positions that the version has compared: every named level, and every user, event type and (where supported) notification key of either content. |
| AuthChecks.CheckPowerLevels | textrp_briij/event_auth.py:913-1058 | Walking that list accepts a power_levels event iff the rule book allows the change, value by value, whatever the order. |
| EventAuth.DictKeys | textrp_briij/event_auth.py:310 | A key is in the auth dictionary iff some listed event has that type and state key. |
| EventAuth.DictExactly | textrp_briij/event_auth.py:310 | Under each key the auth dictionary holds the last listed event of that type and state key. |
| AuthChecks.KeysStayDistinct | textrp_briij/event_auth.py:245-252 | Looking a key up in the dictionary tells exactly whether a further declared event repeats an earlier one. |
| Common.DomainExactly | textrp_briij/types/__init__.py:266-270 | The server of an identifier is what follows its first colon. |
| RuleBook.LevelsRead | textrp_briij/event_auth.py:1065-1104 | A user's level is 2^53 for a creator with power, else the listed value, else users_default, else zero, and without levels in force 100 for the creator and zero for others. |
| RuleBook.NamesRead | textrp_briij/event_auth.py:1107-1117 | The level under a name is the value of that very name in the content, and the default where it is missing or null. |
| RuleBook.SendLevelsRead | textrp_briij/event_auth.py:791-825 | The level for sending is that of the event's type, else events_default and zero for messages, state_default and 50 for state. |
| RuleBook.OwnerOwns | textrp_briij/event_auth.py:843-872 | The owner read off a state key is a user id on a valid server that the key is, or begins with up to an underscore. |
| RuleBook.OwnerIsRead | textrp_briij/event_auth.py:843-872 | Conversely that user id is the owner read. |
| RuleBook.KeysRead | textrp_briij/event_auth.py:843-872 | A state key like a user id may be used by that user, and where the version says so by its owner and those above them. |
| RuleBook.RedactionsRead | textrp_briij/event_auth.py:875-910 | A redaction needs the level named redact, or in the oldest versions the server of the redacted event. |
| RuleBook.ChangesRead | textrp_briij/event_auth.py:1020-1058 | The comparison loop allows a change iff in each of the four maps every value is left alone or goes from and to no more than the sender's level, and nobody else's level equal to theirs is touched. |
| RuleBook.LevelChangesByTheBook | textrp_briij/event_auth.py:913-1058 | A power_levels event passes iff its content is fit for the version and that change from the content in force is allowed. |
| RuleBook.SignaturesRead | textrp_briij/event_auth.py:1120-1188 | A third-party invite holds iff it is signed for its target under a key of the event its token names, of the same sender. |
| RuleBook.SendingByTheBook | textrp_briij/event_auth.py:828-872 | An event other than a membership passes iff its sender has the level it needs, may use its key, and the rules of its type hold. |
| RuleBook.RulesByTheBook | textrp_briij/event_auth.py:596-770 | The early returns and branches, in the source's order, come to the rules of the "Authorization rules" section of the Matrix specification for room version 9, taken by target membership and read off the raw content. |
| RuleBook.MembershipByTheBook | textrp_briij/event_auth.py:524-770 | A membership event is let in iff both servers may take part and it is the creator's join on the create event, or the levels and memberships read up front are legible and those rules allow it. |
| RuleBook.AuthorisedByTheBook | textrp_briij/event_auth.py:280-382 | For every version, event and state the state-dependent stage allows exactly what the rule book allows. |
| RuleBook.MessageVerdict | textrp_briij/event_auth.py:828-841 | A message is let in iff its sender's server may take part and they are joined with at least the number in the content for its type, else events_default, else zero. |
| RuleBook.StateVerdict | textrp_briij/event_auth.py:828-841 | A state event under a plain key likewise, with state_default and else 50. |
| RuleBook.NamedLevelsBind | textrp_briij/event_auth.py:721-750 | An accepted ban, kick or invite has a sender with at least the number that stands in the content under ban, kick or invite. |
| RuleBook.SelectionExactly | textrp_briij/event_auth.py:1202-1244 | auth_types_for_event selects the listed keys and no others, and raises iff a target, a membership or a token it reads is missing. |
| RuleBook.CreateByTheBook | textrp_briij/event_auth.py:459-512 | A create event passes iff it has no predecessors, a known version, its sender's server as the room's (or no room id), a creator, and proper user ids as co-creators. |
| RuleBook.FirstStageByTheBook | textrp_briij/event_auth.py:161-277 | For every event and declared list the state-independent stage allows exactly what the rule book allows. |
| RuleBook.StepByRightHand | textrp_briij/event_auth.py:541-755 | An admitted knock is the target's own act, an admitted join too unless it is the creator's with the create event as its only predecessor, and an admitted ban never is. |
| RuleBook.MembershipsByRightHand | textrp_briij/event_auth.py:524-770 | Over every run each membership in the state was there at the start or came by the right hand. |
| AuthKeys.SelectedKeysDecide | textrp_briij/event_auth.py:1202-1244 | Two states that agree on the selected keys give every event the same verdict. |
| AuthKeys.AuthKeysSuffice | textrp_briij/event_auth.py:1202-1244 | Auth-key sufficiency: restricting any state to the selected keys changes no verdict. |
| AuthKeys.VouchedJoinNeedsVoucher | textrp_briij/event_auth.py:1236-1242 | With knock_restricted but not restricted, a vouched join is allowed in full state and refused on its selected events. |
| AuthKeys.SufficientExactlyForVersions | textrp_briij/api/room_versions.py:121-475 | The selection suffices for all events that change levels in force iff knock_restricted implies restricted. |
| AuthKeys.UnownableRefused | textrp_briij/event_auth.py:843-872 | A power_levels event under a key that begins like a user id but names no server is refused in every state. |
| AuthKeys.ClearingMissed | textrp_briij/event_auth.py:984-1058 | With everyone at 50 and a ban level of 51 set under another key, clearing that key is refused on the full state and allowed on the selected events. |
| AuthKeys.ShadowLevelsMissed | textrp_briij/event_auth.py:984-988 | Under any other non-empty key some power_levels event has a different verdict on its selected events, in a room with ordinary levels. |
| AuthKeys.SufficientExactlyForKeys | textrp_briij/event_auth.py:1202-1244 | In every version the selection suffices for the power_levels events under a key iff the key is empty or cannot be owned. |
| AuthKeys.LevelChangesSuffice | textrp_briij/event_auth.py:1215-1219 | In every version an event that changes the levels in force has the same verdict on its selected events. |
| AuthKeys.DictIgnoresOrder | textrp_briij/event_auth.py:310 | With one event per key the dictionary does not depend on the order of the list. |
| AuthKeys.StagesCompose | textrp_briij/event_auth.py:221-382 | Two-stage composition: after the first stage, the verdict on the declared auth events in any order is the verdict on every room state that agrees with them on the selected keys. |
| RoomRuns.CreateStays | textrp_briij/event_auth.py:459-512 | No run replaces the create event. |
| RoomRuns.CreateExtendsNothing | textrp_briij/event_auth.py:459-512 | A create event that passes its rules has no predecessors, so it begins a room and no run admits it. |
| RoomRuns.SecondCreateAccepted | textrp_briij/event_auth.py:304-310 | Without predecessors a second create event passes both stages in every version and replaces the first. |
| RoomRuns.BanEndsExactly | textrp_briij/event_auth.py:541-768 | An admitted event ends a ban iff it is a leave by another joined user with the ban level, the kick level and more power, or the creator's join on the create event. |
| RoomRuns.UnbanAllowedExactly | textrp_briij/event_auth.py:625-737 | Which leave events for a banned user are let in, as an iff over sender, levels and federation. |
| RoomRuns.BanPersists | textrp_briij/event_auth.py:615-768 | Ban persistence: in every run a banned user stays banned up to the first event that lifts the ban. |
| Takeover.BannedCreatorReturns | textrp_briij/event_auth.py:541-551 | In every version without creator power some run from a lone accepted create event bans the creator and ends with their join on the create event, sent by the one who banned them. |
| RoomRuns.NobodyAboveCreators | textrp_briij/api/constants.py:48-66 | With levels of at most 2^53 in force nobody's level exceeds a creator's. |
| RoomRuns.CreatorBanExactly | textrp_briij/event_auth.py:738-750 | A ban of a creator is let in iff a joined sender has the ban level and more than 2^53, with the other conditions of the branch. |
| RoomRuns.CreatorStep | textrp_briij/event_auth.py:721-750 | No single admitted event bans a creator, and a leave of a creator comes from that creator. |
| RoomRuns.CreatorImmunity | textrp_briij/event_auth.py:721-750 | Creator immunity: over every run of a creator-power room with levels of at most 2^53 (canonical JSON stops one short of it; `CreatorBanExactly` shows a higher one would do), no state has a creator banned and every leave of a creator was sent by them. |
| PowerCeiling.CeilingIsCapped | textrp_briij/event_auth.py:1065-1104 | Every user, listed or not, is at most at a level iff every listed level and the default are. |
| PowerCeiling.ChangeStaysCapped | textrp_briij/event_auth.py:984-1058 | An accepted change stays under a ceiling iff the ceiling is not negative or the change does not leave users_default out. |
| PowerCeiling.StepStaysCapped | textrp_briij/event_auth.py:984-1058 | An admitted event of any type keeps a ceiling iff the ceiling is not negative or the event does not set levels without users_default. |
| PowerCeiling.CeilingKeptExactly | textrp_briij/event_auth.py:984-1104 | Over every run the highest level at the start is kept throughout iff it is not negative or no power_levels event in force leaves users_default out. |
| PowerCeiling.PowerNeverRises | textrp_briij/event_auth.py:984-1104 | Power ceiling: no run lifts anybody above the larger of zero and the highest level at its start. |
| PowerCeiling.NegativeDefaultCanBeDropped | textrp_briij/event_auth.py:1085-1094 | The zero is needed: some admitted event lifts users above a negative ceiling. |
| PowerCeiling.TopLevelStep | textrp_briij/event_auth.py:1044-1058 | An admitted event leaves a user listed at the ceiling there, unless it is their own power_levels event. |
| PowerCeiling.TopLevelKept | textrp_briij/event_auth.py:1044-1058 | Over every run a user listed at a non-negative ceiling keeps it until they send a power_levels event themselves. |
| InviteProvenance.EntryNeedsInvite | textrp_briij/event_auth.py:662-720 | In a closed room a join is let in only for the creator, somebody joined or somebody invited. |
| InviteProvenance.InviteNeedsWord | textrp_briij/event_auth.py:1120-1188 | An invite without third_party_invite field needs a joined sender; one with it needs, in the state, the event its token names, of the same sender, and a signature for the user under a key that event announces. |
| InviteProvenance.ThirdPartyNeedsMember | textrp_briij/event_auth.py:355-372 | A third-party invite is let in only from a joined sender. |
| InviteProvenance.InviteeVouched | textrp_briij/event_auth.py:1120-1188 | Whoever is invited in a closed run is vouched for through a member joined when they sent the invite, or the very third-party invite its token names and it is signed on. |
| InviteProvenance.MembersTraceToCreator | textrp_briij/event_auth.py:541-720 | Invite provenance: in a run closed throughout, every joined user is the creator or hangs from the creator by a finite chain of accepted invites, each third-party one through the event of its own token. |
| Visibility.VisibilityRead | textrp_briij/visibility.py:641-685 | An event is open to all iff the visibility in force, or for a change of it the one before, is world-readable, or shared and the user does not merely peek; a missing or unknown one is shared. |
| Visibility.OwnMembershipRead | textrp_briij/visibility.py:516-560 | On their own membership event a user counts as joined or invited if they are on either side of it, and always sees it take them out. |
| Visibility.SeesByTable | textrp_briij/visibility.py:390-588 | The check for one user is a table: withheld events, exempt ids, outliers, open visibility, own events, then joined users, invited ones where visibility is invited, and otherwise only what is open. |
| Visibility.StateAfterExactly | textrp_briij/visibility.py:365-387 | The state after an event holds that event under its own key and elsewhere what the store still has. |
| Visibility.GetStateMap | textrp_briij/visibility.py:365-387 | The fetch fills a map with the event's own state change where wanted and the stored state elsewhere. |
| Visibility.FetchedAgrees | textrp_briij/visibility.py:365-387 | At every wanted key a fetch tells the state after the event. |
| Visibility.SightNeedsTwoKeys | textrp_briij/visibility.py:390-500 | The per-user check depends on the state only at the visibility key and the user's own membership. |
| Visibility.TwoKeysFetched | textrp_briij/visibility.py:153-163 | Fetching only the visibility and the user's own membership from the state after the event changes nothing for that user. |
| Visibility.SendableUsers | textrp_briij/visibility.py:307-321 | The discarding loop leaves exactly the requested users the event may be sent to. |
| Visibility.OutlierMatches | textrp_briij/visibility.py:323-331 | For an outlier the batch answer is the per-user one: the users whose own membership it is. |
| Visibility.LaxMatches | textrp_briij/visibility.py:333-344 | Where the history is lax, returning everybody sendable is the per-user answer. |
| Visibility.MembershipMatches | textrp_briij/visibility.py:357-362 | Otherwise the membership check of each user, with its error, is the per-user answer. |
| Visibility.SecondFetchEnough | textrp_briij/visibility.py:349-362 | The second partial fetch gives the membership answers of the full state. |
| Visibility.FilterForClients | textrp_briij/visibility.py:264-362 | Batch equals pointwise: unless soft-failed, it raises iff some user's check raises on the full state, and else returns exactly the users whose check, and whose row of the table, shows the event. |
| Visibility.ErasureMattersExactly | textrp_briij/visibility.py:474-500 | For an erased sender the two checks still agree on a user iff the event is an outlier or may not be sent to them; or the history is not lax; or the event tightens the visibility and the user is joined, or invited where that is enough; or it does not and their membership can be read or is the event's own. |
| Visibility.ErasureMatters | textrp_briij/visibility.py:340-344 | A change from shared to joined by an erased sender is shown by the batch filter to a user who left and hidden by the per-user check. |
| LeakyBucket.RunStandsFor | textrp_briij/api/ratelimiting.py:47-69 | Over any run of checks and prunes the lazy bucket stands for the ideal meter. |
| LeakyBucket.StepCharges | textrp_briij/api/ratelimiting.py:200-229 | A step raises the level by at least what it permits, and between steps the level falls no faster than it leaks. |
| LeakyBucket.CostHeldOrLeaked | textrp_briij/api/ratelimiting.py:200-229 | What was permitted in a window is still in the bucket or has leaked since the window opened. |
| LeakyBucket.CostBound | textrp_briij/api/ratelimiting.py:47-69 | In every interval the permitted cost is at most the burst and the length of the interval in tokens. |
| RateLimiter.Ratelimiter.CheckKey | textrp_briij/api/ratelimiting.py:200-245 | The answer and the new entry are those of the per-key check, raising on a zero rate; no other key changes. |
| RateLimiter.Ratelimiter.Ask | textrp_briij/api/ratelimiting.py:200-245 | A check at the key's own limits keeps table, history and the log of what was really granted in step. |
| RateLimiter.Ratelimiter.CanDoAction | textrp_briij/api/ratelimiting.py:121-245 | The same under the overrides; asked at the key's own limits the answer, verdict and time, is that of the key's ideal meter after the whole history of the object, and the permitted cost grows by exactly what it permitted. |
| RateLimiter.Ratelimiter.WithinRate | textrp_briij/api/ratelimiting.py:47-69 | A limiter only ever asked at the limits of its keys really granted a key no more in any interval than its burst and rate times length. |
| RateLimiter.AskAccounts | textrp_briij/api/ratelimiting.py:217-229 | The log of grants and the cost the history permits grow alike with a check, for every key and interval. |
| RateLimiter.RefundForgets | textrp_briij/api/ratelimiting.py:247-277 | A refund empties the bucket of an action just granted, which is permitted again at the same moment. |
| RateLimiter.Ratelimiter.RecordInner | textrp_briij/api/ratelimiting.py:279-305 | A zero rate raises and stores nothing; else the entry is stored or dropped as the recorded amount says; no other key changes. |
| RateLimiter.Ratelimiter.RecordAction | textrp_briij/api/ratelimiting.py:247-277 | The count grows by the actions at the stored rate, or at the limiter's own for a fresh key, raising where that is zero; no other key changes. |
| RateLimiter.Ratelimiter.PruneMessageCounts | textrp_briij/api/ratelimiting.py:307-330 | Exactly the drained entries among the given keys go, whatever keys are given; table, history and log stay in step. |
| RateLimiter.AnswerOfLevel | textrp_briij/api/ratelimiting.py:203-245 | Verdict and time of a check depend on the entry only through the level of its bucket. |
| RateLimiter.CheckTok | textrp_briij/api/ratelimiting.py:200-229 | A check on seconds and rates is a step of the token-time bucket, verdict and bucket alike. |
| RateLimiter.PrunedTok | textrp_briij/api/ratelimiting.py:307-330 | A prune on seconds and rates is a prune of the token-time bucket. |
| RateLimiter.KeyEvolves | textrp_briij/api/ratelimiting.py:196-229 | In any interleaving over any keys each key's entry evolves as its own bucket. |
| RateLimiter.RefinesIdeal | textrp_briij/api/ratelimiting.py:47-69 | Refinement: after any interleaving of checks and sweeps the next answer, verdict and time, is the ideal meter's, whose level stays between nothing and the burst. |
| RateLimiter.PruningInvisible | textrp_briij/api/ratelimiting.py:307-330 | Removing every sweep from a run changes no later answer, neither verdict nor time. |
| RateLimiter.RateBound | textrp_briij/api/ratelimiting.py:200-229 | Over every run and every interval the permitted cost of a key is at most its burst and rate times length. |
| RateLimiter.SweepsAreNoEvents | textrp_briij/api/ratelimiting.py:307-330 | The ideal meter of a run is that of the run without its sweeps. |
| RetryTimes.PrunesPermitAlike | textrp_briij/api/ratelimiting.py:307-330 | Prunes at any times in between change no verdict of one entry. |
| RetryTimes.PermitsFrom | textrp_briij/api/ratelimiting.py:203-245 | If nothing but leaking happens a request is permitted exactly from its fitting time on, when the burst allows it at all. |
| RetryTimes.ExactIsFit | textrp_briij/api/ratelimiting.py:203-245 | A time from now on is the least at which a request is permitted, prunes included, iff it is the fitting time and the burst allows the request. |
| RetryTimes.RetryTimeExactly | textrp_briij/api/ratelimiting.py:203-245 | The time given with a denial is the least time the same request would be permitted, prunes included, iff it asked for one action and the burst allows one. |
| RetryTimes.DenialMisleads | textrp_briij/api/ratelimiting.py:155-160 | With a burst of two and one action just done, a request for two is denied now and told to try again now. |
| RetryTimes.LookTimeExactly | textrp_briij/api/ratelimiting.py:203-245 | The time given with a permitted look that records nothing is right for the same request iff one action more is permitted too. |
| RetryTimes.LookMisleads | textrp_briij/api/ratelimiting.py:155-160 | With a burst of one, a look at a fresh key is permitted, stores nothing and is told to wait. |
| RetryTimes.NextTimeExactly | textrp_briij/api/ratelimiting.py:203-245 | The time given with any check is the least time one further action would be permitted iff the burst allows one and, after a permitted look that records nothing, it asked for nothing or both one action and one more than asked for are permitted now. |
| RateLimiter.RecordPoursExactly | textrp_briij/api/ratelimiting.py:247-277 | record_action adds to the level of the bucket iff the held amount is not negative or nothing is added. |
| RateLimiter.RecordMisses | textrp_briij/api/ratelimiting.py:247-296 | An action recorded on a bucket that ran dry a while ago leaves no trace. |
| TablePort.ConvertibleExactly | textrp_briij/_scripts/synapse_port_db.py:1005-1018 | A row converts iff no text outside its boolean columns holds a NUL. |
| TablePort.ConvertedCells | textrp_briij/_scripts/synapse_port_db.py:1005-1025 | A converted row keeps every other cell as it is, and in a boolean column holds whether the cell is a non-zero number, true, or non-empty text or bytes. |
| TablePort.ConvertOne | textrp_briij/_scripts/synapse_port_db.py:1020-1027 | A single row is converted or dropped. |
| TablePort.ConvertAppend | textrp_briij/_scripts/synapse_port_db.py:1020-1029 | Rows are converted one by one, in order. |
| TablePort.ConvertAll | textrp_briij/_scripts/synapse_port_db.py:1020-1029 | Where every row converts none is lost and each keeps its place. |
| TablePort.ByRowIdExactly | textrp_briij/_scripts/synapse_port_db.py:473-482 | A table is in order of row id iff each row is before the next. |
| TablePort.BatchesExactly | textrp_briij/_scripts/synapse_port_db.py:473-504 | The two queries give the first rows from the marker on, outwards, up to the limit, a negative limit being none. |
| TablePort.ConvertRows | textrp_briij/_scripts/synapse_port_db.py:995-1029 | The loop keeps, in order, the conversions of exactly the rows that convert. |
| TablePort.MarkersMove | textrp_briij/_scripts/synapse_port_db.py:520-525 | The markers move outwards by exactly the rows of the batch, for any gaps or signs of the row ids. |
| TablePort.StretchMoves | textrp_briij/_scripts/synapse_port_db.py:520-528 | The rows strictly between the markers grow by exactly the converted batch. |
| TablePort.BatchCommits | textrp_briij/_scripts/synapse_port_db.py:520-550 | One transaction keeps the target equal to the rows strictly between the markers and leaves fewer outside. |
| TablePort.NothingSelected | textrp_briij/_scripts/synapse_port_db.py:487-504 | With a batch size other than zero, an empty batch means nothing is left on that side. |
| TablePort.Porter.SetupTable | textrp_briij/_scripts/synapse_port_db.py:341-400 | Set-up keeps the target exact even when cut short, keeps the progress of an append-only table and starts any other afresh. |
| TablePort.Porter.HandleTable | textrp_briij/_scripts/synapse_port_db.py:432-556 | The sweep ends; stopped after any number of transactions the target is exact, finished it is complete. |
| TablePort.Porter.CommitBatch | textrp_briij/_scripts/synapse_port_db.py:520-550 | Rows and markers move together, and less remains. |
| TablePort.Porter.Port | textrp_briij/_scripts/synapse_port_db.py:341-556 | Exactly once across crashes: after any sequence of interrupted attempts a final one ends with every convertible row in the target exactly once, so with as many rows as the source where no text holds a NUL; with batch size zero a fresh target is complete iff no row converts. |
| TableOrder.OrderedIsAcyclic | textrp_briij/_scripts/synapse_port_db.py:956-982 | If every table comes after those it refers to, no foreign key leaves the tables or closes a cycle. |
| TableOrder.StuckIsCyclic | textrp_briij/_scripts/synapse_port_db.py:956-982 | Tables that all refer to one another's set contain a cycle. |
| TableOrder.NothingReady | textrp_briij/_scripts/synapse_port_db.py:959-966 | If no remaining table is ready, a foreign key leaves the tables or closes a cycle. |
| TableOrder.PortInOrder | textrp_briij/_scripts/synapse_port_db.py:956-982 | The loop handles each table at most once, only after all tables it refers to, and gets through all iff the constraints stay within the tables and have no cycle. |
| Components.OrderAppend | textrp_briij/server.py:243-269 | Building more after a first stretch continues one build order. |
| Components.BuildOrderNoFault | textrp_briij/server.py:243-269 | Where a build order exists no cycle or failing builder is within reach, and everything within reach is in the order. |
| Components.HomeServer.Get | textrp_briij/server.py:243-269 | The wrapper ends, restores the flags, caches only what is within reach and starts no builder twice; on failure it names a faulty chain, and what it started is what it cached and that chain. |
| Components.HomeServer.Build | textrp_briij/server.py:260-267 | The same of the builder under its flag. |
| Components.HomeServer.Resolve | textrp_briij/server.py:243-269 | It raises iff a cycle or a failing builder is reachable through uncached components; on success exactly the reachable ones are newly cached, each builder started once; on failure each is started at most once, those now cached and those on a faulty chain; the flags are always restored. |
| PendingQueue.CoveredExactly | textrp_briij/types/__init__.py:1375-1379 | A token covers an entry iff the entry's own writer, or the stream where the token lists none, has come so far. |
| PendingQueue.WaitingExactly | textrp_briij/notifier.py:446-454 | Waiting are, in order, exactly the appends that no flush since has covered. |
| PendingQueue.DeliveredExactly | textrp_briij/notifier.py:446-472 | A flush delivers, in order, exactly the appends for which it is the first covering flush. |
| PendingQueue.DeliveredOnceOrWaiting | textrp_briij/notifier.py:410-472 | Conservation: every append is still waiting or was delivered by exactly one flush, never both. |
| PendingQueue.DeliveredFromQueue | textrp_briij/notifier.py:446-464 | What a flush takes out of the queue is, in order, the entries of the appends it delivers. |
| PendingQueue.PendingIsWaiting | textrp_briij/notifier.py:446-454 | The queue holds, in order, the entries of the waiting appends. |
| ListenerRuns.WaitingExactly | textrp_briij/notifier.py:148-208 | Waiting are exactly the listeners made to wait with neither an update nor a cancellation since. |
| ListenerRuns.WaitForPresentToken | textrp_briij/notifier.py:188-208 | Every waiting listener was created for the stream's present token. |
| ListenerRuns.HandedOutExactly | textrp_briij/notifier.py:148-169 | A listener is handed out by an operation iff that is the first update since its creation, not cancelled before. |
| ListenerRuns.HandedOutOnce | textrp_briij/notifier.py:588-607 | No listener is handed out twice over any history. |
| ListenerRuns.ResultExactly | textrp_briij/notifier.py:588-607 | A listener holds a token iff some update handed it out, and then that update's token. |
| Notifier.UserStream.UpdateAndFetch | textrp_briij/notifier.py:148-169 | Every waiting listener is handed out and none remains; rooms stay. |
| Notifier.UserStream.NewListener | textrp_briij/notifier.py:188-208 | A stale token is answered at once; else the new deferred waits and joins the listeners. |
| Notifier.UserStream.Cancel | textrp_briij/notifier.py:201-206 | A waiting deferred is cancelled and forgotten; a finished one is left alone. |
| Notifier.UserStream.ResolvedByFirstUpdate | textrp_briij/notifier.py:148-208 | Listener discipline on the objects: a deferred holds a token iff the first update after its creation, with no cancellation before it, gave that token; the waiting ones wait for the present token. |
| Notifier.RegisterOverBreaks | textrp_briij/notifier.py:643-655 | Registering over a stream that lists a room leaves that stream behind in the room index. |
| Notifier.Notifier.Register | textrp_briij/notifier.py:902-907 | After registering, the index is right iff the user was unregistered or their earlier stream listed no room. |
| Notifier.Notifier.UserJoinedRoom | textrp_briij/notifier.py:909-914 | A registered user's stream gains the room and nobody else's changes; the index stays right. |
| Notifier.Notifier.Remove | textrp_briij/notifier.py:171-183 | Exactly that stream goes, emptied room sets with it; the index stays right. |
| Notifier.Notifier.RemoveExpiredStreams | textrp_briij/notifier.py:889-900 | Exactly the streams with no listener and nothing announced for more than ten minutes go. |
| Notifier.Notifier.StreamsToWake | textrp_briij/notifier.py:572-579 | Looking up the two indexes finds exactly the registered streams a full scan by user or room selects. |
| Notifier.Notifier.HandOut | textrp_briij/notifier.py:588-599 | All listeners of the given streams are taken, and the streams moved to the token. |
| Notifier.Notifier.Wake | textrp_briij/notifier.py:588-607 | Every listener of the given streams is resolved with the token; the discipline holds of all streams. |
| Notifier.Notifier.OnNewEvent | textrp_briij/notifier.py:536-613 | Exactly the streams of a full scan are woken, all their listeners resolved; every other stream is as before. |
| Notifier.Notifier.AppendPending | textrp_briij/notifier.py:410-411 | The entry goes to the end of the queue. |
| Notifier.GrownExactly | textrp_briij/notifier.py:456-461 | A stream gains exactly the rooms of the entries that are joins of its user. |
| Notifier.Notifier.DrainQueue | textrp_briij/notifier.py:446-464 | The covered entries leave in order, the others stay in order; the users and rooms concerned are collected and the joins recorded. |
| Notifier.Notifier.FlushQueue | textrp_briij/notifier.py:446-464 | The entries taken out are those of the appends for which this is the first covering flush, and every joiner among them has their registered stream among those to wake. |
| Notifier.Notifier.NotifyPending | textrp_briij/notifier.py:437-473 | Exactly the covered entries are delivered, those of the appends for which this is the first covering flush; the streams they concern are woken, that of a user whose join is among them included, and no other; every stream keeps its deferreds and a woken one gains exactly one update. |
| Workers.SplitExactly | docker/configure_workers_and_start.py:667-682 | Splitting is the inverse of gluing: the one list of parts without the character that glued together with it gives the string. |
| Workers.StripExactly | docker/configure_workers_and_start.py:667-682 | Stripping takes the blanks off both ends and nothing else. |
| Workers.CopiesExactly | docker/configure_workers_and_start.py:627-646 | Without a colon a request is for one worker; else the first colon ends it and begins its count. |
| Workers.ParsePlain | docker/configure_workers_and_start.py:794-798 | Without an equals sign a request has no name, and the types are its parts between plus signs. |
| Workers.ParseNamed | docker/configure_workers_and_start.py:767-798 | With one the name is what stands before it, the types what stands after. |
| Workers.ParseStops | docker/configure_workers_and_start.py:767-774 | A second equals sign stops the script. |
| Workers.NameableExactly | docker/configure_workers_and_start.py:779-788 | A name is letters, digits, and three signs, the last no digit, by their codes. |
| Workers.BaseNameExactly | docker/configure_workers_and_start.py:800-803 | A requested name is kept; a generated one splits into the types again. |
| Workers.DecimalExactly | docker/configure_workers_and_start.py:831-833 | The number in a name reads back as the index, without leading zeros. |
| Workers.KnownTypes | docker/configure_workers_and_start.py:101-345 | The worker types there are, by name. |
| Workers.SingleTypes | docker/configure_workers_and_start.py:650-664 | The types of which there can be only one worker, by name. |
| Workers.ExpandedExactly | docker/configure_workers_and_start.py:629-647 | The multipliers can be applied iff every count is an integer. |
| Workers.ExpandedAt | docker/configure_workers_and_start.py:629-647 | The copies of each request stand together after those of all earlier requests. |
| Workers.NegativeCountIsNone | docker/configure_workers_and_start.py:640-642 | A request with a count of zero or below adds nothing, whatever comes before it. |
| Workers.ApplyMultipliers | docker/configure_workers_and_start.py:608-647 | None iff some count is no integer; else the length is the sum of the counts above zero and the copies of each request stand together in order. |
| Workers.RequestsExactly | docker/configure_workers_and_start.py:764-798 | The strings can be read iff each can by itself, and are then read one by one. |
| Workers.CheckTypes | docker/configure_workers_and_start.py:812-829 | The loop over a request's types accepts iff all are known and none that cannot be sharded was seen before, whatever the order; each type's count grows by one. |
| Workers.NumberedNameUnique | docker/configure_workers_and_start.py:779-788 | Base names that end in no digit, and the numbers, can be read back from numbered names. |
| Workers.NamesDistinct | docker/configure_workers_and_start.py:831-851 | No two workers share a name, so no worker overwrites another in the dictionary. |
| Workers.IndicesFill | docker/configure_workers_and_start.py:831-833 | The workers of a base name are numbered from 1 to their count without a gap. |
| Workers.AddWorker | docker/configure_workers_and_start.py:764-851 | One round adds a worker iff the requests so far stay acceptable together; the look-up of the first worker of a base name always succeeds. |
| Workers.ParseWorkerTypes | docker/configure_workers_and_start.py:730-853 | Parsing succeeds iff every string can be read, every request is sound, no unshardable type is asked for twice and no base name stands for two sets of types; then there is one worker for each request, in order. |

## Left out

Event authorisation:

- Signature verification, canonical JSON encoding, event size limits and the texts and codes of errors.
- The flag that asks for a redaction to be checked again, and the byte length of additional creators.
- Content fields of the wrong JSON type, other than power levels.
- State resolution and storage: a run is one line of accepted events.

Visibility:

- A membership event without state key, on which the code raises.
- The filter over many events for one client around the per-user check, with its call-invite filter,
  soft-failed events for administrators and annotations: it adds no harder claim.
- filter_events_for_server, whose decision is made in Rust.

Rate limiting:

- Exempt requesters, overrides from the database or a module, a rate that changes for a key, and
  RequestRatelimiter.
- WithinRate: promises nothing of a limiter asked at other limits than those of a key, because the
  bound is then false.
- RecordAction: is not part of a limiter's history, because it pours into a drained bucket otherwise
  than a check does; the refinement and the rate bound are of checks and sweeps.
- Rounding of floating point: numbers are reals.
- The timer that chooses which keys to prune: any keys may be given.

Database port:

- The special handling of event_search, user_directory_stream_pos and sent_transactions, the
  sequences, the check of the schemas and the progress display.
- A TRUNCATE that cascades to another table. The source is static while it is copied.
- PortInOrder: returns the tables it cannot handle where the source would wait for ever.

Notifier:

- Replication, application services, pushers, federation and metrics.
- The loop of a waiting client, waiting for a stream token, and code that runs inside a callback:
  every method is one atomic step.
- A stream that expires while a client is about to listen on it: wakes are stated for registered
  streams.

Component builder:

- A builder that catches the error of another getter. Building flags are those of one homeserver,
  though the source keeps them for each getter over all homeservers.

Worker requests:

- The generated configuration files, and everything the script does with the parsed workers.

The rest of the repository (REST servlets, federation, storage, media, wallet login, the Rust
components, deployment) is not part of this model.
