# ConnectUp campus app: the event-handler logic as a Dafny model

ConnectUp is a campus social app. It covers profile set-up, swipe matching, chat, and
two-party video calls over a broadcast signaling channel. Most of it is UI wired to a hosted
backend. This project models the small deterministic decisions inside its event handlers
and proves properties about them:

- **VideoCall**: the video-call component. The `Call` record holds the role, the header
  state (`connecting`/`connected`/`failed`), the audio and video flags, the local stream,
  the peer connection, the channel, the outbox of sent signaling messages, the error toasts,
  and a count of `onEndCall` invocations. Each browser event is a pure step. The engine's
  replies are step parameters: the descriptions it produces, and whether it accepts a
  description or a candidate.
- **ProfileSetup**: hobby list editing, the required-field gate of Save, and the defaults
  applied to a fetched profile row.
- **PasswordDialog**: the two-stage `verify` → `change` dialog. It covers the
  case- and padding-insensitive answer check, the ordered password checks and the reset
  on close.
- **Validation**: the input schemas as predicates on trimmed strings.
- **Explore**: the swipe deck cursor, like and skip, and the symmetric match lookup.
- **Chat**: partner ids from match rows, the send guard and append, realtime admission, and
  the conversation query.
- **Admin**: the case-insensitive profile search and the tab badges.
- Shared helpers:
  - **Text** models JavaScript's `trim`, `toLowerCase`, `includes` and string `<`.
  - **Seqs** models `Array.prototype.filter` and its laws.
  - **Options** models `null`/`undefined`.

Backend queries, inserts, upserts and auth calls are replaced by their answers, passed in
as parameters: a row, a list of rows, or a success flag. `Math.random()` is a real
parameter in [0, 1). `Date.now()` and `new Date()` are the `id` and `at` parameters of
`Chat.SendMessage`.

Some behaviours of the video-call component are easy to misread. The model keeps them
as the code has them:

- A `disconnected` connection state is treated as a failure, exactly like `failed`: the
  header shows "Connection failed" and an error toast appears
  (src/components/VideoCall.tsx:113-120).
- Incoming candidates are not buffered. A candidate that the engine refuses, for example
  one that arrives before the remote description, is lost
  (src/components/VideoCall.tsx:179-188).
- Hanging up has no guard, so hanging up twice calls `onEndCall` twice
  (src/components/VideoCall.tsx:229-232, `VideoCall.EndCallTwice`).
- The channel carries only `offer`, `answer` and `ice-candidate` messages: there is no
  call-end message, and no step has a timeout (src/components/VideoCall.tsx:78-96).

## Model

| member | source | states |
|---|---|---|
| VideoCall.Mount | src/components/VideoCall.tsx:17-26 | a call starts in `connecting` with audio and video on, with the given ids, role and channel name, no local or remote stream, nothing acquired and nothing sent |
| VideoCall.Initialize | src/components/VideoCall.tsx:36-143 | a media failure gives one error and one `onEndCall`, and acquires nothing; otherwise the stream, a fresh peer connection and the channel are set up; an initiator sends exactly one offer from the user to the match after setting it as the local description, and raises no error; a responder sends nothing and keeps the fresh peer connection; an offer failure gives one error and one `onEndCall` and keeps the fresh peer connection; the ids, role, header state, flags and remote stream never change |
| VideoCall.HandleOffer | src/components/VideoCall.tsx:145-166 | without a peer connection, or with an offer the engine refuses, nothing changes; otherwise the offer becomes the remote description, an answer becomes the local description and is sent back exactly once, addressed from the user to the match, and the connection's candidates and open state are kept |
| VideoCall.HandleAnswer | src/components/VideoCall.tsx:168-177 | an accepted answer becomes the remote description; with no peer connection or a refused answer nothing changes |
| VideoCall.HandleIceCandidate | src/components/VideoCall.tsx:179-188 | an accepted candidate is added to the peer connection; there is no queue, so a refused candidate is dropped |
| VideoCall.OnOffer | src/components/VideoCall.tsx:79-84 | an offer addressed to someone else leaves the whole call unchanged |
| VideoCall.OnAnswer | src/components/VideoCall.tsx:85-90 | an answer addressed to someone else leaves the whole call unchanged |
| VideoCall.OnIceCandidate | src/components/VideoCall.tsx:91-95 | a candidate message that is misaddressed or has no candidate leaves the call unchanged |
| VideoCall.OnLocalCandidate | src/components/VideoCall.tsx:99-111 | a discovered candidate is sent once, from the user to the match; the final null event sends nothing |
| VideoCall.StateAfter | src/components/VideoCall.tsx:113-121 | `connected` maps to connected; `failed` and `disconnected` map to failed; every other connection state keeps the current state |
| VideoCall.OnConnectionStateChange | src/components/VideoCall.tsx:113-121 | applies that mapping; a failure raises exactly one error toast; no other field changes |
| VideoCall.OnRemoteTrack | src/components/VideoCall.tsx:66-72 | a track event with a stream shows the first stream and marks the call connected; an event without a stream changes nothing |
| VideoCall.ToggleAudio | src/components/VideoCall.tsx:190-198 | only the first audio track's flag flips and the button mirrors it; nothing is signalled; without a stream or an audio track nothing changes |
| VideoCall.ToggleVideo | src/components/VideoCall.tsx:200-208 | the same for the first video track |
| VideoCall.ToggleAudioTwice | src/components/VideoCall.tsx:190-198 | toggling twice restores the track, and restores the whole call when the button already mirrored the track |
| VideoCall.ToggleVideoTwice | src/components/VideoCall.tsx:200-208 | the same for video |
| VideoCall.Cleanup | src/components/VideoCall.tsx:210-227 | every local track is stopped with its enabled flag kept, the peer connection is closed and the channel is removed, each only if present; nothing else changes |
| VideoCall.CleanupIdempotent | src/components/VideoCall.tsx:28-34 | the unmount cleanup after a hang-up changes nothing more |
| VideoCall.EndCall | src/components/VideoCall.tsx:229-232 | hang-up runs cleanup and then calls `onEndCall` once |
| VideoCall.EndCallTwice | src/components/VideoCall.tsx:229-232 | a second hang-up calls `onEndCall` a second time and releases nothing more |
| VideoCall.MisaddressedIgnored | src/components/VideoCall.tsx:79-95 | an offer, answer or candidate addressed to someone else leaves the call unchanged, whatever the engine would reply |
| VideoCall.Handshake | src/components/VideoCall.tsx:124-173 | the initiator's single offer reaches the responder; the responder sends exactly one answer, from itself to the initiator; the initiator then holds that answer as its remote description, and each side holds the other's description |
| VideoCall.Step | src/components/VideoCall.tsx:78-121 | the dispatch of a browser event to its listener: channel messages, local candidates, connection-state changes, remote tracks, the two toggles, hang-up and unmount |
| VideoCall.StepKeepsSignaling | src/components/VideoCall.tsx:78-121 | no event after start-up sends an offer, rewrites earlier messages or misaddresses a message |
| VideoCall.RunKeepsSignaling | src/components/VideoCall.tsx:78-121 | the same over any sequence of events |
| VideoCall.SessionSignaling | src/components/VideoCall.tsx:124-137 | over a whole call every message goes from the user to the match; a successful initiator sends exactly one offer, and sends it first; a responder sends none |
| ProfileSetup.Blank | src/pages/ProfileSetup.tsx:21-30 | the form starts with empty name, branch, bio and picture URL, year 1, no hobbies and an empty hobby box |
| ProfileSetup.AddHobby | src/pages/ProfileSetup.tsx:102-107 | the trimmed input is appended and the box cleared exactly when that input is non-empty and not yet listed; otherwise nothing changes |
| ProfileSetup.AddHobbyKeepsDistinct | src/pages/ProfileSetup.tsx:103-104 | adding keeps the hobby list free of duplicates and keeps every entry trimmed and non-empty |
| ProfileSetup.AddHobbyIdempotent | src/pages/ProfileSetup.tsx:102-107 | pressing Add a second time adds nothing |
| ProfileSetup.RemoveHobby | src/pages/ProfileSetup.tsx:109-111 | every occurrence of the hobby goes, every other hobby stays exactly as often as it was listed, and the other fields and the box are untouched |
| ProfileSetup.RemoveHobbyKeepsOrder | src/pages/ProfileSetup.tsx:110 | the remaining hobbies keep their relative order and stay duplicate-free |
| ProfileSetup.RemoveUndoesAdd | src/pages/ProfileSetup.tsx:102-111 | removing the hobby just added gives back the original form |
| ProfileSetup.HandleSubmit | src/pages/ProfileSetup.tsx:113-135 | without a user nothing happens; an empty name, an empty branch or a zero year gives the error and no write; otherwise the user's row is upserted |
| ProfileSetup.FetchProfile | src/pages/ProfileSetup.tsx:44-69 | every present column is copied into the form; a null column becomes '' (text), 1 (year, also for 0) or [] (hobbies); with no row the form is unchanged |
| ProfileSetup.SubmitThenFetch | src/pages/ProfileSetup.tsx:124-135 | the row Save writes, when fetched back, gives exactly the saved form |
| PasswordDialog.PickQuestion | src/components/ChangePasswordDialog.tsx:34-36 | `floor(random * 3)` is always an index into the three questions |
| PasswordDialog.Open | src/components/ChangePasswordDialog.tsx:29-36 | the dialog opens in `verify` with empty fields and a valid question |
| PasswordDialog.Normalize | src/components/ChangePasswordDialog.tsx:54-55 | the compared form of an answer: lower-cased, then trimmed |
| PasswordDialog.VerifyAnswer | src/components/ChangePasswordDialog.tsx:38-70 | a blank answer is refused; a query error changes nothing; the answer is accepted, and the stage becomes `change`, exactly when the stored and given answers agree after lower-casing and trimming; a missing or different stored answer clears the answer box |
| PasswordDialog.BlankAnswerNeedsNoQuery | src/components/ChangePasswordDialog.tsx:39-42 | for a blank answer the outcome does not depend on the database at all |
| PasswordDialog.VerifyIgnoresCaseAndPadding | src/components/ChangePasswordDialog.tsx:54-57 | an answer and its lower-cased, trimmed form get the same verdict |
| PasswordDialog.Close | src/components/ChangePasswordDialog.tsx:106-113 | closing returns to `verify`, clears all three fields and picks a valid question |
| PasswordDialog.PasswordProblem | src/components/ChangePasswordDialog.tsx:73-86 | the first failing check, in order: both filled, then at least 6 characters, then equal; no problem exactly when the two are equal and at least 6 long |
| PasswordDialog.ChangePassword | src/components/ChangePasswordDialog.tsx:72-104 | an update of the new password is issued exactly when the two fields are equal and at least 6 long; otherwise the first problem is shown and nothing changes; a successful update closes the dialog |
| PasswordDialog.QuestionAlwaysValid | src/components/ChangePasswordDialog.tsx:22-26 | the selected question stays one of the three |
| Validation.ValidMessage | src/lib/validation.ts:3-8 | `messageSchema`: the trimmed content is 1 to 5000 characters long |
| Validation.ValidName | src/lib/validation.ts:11-15 | the `name` field: the trimmed name is 1 to 100 characters long and matches `[a-zA-Z\s]+` |
| Validation.ValidBio | src/lib/validation.ts:17-20 | the optional `bio` field: absent, or at most 500 characters once trimmed |
| Validation.ValidHobbyEntry | src/lib/validation.ts:23 | one entry of the `hobbies` array: at most 50 characters once trimmed, possibly empty |
| Validation.ValidHobbies | src/lib/validation.ts:22-24 | the `hobbies` field: at most 20 entries, each a valid entry |
| Validation.ValidProfile | src/lib/validation.ts:10-25 | `profileSchema`: a valid name, a valid bio and valid hobbies |
| Validation.ValidHobby | src/lib/validation.ts:27-30 | `hobbySchema`: the trimmed hobby is 1 to 50 characters long |
| Validation.MessageValidIffNotBlank | src/lib/validation.ts:3-8 | a message is valid exactly when it is not blank and at most 5000 characters once trimmed |
| Validation.NameValidIff | src/lib/validation.ts:11-15 | a name is valid exactly when it is not blank, at most 100 characters once trimmed, and made only of ASCII letters and white space |
| Validation.PaddedCharset | src/lib/validation.ts:15 | surrounding white space does not change whether a string passes the letters-and-spaces class |
| Validation.HobbyRefinesEntry | src/lib/validation.ts:22-30 | every valid standalone hobby is a valid profile hobby entry, and the blank string shows that the converse fails |
| Validation.ValidityIgnoresTrim | src/lib/validation.ts:3-30 | trimming the input first changes no verdict |
| Validation.ValidHobbyList | src/lib/validation.ts:22-24 | at most 20 valid standalone hobbies form a valid `hobbies` field |
| Explore.HasMore | src/pages/Explore.tsx:143 | `hasMoreProfiles`: the cursor is below the deck length |
| Explore.PairFilter | src/pages/Explore.tsx:96 | the lookup's `.or(...)` filter: the row holds the pair as (smaller id, larger id) or as (larger id, smaller id), ordered by string `<` |
| Explore.IsMatch | src/pages/Explore.tsx:93-99 | `.single()` yields a row: exactly one row passes the pair filter |
| Explore.Candidates | src/pages/Explore.tsx:58-62 | the deck holds every profile except the user's own and the already liked ones, and nothing else |
| Explore.PairFilterIsPair | src/pages/Explore.tsx:96 | whatever the string order of the ids, the lookup admits exactly the rows joining the two users, in either column order |
| Explore.PairFilterSymmetric | src/pages/Explore.tsx:96 | the lookup filter is symmetric in the two users |
| Explore.IsMatchSymmetric | src/pages/Explore.tsx:93-99 | the exactly-one-row verdict of the match lookup does not depend on which of the two users liked |
| Explore.LikeVerdictSymmetric | src/pages/Explore.tsx:93-109 | two users liking each other's cards against the same `matches` table both get "It's a match" or neither does |
| Explore.HandleLike | src/pages/Explore.tsx:74-122 | while busy, without a user or past the end nothing happens; otherwise a like of the current card by the user is written; a success advances the cursor by one and reports "It's a match", with the card's name, exactly when the lookup finds the pair, and "Liked!" otherwise; a failure keeps the cursor; either way the swipe resets |
| Explore.HandleSkip | src/pages/Explore.tsx:124-132 | while busy or past the end nothing happens; otherwise the cursor advances by one and the swipe resets |
| Explore.SkipsAdvance | src/pages/Explore.tsx:124-132 | repeated skips walk the deck one card per press, stop at its end and leave the cards unchanged |
| Explore.CursorInBounds | src/pages/Explore.tsx:143 | like and skip never move the cursor past the end of the deck |
| Chat.PartnerOf | src/pages/Chat.tsx:82-84 | for a row that involves the user, the user and the partner are exactly the row's two ids |
| Chat.PartnerIds | src/pages/Chat.tsx:82-84 | one partner per match row, in row order, each the other side of its row |
| Chat.FetchMatches | src/pages/Chat.tsx:67-111 | with no match rows no profile query is made and the list is left as it was; otherwise the partners' ids are queried and each returned profile is listed with its id, name and picture URL, in the order returned |
| Chat.SendMessage | src/pages/Chat.tsx:157-187 | a blank input, no selection, no user or a send in flight does nothing; a successful send appends exactly one message (user → selected match, trimmed text) at the end and clears the input; a failed send changes nothing |
| Chat.SentMessageInConversation | src/pages/Chat.tsx:164-178 | a message just sent belongs to the conversation with the selected match |
| Chat.OnInsert | src/pages/Chat.tsx:131-155 | a realtime insert is appended at the end exactly when it comes from the selected match and is addressed to the user; anything else changes nothing |
| Chat.Between | src/pages/Chat.tsx:120 | the conversation filter: sent by the user to the match or by the match to the user |
| Chat.Conversation | src/pages/Chat.tsx:113-129 | the conversation is exactly the messages between the two users, in either direction |
| Chat.FilterChronological | src/pages/Chat.tsx:121 | selecting some messages from a chronological list keeps them chronological |
| Chat.ConversationChronological | src/pages/Chat.tsx:120 | the pair filter never reorders: from a table in time order it selects a conversation in time order |
| Chat.InsertByTime | src/pages/Chat.tsx:121 | placing a message into a time-ordered list keeps it time-ordered and adds exactly that message |
| Chat.SortByTime | src/pages/Chat.tsx:121 | ordering by creation time gives a time-ordered list with exactly the same messages, each as often |
| Chat.FetchMessages | src/pages/Chat.tsx:113-129 | without a user or on a query error the list is unchanged; otherwise it becomes the conversation's messages, each as often as the table has them, in ascending time order |
| Chat.FetchedAreBetween | src/pages/Chat.tsx:113-129 | a fetched list holds only messages between the user and the match, and every such message of the table |
| Chat.OnInsertKeepsConversation | src/pages/Chat.tsx:131-155 | if every listed message is between the user and the match, so is every message after a realtime insert |
| Chat.ConversationSymmetric | src/pages/Chat.tsx:120 | the conversation is the same seen from either user |
| Admin.FilteredProfiles | src/pages/Admin.tsx:129-133 | a profile is listed exactly when the lower-cased term occurs in its lower-cased name, branch or id |
| Admin.FilteredKeepsOrder | src/pages/Admin.tsx:129 | the result is an order-preserving subsequence of the table, and keeps each listed profile as often as the table has it |
| Admin.EmptySearchKeepsAll | src/pages/Admin.tsx:129-133 | an empty search lists every profile |
| Admin.FilterTwice | src/pages/Admin.tsx:129-133 | searching the result again with the same term changes nothing |
| Admin.SearchIgnoresCase | src/pages/Admin.tsx:130-132 | terms equal up to letter case give the same result |
| Admin.SearchLowerCaseTerm | src/pages/Admin.tsx:130-132 | searching for the lower-cased term is the same search |
| Admin.TabBadges | src/pages/Admin.tsx:183-194 | each badge counts its whole table; the profiles badge equals an empty search and is never smaller than the filtered list |
| Text.Trim | src/lib/validation.ts:5 | the result of `trim` neither starts nor ends with white space and is no longer than its input |
| Text.TrimSplit | src/lib/validation.ts:5 | `trim` drops only white space: the input is the trimmed string between a blank prefix and a blank suffix |
| Text.TrimEmptyIffBlank | src/pages/ProfileSetup.tsx:103 | a trimmed string is empty exactly when the input is all white space |
| Text.TrimIdempotent | src/lib/validation.ts:5 | trimming twice is trimming once |
| Text.LowerTrimCommute | src/components/ChangePasswordDialog.tsx:54-55 | lower-casing and trimming commute |
| Text.Contains | src/pages/Admin.tsx:130 | `includes` holds exactly when the term occurs at some position |
| Text.Lower | src/pages/Admin.tsx:130 | `toLowerCase` keeps the length and maps each character on its own: an upper-case ASCII letter becomes its lower-case letter, every other character stays |
| Text.LowerIdempotent | src/pages/Admin.tsx:130-132 | lower-casing twice is lower-casing once |
| Text.LexLess | src/pages/Explore.tsx:96 | `<` on strings never holds between equal strings |
| Text.LexLessAsymmetric | src/pages/Explore.tsx:96 | of two strings at most one is below the other |
| Text.LexLessTotal | src/pages/Explore.tsx:96 | of two different strings one is below the other |
| Text.LexLessTransitive | src/pages/Explore.tsx:96 | below-below is below |
| Text.LexLessFirstDifference | src/pages/Explore.tsx:96 | the first differing character decides, and a proper prefix is below the longer string |
| Seqs.Filter | src/pages/Admin.tsx:129 | `filter` keeps exactly the elements that pass, and no more of them than the input has |
| Seqs.FilterConcat | src/pages/ProfileSetup.tsx:110 | filtering distributes over concatenation |
| Seqs.FilterIsSubsequence | src/pages/Admin.tsx:129 | a filter's result is a subsequence of its input |
| Seqs.FilterDistinct | src/pages/ProfileSetup.tsx:110 | filtering keeps a list duplicate-free |

## Left out

- Network and backend calls are left out: Supabase queries, inserts, upserts, auth, storage
  uploads and realtime channels. Their results are parameters, so which rows the backend
  returns, and in what order, is not modelled.
- The WebRTC engine is left out: `getUserMedia`, `RTCPeerConnection`, STUN servers, adding
  tracks, and the ICE machinery. Descriptions, candidates and streams are opaque tokens. The
  engine's accept/refuse decisions are parameters.
- VideoCall.Initialize: assumes `new RTCPeerConnection` and `addTrack` succeed. If either
  throws, the source has already stored the stream (src/components/VideoCall.tsx:44) and
  its cleanup later stops it; the model has no outcome for that failure.
- Async interleaving is left out: each handler is one atomic step. The 300 ms `setTimeout`
  before the swipe cursor advances is also left out; the stale `currentIndex` that callback
  captures is modelled as the value at the time of the press.
- The `loading`, `sending` and `actionLoading` spinners are not modelled beyond the guard they
  provide. Disabled-button states and all JSX rendering are not modelled either.
- `handleImageUpload` in the profile form is left out. It is a storage upload plus a URL
  assignment, with no local decision.
- Explore.Candidates: the placeholder list `(null)` that the query sends when nothing has
  been liked is interpreted by the database, not modelled. The model states the intended
  exclusion.
- Chat.OnInsert: models one subscription, to the selected match. The effect that subscribes
  does not use the returned unsubscribe function, so what happens to earlier subscriptions
  is left to the realtime library and is not modelled.
- Chat.FetchMatches: the profile rows returned for the partner ids are taken as given. The
  model does not state that they are exactly the partners' profiles.
- Chat.FetchMessages: `Message` does not carry the remaining columns of a `messages` row,
  and the query's loading flag is not modelled.
- Text.Lower: maps only the ASCII letters A-Z. Unicode case mapping beyond ASCII is not
  modelled.
- Lengths count code points, while JavaScript's `length` counts UTF-16 units. The two
  differ only for characters outside the Basic Multilingual Plane.
- Text.LexLess: compares code points, while JavaScript's `<` compares UTF-16 code units.
  They disagree only when a character above U+FFFF meets one in U+E000-U+FFFF. The
  properties proved about the match lookup hold for either order.
- Chat.SortByTime: messages with the same creation time may come back from the database
  in any order; the model picks one. Every property stated about it holds for any order.
- Floating point is not modelled: `Math.random()` is a real number in [0, 1), which is enough
  for `floor(random * 3)`.
- The follow-ups to a successful save or like are left out: navigation, and toast text and
  duration.
- The profile page, landing page, custom cursor, theme toggle and message notification are
  left out. They are presentation or CRUD glue with no local decisions.
