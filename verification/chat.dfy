/** The chat page: who the user's matches are, sending a message, admitting realtime
    messages and the conversation query. The database's answers are inputs. */
module Chat {
  import opened Options
  import opened Seqs
  import opened Text

  type UserId = string

  /** A row of the `matches` table. */
  datatype MatchRow = MatchRow(user1: UserId, user2: UserId)

  /** A `profiles` row as the chat page reads it. */
  datatype ProfileRow = ProfileRow(id: UserId, name: string, pictureUrl: string)

  /** An entry of the match list. */
  datatype Partner = Partner(id: UserId, name: string, pictureUrl: string)

  /** A `messages` row; `at` is its creation time. */
  datatype Message = Message(id: string, sender: UserId, receiver: UserId, content: string, at: int)

  datatype ChatState = ChatState(matches: seq<Partner>, selected: Option<Partner>,
                                 messages: seq<Message>, input: string, sending: bool)

  /** The other side of a match row. */
  function PartnerOf(row: MatchRow, user: UserId): (p: UserId)
    ensures row.user1 == user || row.user2 == user ==> multiset{user, p} == multiset{row.user1, row.user2}
    ensures row.user1 != user ==> p == row.user1
  {
    if row.user1 == user then row.user2 else row.user1
  }

  /** The partner ids of `fetchMatches`, one per row, in row order. */
  function PartnerIds(rows: seq<MatchRow>, user: UserId): (ids: seq<UserId>)
    ensures |ids| == |rows|
    ensures forall i :: 0 <= i < |rows| && (rows[i].user1 == user || rows[i].user2 == user) ==>
              multiset{user, ids[i]} == multiset{rows[i].user1, rows[i].user2}
  {
    seq(|rows|, i requires 0 <= i < |rows| => PartnerOf(rows[i], user))
  }

  /** What `fetchMatches` does: the match list it shows and the profile query it makes. */
  datatype MatchLoad = MatchLoad(matches: seq<Partner>, profileQuery: Option<seq<UserId>>)

  /** `fetchMatches`. `rows` is the answer of the matches query (`None`: it failed) and
      `profiles` that of the profile query (`None`: it failed). Without matches no profile
      query is made and the list is left as it was; a failure also leaves it. */
  function FetchMatches(current: seq<Partner>, user: UserId, rows: Option<seq<MatchRow>>,
                        profiles: Option<seq<ProfileRow>>): (r: MatchLoad)
    ensures rows.None? || |rows.value| == 0 ==> r == MatchLoad(current, None)
    ensures rows.Some? && |rows.value| > 0 ==> r.profileQuery == Some(PartnerIds(rows.value, user))
    ensures profiles.None? ==> r.matches == current
    ensures rows.Some? && |rows.value| > 0 && profiles.Some? ==>
              && |r.matches| == |profiles.value|
              && forall i :: 0 <= i < |r.matches| ==>
                   r.matches[i] == Partner(profiles.value[i].id, profiles.value[i].name, profiles.value[i].pictureUrl)
  {
    match rows
    case None => MatchLoad(current, None)
    case Some(rs) =>
      var ids := PartnerIds(rs, user);
      if |ids| == 0 then MatchLoad(current, None)
      else match profiles
        case None => MatchLoad(current, Some(ids))
        case Some(ps) =>
          MatchLoad(seq(|ps|, i requires 0 <= i < |ps| => Partner(ps[i].id, ps[i].name, ps[i].pictureUrl)), Some(ids))
  }

  /** `sendMessage`. Nothing happens when the trimmed input is empty, no match is selected,
      there is no user or a send is in flight. Otherwise the trimmed text is sent; on
      success exactly that message is appended and the input cleared, on failure nothing
      changes. `id` and `at` are the local stand-ins for the clock. */
  function SendMessage(s: ChatState, user: Option<UserId>, insertOk: bool, id: string, at: int): (r: ChatState)
    ensures Trim(s.input) == [] || s.selected.None? || user.None? || s.sending || !insertOk ==> r == s
    ensures Trim(s.input) != [] && s.selected.Some? && user.Some? && !s.sending && insertOk ==>
              && |r.messages| == |s.messages| + 1
              && r.messages[..|s.messages|] == s.messages
              && r.messages[|s.messages|] == Message(id, user.value, s.selected.value.id, Trim(s.input), at)
              && r.input == [] && r.(messages := s.messages, input := s.input) == s
  {
    if Trim(s.input) == [] || s.selected.None? || user.None? || s.sending then s
    else if !insertOk then s
    else
      var m := Message(id, user.value, s.selected.value.id, Trim(s.input), at);
      s.(messages := s.messages + [m], input := "")
  }

  /** The realtime subscription: the channel delivers inserts whose sender is the selected
      match, and the handler appends the ones addressed to the user, at the end. */
  function OnInsert(s: ChatState, user: UserId, matchId: UserId, m: Message): (r: ChatState)
    ensures m.sender == matchId && m.receiver == user ==> r == s.(messages := s.messages + [m])
    ensures m.sender != matchId || m.receiver != user ==> r == s
  {
    if m.sender != matchId then s
    else if m.receiver == user then s.(messages := s.messages + [m]) else s
  }

  /** A message exchanged between the two users, in either direction. */
  predicate Between(m: Message, user: UserId, partner: UserId) {
    (m.sender == user && m.receiver == partner) || (m.sender == partner && m.receiver == user)
  }

  /** Ascending by creation time. */
  predicate Chronological(ms: seq<Message>) {
    forall i, j :: 0 <= i < j < |ms| ==> ms[i].at <= ms[j].at
  }

  /** The query filter of `fetchMessages`: the messages of the table between the two
      users, in table order. */
  function Conversation(table: seq<Message>, user: UserId, partner: UserId): (r: seq<Message>)
    ensures forall i :: 0 <= i < |r| ==> r[i] in table && Between(r[i], user, partner)
    ensures forall i :: 0 <= i < |table| && Between(table[i], user, partner) ==> table[i] in r
  {
    Filter(table, (m: Message) => Between(m, user, partner))
  }

  /** The tail of a chronological list is chronological. */
  lemma ChronologicalTail(ms: seq<Message>)
    requires Chronological(ms) && ms != []
    ensures Chronological(ms[1..])
  {
    forall i, j | 0 <= i < j < |ms[1..]| ensures ms[1..][i].at <= ms[1..][j].at {
      assert ms[1..][i] == ms[i + 1] && ms[1..][j] == ms[j + 1];
    }
  }

  /** A message no later than every message of a chronological list can go in front. */
  lemma ChronologicalCons(m: Message, ms: seq<Message>)
    requires Chronological(ms)
    requires forall k :: 0 <= k < |ms| ==> m.at <= ms[k].at
    ensures Chronological([m] + ms)
  {
    var r := [m] + ms;
    forall i, j | 0 <= i < j < |r| ensures r[i].at <= r[j].at {
      assert r[j] == ms[j - 1];
      if i > 0 { assert r[i] == ms[i - 1]; }
    }
  }

  /** Every message of a chronological list is no earlier than its head. */
  lemma HeadFirst(ms: seq<Message>, x: Message)
    requires Chronological(ms) && ms != [] && x in ms
    ensures ms[0].at <= x.at
  {
    var j :| 0 <= j < |ms| && ms[j] == x;
    if j > 0 { assert ms[0].at <= ms[j].at; }
  }

  /** Keeping some messages of a chronological list keeps it chronological. */
  lemma {:induction false} FilterChronological(ms: seq<Message>, keep: Message -> bool)
    requires Chronological(ms)
    ensures Chronological(Filter(ms, keep))
    decreases |ms|
  {
    if ms != [] {
      ChronologicalTail(ms);
      FilterChronological(ms[1..], keep);
      if keep(ms[0]) {
        var t := Filter(ms[1..], keep);
        forall k | 0 <= k < |t| ensures ms[0].at <= t[k].at {
          assert t[k] in ms[1..];
          HeadFirst(ms, t[k]);
        }
        ChronologicalCons(ms[0], t);
        assert Filter(ms, keep) == [ms[0]] + t;
      } else {
        assert Filter(ms, keep) == Filter(ms[1..], keep);
      }
    }
  }

  /** The pair filter never reorders: from a table in ascending time order it selects the
      conversation in ascending time order. */
  lemma ConversationChronological(table: seq<Message>, user: UserId, partner: UserId)
    requires Chronological(table)
    ensures Chronological(Conversation(table, user, partner))
  {
    FilterChronological(table, (m: Message) => Between(m, user, partner));
  }

  /** `m` placed into a time-ordered list, before the first later-or-equal message. */
  function InsertByTime(m: Message, ms: seq<Message>): (r: seq<Message>)
    requires Chronological(ms)
    ensures multiset(r) == multiset(ms) + multiset{m}
    ensures Chronological(r)
    decreases |ms|
  {
    if ms == [] then [m]
    else if m.at <= ms[0].at then (
      ChronologicalCons(m, ms);
      [m] + ms
    ) else (
      ChronologicalTail(ms);
      var rest := InsertByTime(m, ms[1..]);
      InsertedAfterHead(m, ms, rest);
      ChronologicalCons(ms[0], rest);
      assert ms == [ms[0]] + ms[1..];
      [ms[0]] + rest
    )
  }

  /** What `InsertByTime` builds behind the head of the list is no earlier than that head. */
  lemma InsertedAfterHead(m: Message, ms: seq<Message>, rest: seq<Message>)
    requires Chronological(ms) && ms != [] && ms[0].at < m.at
    requires multiset(rest) == multiset(ms[1..]) + multiset{m}
    ensures forall k :: 0 <= k < |rest| ==> ms[0].at <= rest[k].at
  {
    forall k | 0 <= k < |rest| ensures ms[0].at <= rest[k].at {
      assert rest[k] in multiset(rest);
      if rest[k] != m {
        assert rest[k] in multiset(ms[1..]);
        assert rest[k] in ms;
        HeadFirst(ms, rest[k]);
      }
    }
  }

  /** `order('created_at', { ascending: true })`: the same messages, each as often, in
      ascending time order. */
  function SortByTime(ms: seq<Message>): (r: seq<Message>)
    ensures multiset(r) == multiset(ms)
    ensures Chronological(r)
    decreases |ms|
  {
    if ms == [] then []
    else
      assert ms == [ms[0]] + ms[1..];
      InsertByTime(ms[0], SortByTime(ms[1..]))
  }

  /** `fetchMessages`. `table` is the `messages` table (`None`: the query failed, and the
      list stays as it was). The list becomes the conversation between the user and the
      match, sorted by creation time. */
  function FetchMessages(s: ChatState, user: Option<UserId>, matchId: UserId,
                         table: Option<seq<Message>>): (r: ChatState)
    ensures user.None? || table.None? ==> r == s
    ensures user.Some? && table.Some? ==>
              && multiset(r.messages) == multiset(Conversation(table.value, user.value, matchId))
              && Chronological(r.messages)
              && r.(messages := s.messages) == s
  {
    if user.None? || table.None? then s
    else s.(messages := SortByTime(Conversation(table.value, user.value, matchId)))
  }

  /** Every message of a freshly fetched conversation is between the user and the match,
      and every such message of the table is listed. */
  lemma FetchedAreBetween(s: ChatState, user: UserId, matchId: UserId, table: seq<Message>)
    ensures var r := FetchMessages(s, Some(user), matchId, Some(table));
      && (forall i :: 0 <= i < |r.messages| ==> Between(r.messages[i], user, matchId))
      && (forall i :: 0 <= i < |table| && Between(table[i], user, matchId) ==> table[i] in r.messages)
  {
    var r := FetchMessages(s, Some(user), matchId, Some(table));
    var conv := Conversation(table, user, matchId);
    forall i | 0 <= i < |r.messages| ensures Between(r.messages[i], user, matchId) {
      assert r.messages[i] in multiset(conv);
      var j :| 0 <= j < |conv| && conv[j] == r.messages[i];
    }
    forall i | 0 <= i < |table| && Between(table[i], user, matchId) ensures table[i] in r.messages {
      assert table[i] in conv;
      assert table[i] in multiset(r.messages);
    }
  }

  /** Admitting realtime inserts keeps the list a conversation: if every listed message is
      between the user and the match, so is every message afterwards. */
  lemma OnInsertKeepsConversation(s: ChatState, user: UserId, matchId: UserId, m: Message)
    requires forall i :: 0 <= i < |s.messages| ==> Between(s.messages[i], user, matchId)
    ensures var r := OnInsert(s, user, matchId, m);
      forall i :: 0 <= i < |r.messages| ==> Between(r.messages[i], user, matchId)
  {
  }

  /** The conversation is the same seen from either side. */
  lemma ConversationSymmetric(table: seq<Message>, user: UserId, partner: UserId)
    ensures Conversation(table, user, partner) == Conversation(table, partner, user)
  {
    FilterCongruent(table, (m: Message) => Between(m, user, partner), (m: Message) => Between(m, partner, user));
  }

  /** A message sent successfully belongs to the conversation with the selected match. */
  lemma SentMessageInConversation(s: ChatState, user: UserId, insertOk: bool, id: string, at: int)
    requires Trim(s.input) != [] && s.selected.Some? && !s.sending && insertOk
    ensures var r := SendMessage(s, Some(user), insertOk, id, at);
      Between(r.messages[|r.messages| - 1], user, s.selected.value.id)
  {
  }
}
