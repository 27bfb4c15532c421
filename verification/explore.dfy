/** The swipe deck: a cursor into the candidate profiles, advanced by one on every
    successful like or skip. The database answers are inputs. */
module Explore {
  import opened Options
  import opened Seqs
  import opened Text

  type UserId = string

  datatype Card = Card(id: UserId, name: string)

  datatype Direction = Left | Right

  /** `profiles`, `currentIndex`, `actionLoading` and `swipeDirection`. */
  datatype Deck = Deck(profiles: seq<Card>, index: nat, busy: bool, swipe: Option<Direction>)

  /** A row of the `likes` table. */
  datatype Like = Like(liker: UserId, liked: UserId)

  /** A row of the `matches` table. */
  datatype MatchRow = MatchRow(user1: UserId, user2: UserId)

  /** The toast after pressing like. */
  datatype Outcome = NoAction | Liked | ItsAMatch(name: string) | LikeFailed

  datatype LikeReply = LikeReply(deck: Deck, insert: Option<Like>, outcome: Outcome)

  /** `hasMoreProfiles`. */
  predicate HasMore(d: Deck) {
    d.index < |d.profiles|
  }

  /** The deck offered to `user`: every profile but the user's own and those already liked,
      in the order the database returns them. */
  function Candidates(all: seq<Card>, user: UserId, liked: seq<UserId>): (r: seq<Card>)
    ensures forall i :: 0 <= i < |r| ==> r[i] in all && r[i].id != user && r[i].id !in liked
    ensures forall i :: 0 <= i < |all| && all[i].id != user && all[i].id !in liked ==> all[i] in r
  {
    Filter(all, (c: Card) => c.id != user && c.id !in liked)
  }

  /** The match lookup's filter: the row holds the ordered pair (lower id, higher id) or
      the reversed pair, where the ids are ordered as JavaScript compares strings. */
  predicate PairFilter(row: MatchRow, user: UserId, other: UserId) {
    var lo := if LexLess(user, other) then user else other;
    var hi := if LexLess(user, other) then other else user;
    (row.user1 == lo && row.user2 == hi) || (row.user1 == hi && row.user2 == lo)
  }

  /** Whatever the order, the filter admits exactly the rows joining the two users. */
  lemma PairFilterIsPair(row: MatchRow, user: UserId, other: UserId)
    ensures PairFilter(row, user, other) <==>
              (row.user1 == user && row.user2 == other) || (row.user1 == other && row.user2 == user)
  {
  }

  /** The filter is symmetric in the two users. */
  lemma PairFilterSymmetric(row: MatchRow, user: UserId, other: UserId)
    ensures PairFilter(row, user, other) == PairFilter(row, other, user)
  {
  }

  /** `.single()` yields a row only when exactly one row passes the filter. */
  predicate IsMatch(rows: seq<MatchRow>, user: UserId, other: UserId) {
    |Filter(rows, (r: MatchRow) => PairFilter(r, user, other))| == 1
  }

  /** `handleLike`. With an action in progress, no user or no card left nothing happens.
      Otherwise a like of the current card by the user is inserted; if the insert fails
      the cursor stays, else it advances by one. Either way the swipe animation resets. */
  function HandleLike(d: Deck, user: Option<UserId>, insertOk: bool, matches: seq<MatchRow>): (r: LikeReply)
    ensures d.busy || user.None? || !HasMore(d) ==> r == LikeReply(d, None, NoAction)
    ensures !(d.busy || user.None? || !HasMore(d)) ==>
              && r.insert == Some(Like(user.value, d.profiles[d.index].id))
              && r.deck.profiles == d.profiles && r.deck.swipe.None? && !r.deck.busy
              && (insertOk ==> r.deck.index == d.index + 1 && !r.outcome.LikeFailed?)
              && (!insertOk ==> r.deck.index == d.index && r.outcome == LikeFailed)
    ensures r.outcome.ItsAMatch? ==> insertOk && IsMatch(matches, user.value, d.profiles[d.index].id)
    ensures !(d.busy || user.None? || !HasMore(d)) && insertOk ==>
              && (r.outcome.ItsAMatch? <==> IsMatch(matches, user.value, d.profiles[d.index].id))
              && (r.outcome.ItsAMatch? ==> r.outcome.name == d.profiles[d.index].name)
              && (!r.outcome.ItsAMatch? ==> r.outcome == Liked)
  {
    if d.busy || user.None? || d.index >= |d.profiles| then LikeReply(d, None, NoAction)
    else
      var card := d.profiles[d.index];
      var like := Some(Like(user.value, card.id));
      if !insertOk then LikeReply(d.(busy := false, swipe := None), like, LikeFailed)
      else
        var outcome := if IsMatch(matches, user.value, card.id) then ItsAMatch(card.name) else Liked;
        LikeReply(d.(index := d.index + 1, busy := false, swipe := None), like, outcome)
  }

  /** `handleSkip`: unless an action is in progress or the deck is exhausted, the cursor
      advances by one. No user is needed and nothing is written. */
  function HandleSkip(d: Deck): (r: Deck)
    ensures d.busy || !HasMore(d) ==> r == d
    ensures !(d.busy || !HasMore(d)) ==> r == d.(index := d.index + 1, swipe := None)
  {
    if d.busy || d.index >= |d.profiles| then d else d.(index := d.index + 1, swipe := None)
  }

  /** The cursor never runs past the end of the deck. */
  lemma CursorInBounds(d: Deck, user: Option<UserId>, insertOk: bool, matches: seq<MatchRow>)
    requires d.index <= |d.profiles|
    ensures HandleLike(d, user, insertOk, matches).deck.index <= |d.profiles|
    ensures HandleSkip(d).index <= |d.profiles|
  {
  }

  /** The verdict does not depend on which of the two users pressed like. */
  lemma IsMatchSymmetric(rows: seq<MatchRow>, user: UserId, other: UserId)
    ensures IsMatch(rows, user, other) == IsMatch(rows, other, user)
  {
    forall r | r in rows ensures PairFilter(r, user, other) == PairFilter(r, other, user) {
      PairFilterSymmetric(r, user, other);
    }
    FilterCongruent(rows, (r: MatchRow) => PairFilter(r, user, other), (r: MatchRow) => PairFilter(r, other, user));
  }

  /** Two users who like each other's cards against the same `matches` table get the same
      verdict: either both see "It's a match" or neither does. */
  lemma LikeVerdictSymmetric(da: Deck, a: UserId, db: Deck, b: UserId, matches: seq<MatchRow>)
    requires !da.busy && HasMore(da) && da.profiles[da.index].id == b
    requires !db.busy && HasMore(db) && db.profiles[db.index].id == a
    ensures HandleLike(da, Some(a), true, matches).outcome.ItsAMatch?
        <==> HandleLike(db, Some(b), true, matches).outcome.ItsAMatch?
  {
    IsMatchSymmetric(matches, a, b);
  }

  /** `n` presses of skip. */
  function Skips(d: Deck, n: nat): Deck
    decreases n
  {
    if n == 0 then d else Skips(HandleSkip(d), n - 1)
  }

  /** Skipping walks the deck one card per press and stops at its end, leaving the cards
      themselves alone. */
  lemma {:induction false} SkipsAdvance(d: Deck, n: nat)
    requires !d.busy && d.index <= |d.profiles|
    ensures Skips(d, n).profiles == d.profiles
    ensures Skips(d, n).index == if d.index + n <= |d.profiles| then d.index + n else |d.profiles|
    decreases n
  {
    if n > 0 {
      SkipsAdvance(HandleSkip(d), n - 1);
    }
  }
}
