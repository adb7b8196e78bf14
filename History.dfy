/** The chat turns of `main.py` outside the stores: the record a query adds
    to the chat-history index, and the ordering the history endpoint applies
    to a stored log. */
module History {
  import opened Records
  import opened Strings

  /** The chat-history record a query adds for the turn (`user`, `ai`). */
  function ChatTurnRecord(chatId: string, user: string, ai: string, timestamp: string): (r: Record)
    ensures ChatRecord(r)
  {
    Record("Usuário: " + user + "\nIA: " + ai,
           map[CHAT_ID := Str(chatId), USER := Str(user), AI := Str(ai), TIMESTAMP := Str(timestamp)])
  }

  predicate TimestampSorted(turns: seq<Turn>)
  {
    forall i :: 0 < i < |turns| ==> LexLe(turns[i - 1].timestamp, turns[i].timestamp)
  }

  /** Adjacent order is enough: in a sorted log every earlier turn has a
      timestamp no later than every later turn. */
  lemma {:induction false} SortedPairwise(turns: seq<Turn>, i: nat, j: nat)
    requires TimestampSorted(turns)
    requires i <= j < |turns|
    ensures LexLe(turns[i].timestamp, turns[j].timestamp)
    decreases j - i
  {
    if i == j {
      LexLeTotal(turns[i].timestamp, turns[i].timestamp);
    } else {
      SortedPairwise(turns, i, j - 1);
      LexLeTransitive(turns[i].timestamp, turns[j - 1].timestamp, turns[j].timestamp);
    }
  }

  /** Place `t` before the first turn whose timestamp is not smaller, so a
      turn that came first stays first among equal timestamps. */
  function InsertByTimestamp(t: Turn, sorted: seq<Turn>): (r: seq<Turn>)
    requires TimestampSorted(sorted)
    ensures TimestampSorted(r)
    ensures multiset(r) == multiset(sorted) + multiset{t}
    ensures r != [] && (r[0] == t || (sorted != [] && r[0] == sorted[0]))
  {
    if sorted == [] then [t]
    else if LexLe(t.timestamp, sorted[0].timestamp) then [t] + sorted
    else
      LexLeTotal(t.timestamp, sorted[0].timestamp);
      assert sorted == [sorted[0]] + sorted[1..];
      [sorted[0]] + InsertByTimestamp(t, sorted[1..])
  }

  /** `sorted(history, key=lambda x: x["timestamp"])`: the same turns,
      ascending by timestamp. */
  function SortByTimestamp(turns: seq<Turn>): (r: seq<Turn>)
    ensures TimestampSorted(r)
    ensures multiset(r) == multiset(turns)
  {
    if turns == [] then []
    else
      assert turns == [turns[0]] + turns[1..];
      InsertByTimestamp(turns[0], SortByTimestamp(turns[1..]))
  }

  /** A log that is already in timestamp order comes back as it is. */
  lemma {:induction false} SortKeepsSortedLog(turns: seq<Turn>)
    requires TimestampSorted(turns)
    ensures SortByTimestamp(turns) == turns
  {
    if turns != [] {
      assert TimestampSorted(turns[1..]);
      SortKeepsSortedLog(turns[1..]);
      if |turns| > 1 {
        assert LexLe(turns[0].timestamp, turns[1].timestamp);
      }
      assert turns == [turns[0]] + turns[1..];
    }
  }
}
