/** The inbox search of src/components/automation/ConversationList.tsx:
    a conversation is listed when the lower-cased query occurs in its
    lower-cased name, username or last message. */
module ConversationSearch {
  import opened Text
  import opened Seqs
  import opened Messages

  /** The filter callback, for a query `q`. */
  predicate Matches(c: Conversation, q: string) {
    || Contains(Lower(c.name), Lower(q))
    || Contains(Lower(c.username), Lower(q))
    || Contains(Lower(c.lastMessage), Lower(q))
  }

  function MatchesQuery(q: string): Conversation -> bool {
    (c: Conversation) => Matches(c, q)
  }

  /** `filteredConversations`. */
  function FilterConversations(convs: seq<Conversation>, q: string): (r: seq<Conversation>)
    ensures IsSubseq(r, convs)
    ensures forall c :: c in r <==> c in convs && Matches(c, q)
    ensures forall c :: multiset(r)[c] == if Matches(c, q) then multiset(convs)[c] else 0
  {
    FilterIsSubseq(convs, MatchesQuery(q));
    FilterCounts(convs, MatchesQuery(q));
    Filter(convs, MatchesQuery(q))
  }

  /** An empty search box lists every conversation. */
  lemma EmptyQueryKeepsAll(convs: seq<Conversation>)
    ensures FilterConversations(convs, "") == convs
  {
    forall c | c in convs ensures Matches(c, "") {
      ContainsEmpty(Lower(c.name));
    }
    FilterKeepsAll(convs, MatchesQuery(""));
  }

  /** Queries that differ only in letter case list the same conversations. */
  lemma CaseInsensitive(convs: seq<Conversation>, q1: string, q2: string)
    requires Lower(q1) == Lower(q2)
    ensures FilterConversations(convs, q1) == FilterConversations(convs, q2)
  {
    FilterCongruent(convs, MatchesQuery(q1), MatchesQuery(q2));
  }

  /** Searching the search result again with the same query changes nothing. */
  lemma SearchIdempotent(convs: seq<Conversation>, q: string)
    ensures FilterConversations(FilterConversations(convs, q), q) == FilterConversations(convs, q)
  {
    FilterIdempotent(convs, MatchesQuery(q));
  }
}
