/** The friends list of client/src/components/Sidebar.jsx: the unseen-count badge, the
    local clear of a count when its conversation is opened, the search filter, and the
    component state that the load of `/api/messages/user` replaces. */
module SidebarView {
  import opened Seqs
  import opened Text
  import opened Store
  import MessageController

  /** `unseenMap?.[id] || 0`: an absent key reads as 0. */
  function RawCount(unseen: map<UserId, nat>, id: UserId): nat {
    if id in unseen then unseen[id] else 0
  }

  /** `displayCount`: "5+" above five, the decimal count from one to five, and the empty
      string (no badge rendered) for zero. */
  function DisplayCount(raw: nat): (r: string)
    ensures r == "" <==> raw == 0
    ensures raw > 5 ==> r == "5+"
    ensures 0 < raw <= 5 ==> |r| == 1 && AllDigits(r) && DigitsValue(r) == raw
  {
    if raw > 5 then "5+" else if raw > 0 then Decimal(raw) else ""
  }

  /** Two counts get the same badge exactly when they are equal or both above five. */
  lemma BadgeDistinguishes(a: nat, b: nat)
    ensures DisplayCount(a) == DisplayCount(b) <==> a == b || (a > 5 && b > 5)
  {
    assert "5+"[1] == '+' && !IsDigit('+');
  }

  /** The effect of selecting `selected` on the unseen map: a nonzero count of the
      selected friend drops to 0; anything else is left as it is. */
  function ClearUnseen(unseen: map<UserId, nat>, selected: Option<UserId>): (r: map<UserId, nat>)
    ensures r.Keys == unseen.Keys
    ensures forall k :: k in unseen && (selected.None? || k != selected.value) ==> r[k] == unseen[k]
    ensures selected.Some? ==> RawCount(r, selected.value) == 0
    ensures selected.None? || RawCount(unseen, selected.value) == 0 ==> r == unseen
  {
    if selected.None? then unseen
    else if RawCount(unseen, selected.value) != 0 then unseen[selected.value := 0]
    else unseen
  }

  /** Selecting the same friend again changes nothing. */
  lemma ClearUnseenIdempotent(unseen: map<UserId, nat>, selected: Option<UserId>)
    ensures ClearUnseen(ClearUnseen(unseen, selected), selected) == ClearUnseen(unseen, selected)
  {
  }

  /** After selection the selected friend shows no badge, and every other friend shows
      the badge it showed before. */
  lemma ClearUnseenBadges(unseen: map<UserId, nat>, selected: UserId, other: UserId)
    requires other != selected
    ensures DisplayCount(RawCount(ClearUnseen(unseen, Some(selected)), selected)) == ""
    ensures DisplayCount(RawCount(ClearUnseen(unseen, Some(selected)), other)) == DisplayCount(RawCount(unseen, other))
  {
  }

  /** `friend.fullName.toLowerCase().includes(searchQuery.toLowerCase())`. */
  predicate Matches(friend: User, query: string) {
    Contains(Lower(friend.fullName), Lower(query))
  }

  /** `filteredFriends`: the friends whose lower-cased name contains the lower-cased
      query, in list order. */
  function FilterFriends(friends: seq<User>, query: string): (r: seq<User>)
    ensures forall u :: u in r <==> u in friends && Matches(u, query)
    ensures |r| <= |friends|
  {
    Filter(friends, (u: User) => Matches(u, query))
  }

  /** An empty search shows every friend, in order. */
  lemma EmptyQueryKeepsAll(friends: seq<User>)
    ensures FilterFriends(friends, "") == friends
  {
    forall i | 0 <= i < |friends| ensures Matches(friends[i], "") {
      ContainsEmpty(Lower(friends[i].fullName));
    }
    FilterKeepsAll(friends, (u: User) => Matches(u, ""));
  }

  /** Typing more narrows the list: a query that contains another shows no friend the
      shorter one hides. */
  lemma LongerQueryNarrows(friends: seq<User>, shorter: string, longer: string)
    requires Contains(longer, shorter)
    ensures forall u :: u in FilterFriends(friends, longer) ==> u in FilterFriends(friends, shorter)
  {
    LowerKeepsContains(longer, shorter);
    forall u | u in FilterFriends(friends, longer) ensures Matches(u, shorter) {
      ContainsTransitive(Lower(u.fullName), Lower(longer), Lower(shorter));
    }
  }

  /** The component's state cells. `error` stands for the single message
      'Failed to load friends'. */
  class SidebarState {
    var friends: seq<User>
    var unseenMap: map<UserId, nat>
    var searchQuery: string
    var loading: bool
    var error: bool

    /** The initial `useState` values. */
    constructor ()
      ensures friends == [] && unseenMap == map[] && searchQuery == "" && loading && !error
    {
      friends, unseenMap, searchQuery, loading, error := [], map[], "", true, false;
    }

    /** The friends the list renders. */
    function Visible(): (r: seq<User>)
      reads this
      ensures forall u :: u in r <==> u in friends && Matches(u, searchQuery)
    {
      FilterFriends(friends, searchQuery)
    }

    /** The badge rendered next to friend `id`. */
    function Badge(id: UserId): (r: string)
      reads this
      ensures r != "" <==> id in unseenMap && unseenMap[id] > 0
    {
      DisplayCount(RawCount(unseenMap, id))
    }

    /** `getFriends` given the answer of GET /api/messages/user: a success replaces both
        the list and the map, a failure answer only sets the error, a thrown request
        sets the error and empties both; loading ends in every case. */
    method GetFriends(reply: Reply<MessageController.SidebarData>)
      modifies this`friends, this`unseenMap, this`loading, this`error
      ensures !loading
      ensures error <==> !(reply.Answered? && reply.success)
      ensures reply.Threw? ==> friends == [] && unseenMap == map[]
      ensures reply.Answered? && reply.success ==>
        friends == reply.data.users && unseenMap == reply.data.unseenMessages
      ensures reply.Answered? && !reply.success ==>
        friends == old(friends) && unseenMap == old(unseenMap)
    {
      loading, error := true, false;
      match reply {
        case Threw =>
          error, friends, unseenMap := true, [], map[];
        case Answered(success, data) =>
          if success {
            friends, unseenMap := data.users, data.unseenMessages;
          } else {
            error := true;
          }
      }
      loading := false;
    }

    /** The effect that runs when `selectedUser` changes. */
    method SelectFriend(selected: Option<UserId>)
      modifies this`unseenMap
      ensures unseenMap == ClearUnseen(old(unseenMap), selected)
    {
      if selected.Some? && selected.value in unseenMap && unseenMap[selected.value] != 0 {
        unseenMap := unseenMap[selected.value := 0];
      }
    }

    /** The search box's `onChange`. */
    method SetSearchQuery(query: string)
      modifies this`searchQuery
      ensures searchQuery == query
    {
      searchQuery := query;
    }
  }

  /** Opening a conversation removes its badge and leaves the other badges and the list
      alone. */
  method OpenConversation(s: SidebarState, selected: UserId, other: UserId)
    requires other != selected
    modifies s
    ensures s.Badge(selected) == ""
    ensures s.Badge(other) == old(s.Badge(other))
    ensures s.Visible() == old(s.Visible())
  {
    ghost var before := s.unseenMap;
    s.SelectFriend(Some(selected));
    ClearUnseenBadges(before, selected, other);
  }
}
