/** The friends page of client/src/pages/FriendsPage.jsx: the user search with its
    `isFriend` annotation, and the local removals from the result and request lists once
    the server has accepted a send, accept or reject. */
module FriendsView {
  import opened Seqs
  import opened Text
  import opened Store
  import FriendState

  /** A search result: the user with the `isFriend` flag the page adds. */
  datatype Hit = Hit(user: User, isFriend: bool)

  /** `friends.some((friend) => friend._id === id)`. */
  predicate HasId(friends: seq<User>, id: UserId) {
    exists j :: 0 <= j < |friends| && friends[j].id == id
  }

  /** `data.users.map(user => ({...user, isFriend: ...}))`. */
  function Annotate(users: seq<User>, friends: seq<User>): (r: seq<Hit>)
    ensures |r| == |users|
    ensures forall i :: 0 <= i < |users| ==> r[i].user == users[i] && (r[i].isFriend <==> HasId(friends, users[i].id))
  {
    seq(|users|, i requires 0 <= i < |users| => Hit(users[i], HasId(friends, users[i].id)))
  }

  /** The server's search never returns a friend of the caller, so as long as the local
      friends list holds only the caller's friends, no result is flagged as a friend. */
  lemma SearchFlagsNoFriend(users: map<UserId, User>, order: seq<UserId>, userId: UserId, query: Option<string>, friends: seq<User>)
    requires FriendState.SearchUsers(users, order, userId, query).Ok?
    requires forall j :: 0 <= j < |friends| ==> friends[j].id in users[userId].friends
    ensures forall h :: h in Annotate(FriendState.SearchUsers(users, order, userId, query).value, friends) ==> !h.isFriend
  {
    var found := FriendState.SearchUsers(users, order, userId, query).value;
    FriendState.SearchExcludes(users, order, userId, query);
    var r := Annotate(found, friends);
    forall h | h in r ensures !h.isFriend {
      var i :| 0 <= i < |r| && r[i] == h;
      assert found[i] in found;
    }
  }

  /** `prev.filter((user) => user._id !== userId)`. */
  function WithoutUser(results: seq<Hit>, userId: UserId): (r: seq<Hit>)
    ensures forall h :: h in r <==> h in results && h.user.id != userId
  {
    Filter(results, (h: Hit) => h.user.id != userId)
  }

  /** A user listed once is removed and nothing else moves. */
  lemma WithoutUserRemovesOne(results: seq<Hit>, i: nat)
    requires i < |results|
    requires forall j :: 0 <= j < |results| && j != i ==> results[j].user.id != results[i].user.id
    ensures WithoutUser(results, results[i].user.id) == results[..i] + results[i + 1..]
  {
    FilterRemovesOne(results, i, (h: Hit) => h.user.id != results[i].user.id);
  }

  /** A user not listed leaves the results as they are. */
  lemma WithoutUserAbsent(results: seq<Hit>, userId: UserId)
    requires forall j :: 0 <= j < |results| ==> results[j].user.id != userId
    ensures WithoutUser(results, userId) == results
  {
    FilterKeepsAll(results, (h: Hit) => h.user.id != userId);
  }

  /** `prev.filter((req) => req._id !== requestId)`. */
  function WithoutRequest(requests: seq<FriendRequest>, requestId: nat): (r: seq<FriendRequest>)
    ensures forall x :: x in r <==> x in requests && x.id != requestId
  {
    Filter(requests, (x: FriendRequest) => x.id != requestId)
  }

  /** A request listed once is removed, nothing else moves, and the badge drops by one. */
  lemma WithoutRequestRemovesOne(requests: seq<FriendRequest>, i: nat)
    requires i < |requests|
    requires forall j :: 0 <= j < |requests| && j != i ==> requests[j].id != requests[i].id
    ensures WithoutRequest(requests, requests[i].id) == requests[..i] + requests[i + 1..]
    ensures |WithoutRequest(requests, requests[i].id)| == |requests| - 1
  {
    FilterRemovesOne(requests, i, (x: FriendRequest) => x.id != requests[i].id);
  }

  /** The tab's badge: the number of requests, shown only when there are some. */
  function RequestBadge(requests: seq<FriendRequest>): (r: Option<nat>)
    ensures r.Some? <==> |requests| > 0
    ensures r.Some? ==> r.value == |requests|
  {
    if |requests| > 0 then Some(|requests|) else None
  }

  /** The URL of the search request: the query text is put into it as it is, without
      URL encoding. */
  function SearchUrl(query: string): (r: string)
    ensures |r| == 26 + |query| + 20
    ensures r[..26] == "/api/friends/search?query=" && r[26..26 + |query|] == query
    ensures r[26 + |query|..] == "&includeFriends=true"
  {
    "/api/friends/search?query=" + query + "&includeFriends=true"
  }

  /** The page's list state cells. */
  class FriendsPageState {
    var searchQuery: string
    var searchResults: seq<Hit>
    var friendRequests: seq<FriendRequest>
    var friends: seq<User>
    var loading: bool

    constructor ()
      ensures searchQuery == "" && searchResults == [] && friendRequests == [] && friends == [] && !loading
    {
      searchQuery, searchResults, friendRequests, friends, loading := "", [], [], [], false;
    }

    /** `searchUsers`: a blank query empties the results and sends nothing (`request` is
        None); otherwise the request goes to the URL holding the query text unencoded,
        and a success answer becomes the annotated results. */
    method SearchUsers(reply: Reply<seq<User>>) returns (request: Option<string>)
      modifies this`searchResults, this`loading
      ensures request == if Blank(searchQuery) then None else Some(SearchUrl(searchQuery))
      ensures request.None? ==> searchResults == []
      ensures request.Some? && reply.Answered? && reply.success ==> searchResults == Annotate(reply.data, friends)
      ensures request.Some? && !(reply.Answered? && reply.success) ==> searchResults == old(searchResults)
      ensures request.Some? ==> !loading
      ensures request.None? ==> loading == old(loading)
    {
      if Blank(searchQuery) {
        searchResults := [];
        return None;
      }
      request := Some(SearchUrl(searchQuery));
      loading := true;
      if reply.Answered? && reply.success {
        searchResults := Annotate(reply.data, friends);
      }
      loading := false;
    }

    /** `sendFriendRequest(userId)`: a success answer drops that user from the results. */
    method OnSendReply(userId: UserId, reply: Reply<()>)
      modifies this`searchResults
      ensures searchResults == if reply.Answered? && reply.success then WithoutUser(old(searchResults), userId) else old(searchResults)
    {
      if reply.Answered? && reply.success {
        searchResults := WithoutUser(searchResults, userId);
      }
    }

    /** `acceptFriendRequest(requestId)` and `rejectFriendRequest(requestId)` update the
        list alike: a success answer drops that request. */
    method OnAnswerReply(requestId: nat, reply: Reply<()>)
      modifies this`friendRequests
      ensures friendRequests == if reply.Answered? && reply.success then WithoutRequest(old(friendRequests), requestId) else old(friendRequests)
    {
      if reply.Answered? && reply.success {
        friendRequests := WithoutRequest(friendRequests, requestId);
      }
    }

    /** `getFriendRequests`: a success answer replaces the list. */
    method OnRequestsReply(reply: Reply<seq<FriendRequest>>)
      modifies this`friendRequests
      ensures friendRequests == if reply.Answered? && reply.success then reply.data else old(friendRequests)
    {
      if reply.Answered? && reply.success {
        friendRequests := reply.data;
      }
    }

    /** `getFriends` (GET /api/friends): a success answer replaces the list. */
    method OnFriendsReply(reply: Reply<seq<User>>)
      modifies this`friends
      ensures friends == if reply.Answered? && reply.success then reply.data else old(friends)
    {
      if reply.Answered? && reply.success {
        friends := reply.data;
      }
    }

    /** The search box's `onChange`. */
    method SetSearchQuery(query: string)
      modifies this`searchQuery
      ensures searchQuery == query
    {
      searchQuery := query;
    }
  }
}
