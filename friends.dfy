/** The friend-graph rules of backend/src/controllers/friend.controller.js.
    Each user document carries two arrays of user ids: `friends`, and
    `friendRequests`, the users who have asked to befriend that user. The
    controller changes them with `push` + `save`, `$pull` (remove every
    occurrence) and `$addToSet` (append unless present), through
    `findByIdAndUpdate`, which does nothing for an id with no document.
    A document may lack either field: reading a missing field as an array
    throws (a 500 reply), `$pull` on it does nothing and `$addToSet`
    creates it.

    The rules are first stated as functions over a `Graph` value; the
    class `FriendStore` then performs them in place on its fields. */
module Friends {
  import opened Common

  /** The 400 replies. */
  datatype Refusal = SelfRequest | AlreadyFriends | AlreadyRequested | NoRequestFound

  /** The HTTP replies: 200, 400 with a reason, 404, and 500 (an exception
      caught by the handler). */
  datatype Reply = Ok | BadRequest(reason: Refusal) | NotFound | ServerError

  /** No user id appears twice in a list. */
  predicate NoDup(s: seq<UserId>)
  {
    forall i, j :: 0 <= i < j < |s| ==> s[i] != s[j]
  }

  /** `$pull`: removes every occurrence of `x`, keeping the rest in order. */
  function Pull(s: seq<UserId>, x: UserId): (r: seq<UserId>)
    ensures forall y :: y in r <==> y in s && y != x
    ensures |r| <= |s|
    ensures x !in s ==> r == s
    ensures NoDup(s) ==> NoDup(r)
    ensures s == [] ==> r == []
    ensures |s| == 1 ==> r == (if s[0] == x then [] else s)
  {
    if s == [] then []
    else if s[0] == x then
      NoDupTail(s);
      Pull(s[1..], x)
    else
      NoDupTail(s);
      var rest := Pull(s[1..], x);
      NoDupCons(s[0], rest);
      [s[0]] + rest
  }

  /** The tail of a duplicate-free list is duplicate-free and lacks the head. */
  lemma NoDupTail(s: seq<UserId>)
    requires s != []
    ensures NoDup(s) ==> NoDup(s[1..]) && s[0] !in s[1..]
  {
    if NoDup(s) {
      forall i, j | 0 <= i < j < |s| - 1 ensures s[1..][i] != s[1..][j] {
        assert s[1..][i] == s[i + 1] && s[1..][j] == s[j + 1];
      }
      forall k | 0 <= k < |s| - 1 ensures s[1..][k] != s[0] {
        assert s[1..][k] == s[k + 1];
      }
    }
  }

  /** Putting a new id in front of a duplicate-free list keeps it so. */
  lemma NoDupCons(a: UserId, t: seq<UserId>)
    ensures a !in t && NoDup(t) ==> NoDup([a] + t)
  {
    if a !in t && NoDup(t) {
      var s := [a] + t;
      forall i, j | 0 <= i < j < |s| ensures s[i] != s[j] {
        assert s[j] == t[j - 1];
        if i > 0 { assert s[i] == t[i - 1]; }
      }
    }
  }

  /** `$pull` works element by element: pulling from two lists joined is
      joining the two pulls, so what remains keeps its order. */
  lemma {:induction false} PullConcat(a: seq<UserId>, b: seq<UserId>, x: UserId)
    ensures Pull(a + b, x) == Pull(a, x) + Pull(b, x)
  {
    if a == [] {
      assert a + b == b;
    } else {
      assert (a + b)[0] == a[0] && (a + b)[1..] == a[1..] + b;
      PullConcat(a[1..], b, x);
    }
  }

  /** `$addToSet`: appends `x` unless it is already there. */
  function AddToSet(s: seq<UserId>, x: UserId): (r: seq<UserId>)
    ensures forall y :: y in r <==> y in s || y == x
    ensures x in s ==> r == s
    ensures x !in s ==> r == s + [x]
    ensures |r| <= |s| + 1
    ensures NoDup(s) ==> NoDup(r)
  {
    if x in s then s else s + [x]
  }

  /** A user's list, or the empty list when the user's document has no
      such field (the `|| []` the controller writes). */
  function ListOf(lists: map<UserId, seq<UserId>>, u: UserId): (r: seq<UserId>)
    ensures u in lists ==> r == lists[u]
    ensures u !in lists ==> r == []
  {
    if u in lists then lists[u] else []
  }

  /** `findByIdAndUpdate(u, { $pull: { list: x } })`. */
  function PullAt(lists: map<UserId, seq<UserId>>, u: UserId, x: UserId): (r: map<UserId, seq<UserId>>)
    ensures r.Keys == lists.Keys
    ensures u in lists ==> r[u] == Pull(lists[u], x)
    ensures forall v :: v in lists && v != u ==> r[v] == lists[v]
  {
    if u in lists then lists[u := Pull(lists[u], x)] else lists
  }

  /** `findByIdAndUpdate(u, { $addToSet: { list: x } })`: nothing for an
      id with no document; a document without the list gets `[x]`. */
  function AddAt(users: set<UserId>, lists: map<UserId, seq<UserId>>, u: UserId, x: UserId): (r: map<UserId, seq<UserId>>)
    ensures r.Keys == if u in users then lists.Keys + {u} else lists.Keys
    ensures u in users && u in lists ==> r[u] == AddToSet(lists[u], x)
    ensures u in users && u !in lists ==> r[u] == [x]
    ensures forall v :: v in lists && (v != u || u !in users) ==> r[v] == lists[v]
  {
    if u in users then lists[u := AddToSet(ListOf(lists, u), x)] else lists
  }

  /** The user collection: which ids have documents, and their two lists. */
  datatype Graph = Graph(users: set<UserId>, friends: map<UserId, seq<UserId>>, requests: map<UserId, seq<UserId>>)

  /** The invariants the rules keep: every user has both lists; no list
      repeats an id or names its owner; friendship is symmetric; lists
      name only users. */
  ghost predicate Valid(g: Graph)
  {
    && g.friends.Keys == g.users
    && g.requests.Keys == g.users
    && CleanLists(g.friends)
    && CleanLists(g.requests)
    && Symmetric(g.friends)
    && NamesUsers(g.requests, g.users)
  }

  /** No list repeats an id or names its owner. */
  ghost predicate CleanLists(lists: map<UserId, seq<UserId>>)
  {
    forall u :: u in lists ==> NoDup(lists[u]) && u !in lists[u]
  }

  /** Whoever is in my friends has me in theirs. */
  ghost predicate Symmetric(friends: map<UserId, seq<UserId>>)
  {
    forall u, v :: u in friends && v in friends[u] ==> v in friends && u in friends[v]
  }

  /** Every id on a list is a user. */
  ghost predicate NamesUsers(lists: map<UserId, seq<UserId>>, users: set<UserId>)
  {
    forall u, v :: u in lists && v in lists[u] ==> v in users
  }

  /** `sendFriendRequest`: 400 for oneself, 404 for an unknown user, 400 if
      the sender is already among the target's friends or requesters (500
      when the target's document lacks the list read); else the sender is
      appended once to the target's requests and nothing else changes. */
  function SendRequest(g: Graph, me: UserId, target: UserId): (r: (Graph, Reply))
    ensures target == me ==> r.1 == BadRequest(SelfRequest)
    ensures target != me && target !in g.users ==> r.1 == NotFound
    ensures target != me && target in g.users && target !in g.friends ==> r.1 == ServerError
    ensures target != me && target in g.users && target in g.friends && me in g.friends[target]
      ==> r.1 == BadRequest(AlreadyFriends)
    ensures target != me && target in g.users && target in g.friends && me !in g.friends[target] && target !in g.requests
      ==> r.1 == ServerError
    ensures target != me && target in g.users && target in g.friends && me !in g.friends[target]
      && target in g.requests && me in g.requests[target]
      ==> r.1 == BadRequest(AlreadyRequested)
    ensures r.1 == Ok <==>
      target != me && target in g.users && target in g.friends && me !in g.friends[target]
      && target in g.requests && me !in g.requests[target]
    ensures r.1 != Ok ==> r.0 == g
    ensures r.1 == Ok ==>
      r.0.users == g.users && r.0.friends == g.friends
      && r.0.requests == g.requests[target := g.requests[target] + [me]]
  {
    if target == me then (g, BadRequest(SelfRequest))
    else if target !in g.users then (g, NotFound)
    else if target !in g.friends then (g, ServerError)
    else if me in g.friends[target] then (g, BadRequest(AlreadyFriends))
    else if target !in g.requests then (g, ServerError)
    else if me in g.requests[target] then (g, BadRequest(AlreadyRequested))
    else (g.(requests := g.requests[target := g.requests[target] + [me]]), Ok)
  }

  /** `acceptFriendRequest`: 500 when the current user has no document or
      it has no requests list (the handler dereferences null or undefined),
      400 when `other` has not asked; else `other` leaves the current
      user's requests and each becomes the other's friend (the second
      update does nothing when `other` has no document). */
  function AcceptRequest(g: Graph, me: UserId, other: UserId): (r: (Graph, Reply))
    ensures me !in g.users || me !in g.requests ==> r.1 == ServerError
    ensures me in g.users && me in g.requests && other !in g.requests[me] ==> r.1 == BadRequest(NoRequestFound)
    ensures r.1 == Ok <==> me in g.users && me in g.requests && other in g.requests[me]
    ensures r.1 != Ok ==> r.0 == g
    ensures r.1 == Ok ==>
      r.0.users == g.users && r.0.requests == PullAt(g.requests, me, other)
      && r.0.friends.Keys == g.friends.Keys + {me} + (if other in g.users then {other} else {})
      && (forall v :: v in r.0.friends[me] <==> v in ListOf(g.friends, me) || v == other)
      && (other in g.users && other != me ==> forall v :: v in r.0.friends[other] <==> v in ListOf(g.friends, other) || v == me)
      && (forall u :: u in g.friends && u != me && (u != other || other !in g.users) ==> r.0.friends[u] == g.friends[u])
  {
    if me !in g.users || me !in g.requests then (g, ServerError)
    else if other !in g.requests[me] then (g, BadRequest(NoRequestFound))
    else
      var friends1 := AddAt(g.users, g.friends, me, other);
      (Graph(g.users, AddAt(g.users, friends1, other, me), PullAt(g.requests, me, other)), Ok)
  }

  /** `rejectFriendRequest`: `other` leaves the current user's requests;
      always 200. */
  function RejectRequest(g: Graph, me: UserId, other: UserId): (r: (Graph, Reply))
    ensures r.1 == Ok
    ensures r.0.users == g.users && r.0.friends == g.friends
    ensures r.0.requests.Keys == g.requests.Keys
    ensures forall u :: u in g.requests && u != me ==> r.0.requests[u] == g.requests[u]
    ensures me in g.requests ==> forall v :: v in r.0.requests[me] <==> v in g.requests[me] && v != other
  {
    (g.(requests := PullAt(g.requests, me, other)), Ok)
  }

  /** `removeFriend`: each user leaves the other's friends; always 200. */
  function RemoveFriend(g: Graph, me: UserId, other: UserId): (r: (Graph, Reply))
    ensures r.1 == Ok
    ensures r.0.users == g.users && r.0.requests == g.requests
    ensures r.0.friends.Keys == g.friends.Keys
    ensures me in g.friends && me != other ==> forall v :: v in r.0.friends[me] <==> v in g.friends[me] && v != other
    ensures other in g.friends && other != me ==> forall v :: v in r.0.friends[other] <==> v in g.friends[other] && v != me
    ensures me in g.friends && me == other ==> forall v :: v in r.0.friends[me] <==> v in g.friends[me] && v != me
    ensures forall u :: u in g.friends && u != me && u != other ==> r.0.friends[u] == g.friends[u]
  {
    (g.(friends := PullAt(PullAt(g.friends, me, other), other, me)), Ok)
  }

  /** `getAvailableUsers`: 404 when the current user has no document;
      otherwise every user except the current user, that user's friends
      and the users who have asked to befriend that user. */
  function AvailableUsers(g: Graph, me: UserId): (r: Option<set<UserId>>)
    ensures r.None? <==> me !in g.users
    ensures r.Some? ==> forall u :: u in r.value <==>
      u in g.users && u != me && u !in ListOf(g.friends, me) && u !in ListOf(g.requests, me)
  {
    if me !in g.users then None
    else Some(set u | u in g.users && u != me && u !in ListOf(g.friends, me) && u !in ListOf(g.requests, me))
  }

  /** Sending keeps the invariants, for a sender who is a user (the route
      only serves signed-in users). */
  lemma SendKeepsValid(g: Graph, me: UserId, target: UserId)
    requires Valid(g) && me in g.users
    ensures Valid(SendRequest(g, me, target).0)
  {
    var r := SendRequest(g, me, target);
    if r.1 == Ok {
      var s := g.requests[target] + [me];
      assert NoDup(s) by {
        forall i, j | 0 <= i < j < |s| ensures s[i] != s[j] {
          if j == |s| - 1 { assert s[i] in g.requests[target]; }
        }
      }
    }
  }

  /** Accepting keeps the invariants; in particular friendship stays
      symmetric and no list gains a duplicate. */
  lemma AcceptKeepsValid(g: Graph, me: UserId, other: UserId)
    requires Valid(g)
    ensures Valid(AcceptRequest(g, me, other).0)
  {
    var r := AcceptRequest(g, me, other);
    if r.1 == Ok {
      assert other in g.users && other != me;
      var f1 := AddAt(g.users, g.friends, me, other);
      AddAtClean(g.users, g.friends, me, other);
      AddAtClean(g.users, f1, other, me);
      PullAtClean(g.requests, me, other);
      PullAtNames(g.requests, g.users, me, other);
      var f := r.0.friends;
      forall u, v | u in f && v in f[u] ensures v in f && u in f[v] {
        if u == me {
          if v != other { assert v in g.friends[me]; }
        } else if u == other {
          if v != me { assert v in g.friends[other]; }
        } else {
          assert v in g.friends[u];
        }
      }
    }
  }

  /** `$pull` at one user keeps the lists clean. */
  lemma PullAtClean(lists: map<UserId, seq<UserId>>, u: UserId, x: UserId)
    requires CleanLists(lists)
    ensures CleanLists(PullAt(lists, u, x))
  {
  }

  /** `$pull` at one user keeps the lists naming users only. */
  lemma PullAtNames(lists: map<UserId, seq<UserId>>, users: set<UserId>, u: UserId, x: UserId)
    requires NamesUsers(lists, users)
    ensures NamesUsers(PullAt(lists, u, x), users)
  {
  }

  /** `$addToSet` of someone else keeps the lists clean. */
  lemma AddAtClean(users: set<UserId>, lists: map<UserId, seq<UserId>>, u: UserId, x: UserId)
    requires CleanLists(lists) && x != u
    ensures CleanLists(AddAt(users, lists, u, x))
  {
  }

  /** Rejecting keeps the invariants. */
  lemma RejectKeepsValid(g: Graph, me: UserId, other: UserId)
    requires Valid(g)
    ensures Valid(RejectRequest(g, me, other).0)
  {
    PullAtClean(g.requests, me, other);
    PullAtNames(g.requests, g.users, me, other);
  }

  /** Removing keeps the invariants; friendship stays symmetric. */
  lemma RemoveKeepsValid(g: Graph, me: UserId, other: UserId)
    requires Valid(g)
    ensures Valid(RemoveFriend(g, me, other).0)
  {
    PullAtClean(g.friends, me, other);
    PullAtClean(PullAt(g.friends, me, other), other, me);
    UnfriendSymmetric(g.friends, me, other);
  }

  /** Taking each of two users out of the other's friends keeps
      friendship symmetric. */
  lemma UnfriendSymmetric(f: map<UserId, seq<UserId>>, a: UserId, b: UserId)
    requires Symmetric(f)
    ensures Symmetric(PullAt(PullAt(f, a, b), b, a))
  {
    var f1 := PullAt(f, a, b);
    var f2 := PullAt(f1, b, a);
    forall u, v | u in f2 && v in f2[u] ensures v in f2 && u in f2[v] {
      assert v in f[u];
      assert u in f[v];
      if v == a || v == b {
        assert !(u == a && v == b) && !(u == b && v == a);
      }
    }
  }

  /** Rejecting twice is rejecting once. */
  lemma RejectIdempotent(g: Graph, me: UserId, other: UserId)
    ensures RejectRequest(RejectRequest(g, me, other).0, me, other) == RejectRequest(g, me, other)
  {
    if me in g.requests {
      PullIdempotent(g.requests[me], other);
      var r1 := RejectRequest(g, me, other).0.requests;
      var r2 := RejectRequest(RejectRequest(g, me, other).0, me, other).0.requests;
      assert r2 == r1;
    }
  }

  /** Removing twice is removing once. */
  lemma RemoveIdempotent(g: Graph, me: UserId, other: UserId)
    ensures RemoveFriend(RemoveFriend(g, me, other).0, me, other) == RemoveFriend(g, me, other)
  {
    var f1 := RemoveFriend(g, me, other).0.friends;
    var f2 := RemoveFriend(RemoveFriend(g, me, other).0, me, other).0.friends;
    forall u | u in f1 ensures f2[u] == f1[u] {
      if u == me || u == other {
        PullIdempotent(f1[u], if u == me then other else me);
      }
    }
    assert f2 == f1;
  }

  /** Either party may remove the friendship, with the same outcome. */
  lemma RemoveSymmetric(g: Graph, a: UserId, b: UserId)
    ensures RemoveFriend(g, a, b) == RemoveFriend(g, b, a)
  {
    var f1 := RemoveFriend(g, a, b).0.friends;
    var f2 := RemoveFriend(g, b, a).0.friends;
    assert f1.Keys == f2.Keys;
    forall u | u in f1 ensures f1[u] == f2[u] {
    }
    assert f1 == f2;
  }

  /** Removing an absent id leaves a list as it is, so `$pull` is
      idempotent. */
  lemma PullIdempotent(s: seq<UserId>, x: UserId)
    ensures Pull(Pull(s, x), x) == Pull(s, x)
  {
  }

  /** Accept makes the two users friends on both sides and clears the
      request, starting from a consistent graph. */
  lemma AcceptBefriends(g: Graph, me: UserId, other: UserId)
    requires Valid(g) && me in g.users && other in g.requests[me]
    ensures var r := AcceptRequest(g, me, other);
      r.1 == Ok && other in r.0.friends[me] && me in r.0.friends[other] && other !in r.0.requests[me]
  {
  }

  /** After an accept, the new friend is no longer offered as available,
      and neither is any remaining requester. */
  lemma AcceptedNotAvailable(g: Graph, me: UserId, other: UserId)
    requires Valid(g) && me in g.users && other in g.requests[me]
    ensures other !in AvailableUsers(g, me).value
    ensures other !in AvailableUsers(AcceptRequest(g, me, other).0, me).value
  {
  }

  /** The user collection, updated in place by the controller. */
  class FriendStore {
    var users: set<UserId>
    var friends: map<UserId, seq<UserId>>
    var friendRequests: map<UserId, seq<UserId>>

    function Snapshot(): (g: Graph)
      reads this
      ensures g.users == users && g.friends == friends && g.requests == friendRequests
    {
      Graph(users, friends, friendRequests)
    }

    ghost predicate Consistent()
      reads this
    {
      Valid(Snapshot())
    }

    constructor (ids: set<UserId>)
      ensures Consistent() && users == ids
      ensures forall u :: u in ids ==> friends[u] == [] && friendRequests[u] == []
    {
      users := ids;
      friends := map u | u in ids :: [];
      friendRequests := map u | u in ids :: [];
    }

    /** `sendFriendRequest(target)` by the signed-in user `me`. */
    method SendFriendRequest(me: UserId, target: UserId) returns (reply: Reply)
      requires Consistent() && me in users
      modifies this
      ensures Consistent()
      ensures (Snapshot(), reply) == SendRequest(old(Snapshot()), me, target)
    {
      SendKeepsValid(Snapshot(), me, target);
      if target == me {
        return BadRequest(SelfRequest);
      }
      if target !in users {
        return NotFound;
      }
      var userToAdd := friendRequests[target];
      if me in friends[target] {
        return BadRequest(AlreadyFriends);
      }
      if me in userToAdd {
        return BadRequest(AlreadyRequested);
      }
      friendRequests := friendRequests[target := userToAdd + [me]];
      reply := Ok;
    }

    /** `acceptFriendRequest(other)` by `me`. */
    method AcceptFriendRequest(me: UserId, other: UserId) returns (reply: Reply)
      requires Consistent()
      modifies this
      ensures Consistent()
      ensures (Snapshot(), reply) == AcceptRequest(old(Snapshot()), me, other)
    {
      AcceptKeepsValid(Snapshot(), me, other);
      if me !in users {
        return ServerError;
      }
      if other !in friendRequests[me] {
        return BadRequest(NoRequestFound);
      }
      friendRequests := friendRequests[me := Pull(friendRequests[me], other)];
      friends := friends[me := AddToSet(friends[me], other)];
      if other in users {
        friends := friends[other := AddToSet(friends[other], me)];
      }
      reply := Ok;
    }

    /** `rejectFriendRequest(other)` by `me`. */
    method RejectFriendRequest(me: UserId, other: UserId) returns (reply: Reply)
      requires Consistent()
      modifies this
      ensures Consistent()
      ensures (Snapshot(), reply) == RejectRequest(old(Snapshot()), me, other)
    {
      RejectKeepsValid(Snapshot(), me, other);
      if me in friendRequests {
        friendRequests := friendRequests[me := Pull(friendRequests[me], other)];
      }
      reply := Ok;
    }

    /** `removeFriend(other)` by `me`. */
    method RemoveFriendOf(me: UserId, other: UserId) returns (reply: Reply)
      requires Consistent()
      modifies this
      ensures Consistent()
      ensures (Snapshot(), reply) == RemoveFriend(old(Snapshot()), me, other)
    {
      RemoveKeepsValid(Snapshot(), me, other);
      if me in friends {
        friends := friends[me := Pull(friends[me], other)];
      }
      if other in friends {
        friends := friends[other := Pull(friends[other], me)];
      }
      reply := Ok;
    }
  }
}
