/** The search filter and loading flag of frontend/src/pages/ConnectPage.jsx.
    Case folding is ASCII only (`toLowerCase` on letters A-Z). */
module ConnectPage {
  import opened Common

  /** The user fields the page lists and searches. */
  datatype User = User(id: UserId, fullName: string, email: string, profilePic: string)

  function LowerChar(c: char): (d: char)
    ensures 'A' <= c <= 'Z' ==> d as int == c as int + 32
    ensures !('A' <= c <= 'Z') ==> d == c
  {
    if 'A' <= c <= 'Z' then (c as int + 32) as char else c
  }

  /** `s.toLowerCase()`, character by character. */
  function Lower(s: string): (r: string)
    ensures |r| == |s| && forall i :: 0 <= i < |s| ==> r[i] == LowerChar(s[i])
  {
    seq(|s|, i requires 0 <= i < |s| => LowerChar(s[i]))
  }

  /** `hay.includes(needle)`, searching from the front: the needle is a
      prefix of the text or occurs in the text after its first character. */
  predicate Includes(hay: string, needle: string)
    ensures Includes(hay, needle) ==> |needle| <= |hay|
    decreases |hay|
  {
    (|needle| <= |hay| && hay[..|needle|] == needle) || (hay != [] && Includes(hay[1..], needle))
  }

  /** The needle sits in the text at position `i`. */
  predicate OccursAt(hay: string, needle: string, i: int)
  {
    0 <= i <= |hay| - |needle| && hay[i..i + |needle|] == needle
  }

  /** The search agrees with the definition of a substring: the needle
      occurs at some position of the text. */
  lemma {:induction false} IncludesIffOccurs(hay: string, needle: string)
    ensures Includes(hay, needle) <==> exists i :: OccursAt(hay, needle, i)
    decreases |hay|
  {
    if hay != [] {
      IncludesIffOccurs(hay[1..], needle);
      if i :| OccursAt(hay[1..], needle, i) {
        assert hay[1..][i..i + |needle|] == hay[i + 1..i + 1 + |needle|];
        assert OccursAt(hay, needle, i + 1);
      }
      if i :| OccursAt(hay, needle, i) && i > 0 {
        assert hay[1..][i - 1..i - 1 + |needle|] == hay[i..i + |needle|];
        assert OccursAt(hay[1..], needle, i - 1);
      }
    }
    if |needle| <= |hay| && hay[..|needle|] == needle {
      assert OccursAt(hay, needle, 0);
    }
  }

  /** The filter's test: the lowercased term occurs in the lowercased
      full name or the lowercased email. */
  predicate Matches(u: User, term: string)
    ensures term == "" ==> Matches(u, term)
    ensures Matches(u, term) ==> |term| <= |u.fullName| || |term| <= |u.email|
  {
    Includes(Lower(u.fullName), Lower(term)) || Includes(Lower(u.email), Lower(term))
  }

  /** `users.filter(user => Matches(user, term))`. */
  function KeepMatching(users: seq<User>, term: string): (r: seq<User>)
    ensures |r| <= |users|
    ensures forall u :: u in r ==> Matches(u, term)
    ensures forall u :: multiset(r)[u] == if Matches(u, term) then multiset(users)[u] else 0
  {
    if users == [] then []
    else
      var rest := KeepMatching(users[1..], term);
      assert users == [users[0]] + users[1..];
      if Matches(users[0], term) then [users[0]] + rest else rest
  }

  /** `filterUsersBySearch`: an empty term returns the list itself;
      otherwise the matching users. */
  function FilterUsersBySearch(users: seq<User>, searchTerm: string): (r: seq<User>)
    ensures searchTerm == "" ==> r == users
    ensures forall u :: u in r ==> u in users && Matches(u, searchTerm)
    ensures forall u :: u in users && Matches(u, searchTerm) ==> u in r
  {
    if searchTerm == "" then users else KeepMatching(users, searchTerm)
  }

  /** `a` is `b` with some elements left out and the rest in order. */
  ghost predicate IsSubsequence(a: seq<User>, b: seq<User>)
    decreases |b|
  {
    a == [] || (b != [] && ((a[0] == b[0] && IsSubsequence(a[1..], b[1..])) || IsSubsequence(a, b[1..])))
  }

  /** The filter keeps the order of the list it is given. */
  lemma {:induction false} KeepMatchingInOrder(users: seq<User>, term: string)
    ensures IsSubsequence(KeepMatching(users, term), users)
  {
    if users != [] {
      KeepMatchingInOrder(users[1..], term);
      var rest := KeepMatching(users[1..], term);
      if Matches(users[0], term) {
        assert ([users[0]] + rest)[1..] == rest;
      }
    }
  }

  /** The search result is an order-preserving sublist of the input. */
  lemma SearchPreservesOrder(users: seq<User>, searchTerm: string)
    ensures IsSubsequence(FilterUsersBySearch(users, searchTerm), users)
  {
    if searchTerm == "" {
      SubsequenceOfItself(users);
    } else {
      KeepMatchingInOrder(users, searchTerm);
    }
  }

  lemma {:induction false} SubsequenceOfItself(s: seq<User>)
    ensures IsSubsequence(s, s)
  {
    if s != [] {
      SubsequenceOfItself(s[1..]);
    }
  }

  /** Every text includes the empty text. */
  lemma IncludesEmpty(hay: string)
    ensures Includes(hay, "")
  {
  }

  /** The early return for an empty term changes nothing: the filter with
      an empty term would keep every user. */
  lemma {:induction false} EmptyTermKeepsAll(users: seq<User>)
    ensures KeepMatching(users, "") == users
  {
    if users != [] {
      IncludesEmpty(Lower(users[0].fullName));
      assert Lower("") == "";
      EmptyTermKeepsAll(users[1..]);
    }
  }

  /** Searching the result again with the same term changes nothing. */
  lemma {:induction false} KeepMatchingIdempotent(users: seq<User>, term: string)
    ensures KeepMatching(KeepMatching(users, term), term) == KeepMatching(users, term)
  {
    if users != [] {
      KeepMatchingIdempotent(users[1..], term);
      var rest := KeepMatching(users[1..], term);
      if Matches(users[0], term) {
        assert ([users[0]] + rest)[1..] == rest;
      }
    }
  }

  lemma SearchIdempotent(users: seq<User>, searchTerm: string)
    ensures FilterUsersBySearch(FilterUsersBySearch(users, searchTerm), searchTerm)
         == FilterUsersBySearch(users, searchTerm)
  {
    if searchTerm != "" {
      KeepMatchingIdempotent(users, searchTerm);
    }
  }

  /** The page's three tabs. */
  datatype Tab = Available | Friends | Requests

  /** `isLoading`: the loading flag of the active tab. */
  function IsLoading(activeTab: Tab, loadingAvailable: bool, loadingFriends: bool, loadingRequests: bool): (r: bool)
    ensures activeTab == Available ==> (r <==> loadingAvailable)
    ensures activeTab == Friends ==> (r <==> loadingFriends)
    ensures activeTab == Requests ==> (r <==> loadingRequests)
  {
    (activeTab == Available && loadingAvailable)
    || (activeTab == Friends && loadingFriends)
    || (activeTab == Requests && loadingRequests)
  }
}
