/** The user search: a conjunctive filter on search term, role and location, a sort by the
    chosen column, resetting the controls, and the distinct roles and locations offered as
    filter choices. Case folding, `localeCompare` and date parsing are parameters. */
module SearchFilter {
  import opened Text

  /** A user row. Ratings are kept in tenths of a star (4.8 is 48); the avatar is not modelled. */
  datatype User = User(id: int, name: string, email: string, role: string, location: string,
                       joinDate: string, rating: int)

  const Users: seq<User> := [
    User(1, "Alice Johnson", "alice@example.com", "Developer", "New York", "2023-01-15", 48),
    User(2, "Bob Smith", "bob@example.com", "Designer", "San Francisco", "2023-02-20", 46),
    User(3, "Charlie Brown", "charlie@example.com", "Manager", "Chicago", "2023-01-10", 49),
    User(4, "Diana Prince", "diana@example.com", "Developer", "Seattle", "2023-03-05", 47),
    User(5, "Edward Norton", "edward@example.com", "QA Engineer", "Boston", "2023-02-15", 45),
    User(6, "Fiona Apple", "fiona@example.com", "Designer", "Los Angeles", "2023-01-25", 48),
    User(7, "George Lucas", "george@example.com", "Manager", "Austin", "2023-02-28", 44),
    User(8, "Helen Keller", "helen@example.com", "Developer", "Miami", "2023-03-10", 49)
  ]

  /** The three conditions of the filter callback; an empty role or location filter is falsy and
      lets every user through. `lower` is the case mapping `toLowerCase` applies per character. */
  predicate Matches(lower: char -> char, u: User, searchTerm: string, roleFilter: string, locationFilter: string) {
    && (Contains(Lower(lower, u.name), Lower(lower, searchTerm))
        || Contains(Lower(lower, u.email), Lower(lower, searchTerm)))
    && (roleFilter == "" || u.role == roleFilter)
    && (locationFilter == "" || u.location == locationFilter)
  }

  /** `users.filter(...)`: exactly the users that match, never more often than in the input. */
  function Filter(lower: char -> char, users: seq<User>, searchTerm: string, roleFilter: string, locationFilter: string): (r: seq<User>)
    ensures forall u :: u in r <==> u in users && Matches(lower, u, searchTerm, roleFilter, locationFilter)
    ensures multiset(r) <= multiset(users)
    ensures |r| <= |users|
  {
    if users == [] then []
    else
      var rest := Filter(lower, users[1..], searchTerm, roleFilter, locationFilter);
      assert users == [users[0]] + users[1..];
      if Matches(lower, users[0], searchTerm, roleFilter, locationFilter) then [users[0]] + rest else rest
  }

  /** Each matching user is kept as often as it occurs in the input, and no other user is. */
  lemma {:induction false} FilterCounts(lower: char -> char, users: seq<User>, searchTerm: string, roleFilter: string, locationFilter: string, u: User)
    ensures multiset(Filter(lower, users, searchTerm, roleFilter, locationFilter))[u]
         == if Matches(lower, u, searchTerm, roleFilter, locationFilter) then multiset(users)[u] else 0
  {
    if users != [] {
      assert users == [users[0]] + users[1..];
      FilterCounts(lower, users[1..], searchTerm, roleFilter, locationFilter, u);
    }
  }

  /** Filtering works piecewise, so the users kept stay in their original order. */
  lemma {:induction false} FilterAppend(lower: char -> char, a: seq<User>, b: seq<User>, searchTerm: string, roleFilter: string, locationFilter: string)
    ensures Filter(lower, a + b, searchTerm, roleFilter, locationFilter)
         == Filter(lower, a, searchTerm, roleFilter, locationFilter) + Filter(lower, b, searchTerm, roleFilter, locationFilter)
  {
    if a == [] {
      assert a + b == b;
    } else {
      assert (a + b)[1..] == a[1..] + b;
      FilterAppend(lower, a[1..], b, searchTerm, roleFilter, locationFilter);
    }
  }

  /** With no search term and no filters every user is listed. */
  lemma {:induction false} EmptyFilterKeepsAll(lower: char -> char, users: seq<User>)
    ensures Filter(lower, users, "", "", "") == users
  {
    if users != [] {
      var u := users[0];
      assert OccursAt(Lower(lower, u.name), Lower(lower, ""), 0);
      EmptyFilterKeepsAll(lower, users[1..]);
    }
  }

  // ---------------------------------------------------------------------------------------------
  // Sorting

  /** `cmp(x, y) <= 0` puts `x` first; a consistent comparator never asks for both orders. */
  ghost predicate Total(cmp: (User, User) -> int) {
    forall x, y :: cmp(x, y) <= 0 || cmp(y, x) <= 0
  }

  ghost predicate Transitive(cmp: (User, User) -> int) {
    forall x, y, z :: cmp(x, y) <= 0 && cmp(y, z) <= 0 ==> cmp(x, z) <= 0
  }

  ghost predicate AdjacentOrdered(s: seq<User>, cmp: (User, User) -> int) {
    forall k :: 0 < k < |s| ==> cmp(s[k - 1], s[k]) <= 0
  }

  ghost predicate Ordered(s: seq<User>, cmp: (User, User) -> int) {
    forall i, j :: 0 <= i < j < |s| ==> cmp(s[i], s[j]) <= 0
  }

  /** With a transitive comparator, neighbours in order means every pair in order. */
  lemma AdjacentToOrdered(s: seq<User>, cmp: (User, User) -> int)
    requires Transitive(cmp) && AdjacentOrdered(s, cmp)
    ensures Ordered(s, cmp)
  {
    forall i, j | 0 <= i < j < |s| ensures cmp(s[i], s[j]) <= 0 {
      var k := i + 1;
      while k < j
        invariant i < k <= j
        invariant cmp(s[i], s[k]) <= 0
      {
        k := k + 1;
      }
    }
  }

  /** Exchanges two neighbouring rows. */
  method SwapDown(a: array<User>, j: nat)
    requires 0 < j < a.Length
    modifies a
    ensures a[j - 1] == old(a[j]) && a[j] == old(a[j - 1])
    ensures forall k :: 0 <= k < a.Length && k != j - 1 && k != j ==> a[k] == old(a[k])
    ensures multiset(a[..]) == multiset(old(a[..]))
  {
    a[j - 1], a[j] := a[j], a[j - 1];
  }

  /** One pass of the insertion sort: the row at `i` is swapped down until the row before it is
      not after it, which extends the ordered prefix by one. */
  method InsertNext(a: array<User>, i: nat, cmp: (User, User) -> int)
    requires Total(cmp) && i < a.Length
    requires forall k :: 0 < k < i ==> cmp(a[k - 1], a[k]) <= 0
    modifies a
    ensures forall k :: 0 < k <= i ==> cmp(a[k - 1], a[k]) <= 0
    ensures multiset(a[..]) == multiset(old(a[..]))
  {
    var j := i;
    while j > 0 && cmp(a[j - 1], a[j]) > 0
      invariant 0 <= j <= i
      invariant forall k :: 0 < k <= i && k != j ==> cmp(a[k - 1], a[k]) <= 0
      invariant 0 < j < i ==> cmp(a[j - 1], a[j + 1]) <= 0
      invariant multiset(a[..]) == multiset(old(a[..]))
    {
      SwapDown(a, j);
      j := j - 1;
    }
  }

  /** `filtered.sort(cmp)` in place: an insertion sort that swaps a row down past every row the
      comparator puts after it. */
  method SortInPlace(a: array<User>, cmp: (User, User) -> int)
    requires Total(cmp)
    modifies a
    ensures multiset(a[..]) == multiset(old(a[..]))
    ensures AdjacentOrdered(a[..], cmp)
  {
    var i := 0;
    while i < a.Length
      invariant 0 <= i <= a.Length
      invariant forall k :: 0 < k < i ==> cmp(a[k - 1], a[k]) <= 0
      invariant multiset(a[..]) == multiset(old(a[..]))
    {
      InsertNext(a, i, cmp);
      i := i + 1;
    }
  }

  /** The comparator of the `sortBy` switch. `localeCompare` and `time` (the `Date` value of a
      join date) come from the platform; an unknown column compares everything as equal. */
  function Comparator(sortBy: string, localeCompare: (string, string) -> int, time: string -> int): (User, User) -> int {
    (a: User, b: User) =>
      if sortBy == "name" then localeCompare(a.name, b.name)
      else if sortBy == "role" then localeCompare(a.role, b.role)
      else if sortBy == "location" then localeCompare(a.location, b.location)
      else if sortBy == "joinDate" then time(a.joinDate) - time(b.joinDate)
      else if sortBy == "rating" then b.rating - a.rating
      else 0
  }

  /** `localeCompare` as a total preorder on strings. */
  ghost predicate Preorder(compare: (string, string) -> int) {
    && (forall x, y :: compare(x, y) <= 0 || compare(y, x) <= 0)
    && (forall x, y, z :: compare(x, y) <= 0 && compare(y, z) <= 0 ==> compare(x, z) <= 0)
  }

  /** Whenever `localeCompare` is a total preorder, every column's comparator is one too. */
  lemma ComparatorIsPreorder(sortBy: string, localeCompare: (string, string) -> int, time: string -> int)
    requires Preorder(localeCompare)
    ensures Total(Comparator(sortBy, localeCompare, time))
    ensures Transitive(Comparator(sortBy, localeCompare, time))
  {
    var cmp := Comparator(sortBy, localeCompare, time);
    forall x, y ensures cmp(x, y) <= 0 || cmp(y, x) <= 0 {
      if sortBy == "name" {
        assert localeCompare(x.name, y.name) <= 0 || localeCompare(y.name, x.name) <= 0;
      } else if sortBy == "role" {
        assert localeCompare(x.role, y.role) <= 0 || localeCompare(y.role, x.role) <= 0;
      } else if sortBy == "location" {
        assert localeCompare(x.location, y.location) <= 0 || localeCompare(y.location, x.location) <= 0;
      }
    }
    forall x, y, z | cmp(x, y) <= 0 && cmp(y, z) <= 0 ensures cmp(x, z) <= 0 {
      if sortBy == "name" {
        assert localeCompare(x.name, y.name) <= 0 && localeCompare(y.name, z.name) <= 0;
      } else if sortBy == "role" {
        assert localeCompare(x.role, y.role) <= 0 && localeCompare(y.role, z.role) <= 0;
      } else if sortBy == "location" {
        assert localeCompare(x.location, y.location) <= 0 && localeCompare(y.location, z.location) <= 0;
      }
    }
  }

  /** Sorted by rating means best rated first. */
  lemma RatingOrderIsDescending(s: seq<User>, localeCompare: (string, string) -> int, time: string -> int)
    requires Ordered(s, Comparator("rating", localeCompare, time))
    ensures forall i, j :: 0 <= i < j < |s| ==> s[i].rating >= s[j].rating
  {
    forall i, j | 0 <= i < j < |s| ensures s[i].rating >= s[j].rating {
      assert Comparator("rating", localeCompare, time)(s[i], s[j]) <= 0;
    }
  }

  /** Sorted by name means in `localeCompare` order of the names. */
  lemma NameOrderFollowsLocaleCompare(s: seq<User>, localeCompare: (string, string) -> int, time: string -> int)
    requires Ordered(s, Comparator("name", localeCompare, time))
    ensures forall i, j :: 0 <= i < j < |s| ==> localeCompare(s[i].name, s[j].name) <= 0
  {
    forall i, j | 0 <= i < j < |s| ensures localeCompare(s[i].name, s[j].name) <= 0 {
      assert Comparator("name", localeCompare, time)(s[i], s[j]) <= 0;
    }
  }

  lemma SameMultisetSameMembers(a: seq<User>, b: seq<User>)
    requires multiset(a) == multiset(b)
    ensures forall u :: u in a <==> u in b
  {
    assert forall u :: u in a <==> u in multiset(a);
    assert forall u :: u in b <==> u in multiset(b);
  }

  // ---------------------------------------------------------------------------------------------
  // Distinct roles and locations

  /** Where `x` first occurs in `s`. */
  function FirstIndex(s: seq<string>, x: string): (k: nat)
    requires x in s
    ensures k < |s| && s[k] == x && x !in s[..k]
  {
    if s[0] == x then 0 else 1 + FirstIndex(s[1..], x)
  }

  /** `[...new Set(values)]`: each value once, kept where it first occurs. */
  function Distinct(values: seq<string>): (r: seq<string>)
    ensures forall x :: x in r <==> x in values
    ensures forall i, j :: 0 <= i < j < |r| ==> r[i] != r[j]
  {
    if values == [] then []
    else
      var r := Distinct(values[..|values| - 1]);
      var last := values[|values| - 1];
      assert values == values[..|values| - 1] + [last];
      if last in r then r else r + [last]
  }

  lemma FirstIndexInPrefix(s: seq<string>, n: nat, x: string)
    requires n <= |s| && x in s[..n]
    ensures FirstIndex(s, x) == FirstIndex(s[..n], x)
  {
    var k := FirstIndex(s[..n], x);
    var k' := FirstIndex(s, x);
    assert s[..n][..k] == s[..k];
    assert forall m :: 0 <= m < k ==> s[..k][m] == s[m];
    assert forall m :: 0 <= m < k' ==> s[..k'][m] == s[m];
  }

  /** The distinct values come in the order of their first occurrence. */
  lemma {:induction false} DistinctKeepsFirstOccurrenceOrder(values: seq<string>)
    ensures forall i, j :: 0 <= i < j < |Distinct(values)| ==>
      FirstIndex(values, Distinct(values)[i]) < FirstIndex(values, Distinct(values)[j])
  {
    if values != [] {
      var init := values[..|values| - 1];
      var last := values[|values| - 1];
      var r := Distinct(init);
      DistinctKeepsFirstOccurrenceOrder(init);
      assert init == values[..|values| - 1];
      forall x | x in r ensures FirstIndex(values, x) == FirstIndex(init, x) && FirstIndex(init, x) < |init| {
        FirstIndexInPrefix(values, |values| - 1, x);
      }
      if last !in r {
        assert last !in values[..|values| - 1];
        assert FirstIndex(values, last) == |values| - 1 by {
          assert forall m :: 0 <= m < |values| - 1 ==> values[..|values| - 1][m] == values[m];
        }
      }
    }
  }

  function Roles(users: seq<User>): seq<string> {
    seq(|users|, i requires 0 <= i < |users| => users[i].role)
  }

  function Locations(users: seq<User>): seq<string> {
    seq(|users|, i requires 0 <= i < |users| => users[i].location)
  }

  lemma RolesOfUsers(users: seq<User>)
    ensures forall x :: x in Roles(users) <==> exists u :: u in users && u.role == x
  {
    forall x | x in Roles(users) ensures exists u :: u in users && u.role == x {
      var i :| 0 <= i < |users| && Roles(users)[i] == x;
      assert users[i] in users;
    }
    forall u | u in users ensures u.role in Roles(users) {
      var i :| 0 <= i < |users| && users[i] == u;
      assert Roles(users)[i] == u.role;
    }
  }

  lemma LocationsOfUsers(users: seq<User>)
    ensures forall x :: x in Locations(users) <==> exists u :: u in users && u.location == x
  {
    forall x | x in Locations(users) ensures exists u :: u in users && u.location == x {
      var i :| 0 <= i < |users| && Locations(users)[i] == x;
      assert users[i] in users;
    }
    forall u | u in users ensures u.location in Locations(users) {
      var i :| 0 <= i < |users| && users[i] == u;
      assert Locations(users)[i] == u.location;
    }
  }

  /** The component's state: the search box, the two filter selects and the sort select. */
  class SearchState {
    const users: seq<User>
    var searchTerm: string
    var roleFilter: string
    var locationFilter: string
    var sortBy: string
    var showFilters: bool

    constructor ()
      ensures users == Users
      ensures searchTerm == "" && roleFilter == "" && locationFilter == "" && sortBy == "name" && !showFilters
    {
      users := Users;
      searchTerm, roleFilter, locationFilter, sortBy, showFilters := "", "", "", "name", false;
    }

    /** `filteredUsers`: the matching users, sorted in place by the chosen column. */
    method FilteredUsers(lower: char -> char, localeCompare: (string, string) -> int, time: string -> int)
      returns (result: seq<User>)
      requires Preorder(localeCompare)
      ensures forall u :: u in result <==> u in users && Matches(lower, u, searchTerm, roleFilter, locationFilter)
      ensures multiset(result) == multiset(Filter(lower, users, searchTerm, roleFilter, locationFilter))
      ensures |result| <= |users|
      ensures Ordered(result, Comparator(sortBy, localeCompare, time))
    {
      var filtered := Filter(lower, users, searchTerm, roleFilter, locationFilter);
      var cmp := Comparator(sortBy, localeCompare, time);
      ComparatorIsPreorder(sortBy, localeCompare, time);
      var a := new User[|filtered|](i requires 0 <= i < |filtered| => filtered[i]);
      assert a[..] == filtered;
      SortInPlace(a, cmp);
      result := a[..];
      AdjacentToOrdered(result, cmp);
      SameMultisetSameMembers(result, filtered);
    }

    /** The Filters button: shows or hides the filter panel. */
    method ToggleFilters() returns (event: string)
      modifies this
      ensures showFilters == !old(showFilters)
      ensures searchTerm == old(searchTerm) && roleFilter == old(roleFilter)
      ensures locationFilter == old(locationFilter) && sortBy == old(sortBy)
      ensures event == "toggle-filters"
    {
      showFilters := !showFilters;
      event := "toggle-filters";
    }

    /** Typing in the search box. */
    method Search(text: string) returns (event: string)
      modifies this
      ensures searchTerm == text && roleFilter == old(roleFilter) && locationFilter == old(locationFilter)
      ensures sortBy == old(sortBy) && showFilters == old(showFilters)
      ensures event == "search"
    {
      searchTerm := text;
      event := "search";
    }

    /** The clear button inside the search box; it reports no interaction. */
    method ClearSearch()
      modifies this
      ensures searchTerm == "" && roleFilter == old(roleFilter) && locationFilter == old(locationFilter)
      ensures sortBy == old(sortBy) && showFilters == old(showFilters)
    {
      searchTerm := "";
    }

    /** The role select; `""` is "All Roles". */
    method SelectRole(role: string) returns (event: string)
      modifies this
      ensures roleFilter == role && searchTerm == old(searchTerm) && locationFilter == old(locationFilter)
      ensures sortBy == old(sortBy) && showFilters == old(showFilters)
      ensures event == "filter-role"
    {
      roleFilter := role;
      event := "filter-role";
    }

    /** The location select; `""` is "All Locations". */
    method SelectLocation(location: string) returns (event: string)
      modifies this
      ensures locationFilter == location && searchTerm == old(searchTerm) && roleFilter == old(roleFilter)
      ensures sortBy == old(sortBy) && showFilters == old(showFilters)
      ensures event == "filter-location"
    {
      locationFilter := location;
      event := "filter-location";
    }

    /** The sort select. */
    method SelectSort(column: string) returns (event: string)
      modifies this
      ensures sortBy == column && searchTerm == old(searchTerm) && roleFilter == old(roleFilter)
      ensures locationFilter == old(locationFilter) && showFilters == old(showFilters)
      ensures event == "sort-change"
    {
      sortBy := column;
      event := "sort-change";
    }

    /** `clearFilters`: back to the defaults; the filter panel stays as it is. */
    method ClearFilters() returns (event: string)
      modifies this
      ensures searchTerm == "" && roleFilter == "" && locationFilter == "" && sortBy == "name"
      ensures showFilters == old(showFilters)
      ensures event == "clear-filters"
    {
      searchTerm := "";
      roleFilter := "";
      locationFilter := "";
      sortBy := "name";
      event := "clear-filters";
    }
  }

  /** The role choices: every role of the user list once, in first-occurrence order. */
  function UniqueRoles(users: seq<User>): (roles: seq<string>)
    ensures forall x :: x in roles <==> exists u :: u in users && u.role == x
    ensures forall i, j :: 0 <= i < j < |roles| ==> roles[i] != roles[j]
  {
    RolesOfUsers(users);
    Distinct(Roles(users))
  }

  /** The location choices, built the same way. */
  function UniqueLocations(users: seq<User>): (locations: seq<string>)
    ensures forall x :: x in locations <==> exists u :: u in users && u.location == x
    ensures forall i, j :: 0 <= i < j < |locations| ==> locations[i] != locations[j]
  {
    LocationsOfUsers(users);
    Distinct(Locations(users))
  }
}
