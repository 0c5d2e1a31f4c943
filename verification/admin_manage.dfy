/**
  The administrator's user table (public/admin-manage.js): search, ten users per
  page, paging controls, and sorting by a column with a toggling direction.
*/
module AdminManage {
  import opened Wrappers
  import opened Text

  /** One user as the admin API returns it. */
  datatype User = User(userId: nat, fullName: string, email: string, phoneNumber: Option<string>, userType: string)

  const UsersPerPage: nat := 10

  // ---------------------------------------------------------------------------
  // Search
  // ---------------------------------------------------------------------------

  /** A user matches a (lower-cased) term when the id's digits, the lower-cased name, the
      lower-cased email or the phone number as stored contains it. */
  predicate MatchesSearch(u: User, term: string)
  {
    || Contains(NatToString(u.userId), term)
    || Contains(Lower(u.fullName), term)
    || Contains(Lower(u.email), term)
    || (u.phoneNumber.Some? && u.phoneNumber.value != "" && Contains(u.phoneNumber.value, term))
  }

  /** `filterUsersBySearch` with the search box holding `searchInput`. */
  function FilterBySearch(users: seq<User>, searchInput: string): (r: seq<User>)
    ensures searchInput == "" ==> r == users
    ensures |r| <= |users|
    ensures searchInput != "" ==> forall i :: 0 <= i < |r| ==> MatchesSearch(r[i], Lower(searchInput))
  {
    var term := Lower(searchInput);
    if term == "" then users else Filter(u => MatchesSearch(u, term), users)
  }

  /** A user is listed exactly when it is loaded and, for a non-empty search, matches it. */
  lemma SearchMembers(users: seq<User>, searchInput: string, u: User)
    ensures u in FilterBySearch(users, searchInput) <==>
      u in users && (searchInput == "" || MatchesSearch(u, Lower(searchInput)))
  {
    if searchInput != "" {
      FilterMembers(u => MatchesSearch(u, Lower(searchInput)), users, u);
    }
  }

  /** The search keeps the users' order and multiplicity: it distributes over concatenation,
      and a single user `u` is kept exactly when it matches. */
  lemma SearchKeepsOrder(a: seq<User>, b: seq<User>, u: User, searchInput: string)
    ensures FilterBySearch(a + b, searchInput) == FilterBySearch(a, searchInput) + FilterBySearch(b, searchInput)
    ensures FilterBySearch([u], searchInput) ==
      (if searchInput == "" || MatchesSearch(u, Lower(searchInput)) then [u] else [])
  {
    var term := Lower(searchInput);
    if term != "" {
      FilterConcat(v => MatchesSearch(v, term), a, b);
      assert [u][1..] == [];
    }
  }

  /** Searching the result of a search again changes nothing. */
  lemma SearchIdempotent(users: seq<User>, searchInput: string)
    ensures FilterBySearch(FilterBySearch(users, searchInput), searchInput) == FilterBySearch(users, searchInput)
  {
    if searchInput != "" {
      var term := Lower(searchInput);
      FilterAllPass(u => MatchesSearch(u, term), FilterBySearch(users, searchInput));
    }
  }

  // ---------------------------------------------------------------------------
  // Paging
  // ---------------------------------------------------------------------------

  /** `Math.ceil(n / usersPerPage)` */
  function TotalPages(n: nat): (r: nat)
    ensures r * UsersPerPage >= n
    ensures r > 0 ==> (r - 1) * UsersPerPage < n
  {
    (n + UsersPerPage - 1) / UsersPerPage
  }

  /** `paginateUsers`: the users of page `page` (counted from 1). */
  function Paginate(users: seq<User>, page: int): (r: seq<User>)
    ensures |r| <= UsersPerPage
    ensures page >= 1 ==> forall k :: 0 <= k < |r| ==>
      ((page - 1) * UsersPerPage + k < |users| && r[k] == users[(page - 1) * UsersPerPage + k])
    ensures page >= 1 && (page - 1) * UsersPerPage < |users| ==>
      |r| == if |users| - (page - 1) * UsersPerPage < UsersPerPage then |users| - (page - 1) * UsersPerPage else UsersPerPage
  {
    var start := (page - 1) * UsersPerPage;
    JsSlice(users, start, start + UsersPerPage)
  }

  /** Every listed user is shown on exactly one page: user `i` is row `i % 10` of page `i / 10 + 1`,
      and that page exists. */
  lemma EveryUserOnAPage(users: seq<User>, i: nat)
    requires i < |users|
    ensures 1 <= i / UsersPerPage + 1 <= TotalPages(|users|)
    ensures i % UsersPerPage < |Paginate(users, i / UsersPerPage + 1)|
    ensures Paginate(users, i / UsersPerPage + 1)[i % UsersPerPage] == users[i]
  {
    var page := i / UsersPerPage + 1;
    assert (page - 1) * UsersPerPage + i % UsersPerPage == i;
  }

  /** What `updatePagination` writes: the page text and whether each button is disabled. */
  datatype PagerView = PagerView(info: string, prevDisabled: bool, nextDisabled: bool)

  function Pager(page: int, totalPages: nat): (v: PagerView)
    ensures StartsWith(v.info, "Page ")
    ensures v.prevDisabled <==> page <= 1
    ensures v.nextDisabled <==> page >= totalPages
  {
    PagerView("Page " + IntToString(page) + " of " + NatToString(totalPages), page <= 1, page >= totalPages)
  }

  /** The page text reads back: split at spaces it is "Page", the page number, "of" and the
      page count. */
  lemma PagerReadsBack(page: nat, totalPages: nat)
    ensures var parts := Split(Pager(page, totalPages).info, ' ');
      && |parts| == 4 && parts[0] == "Page" && parts[2] == "of"
      && AllDigits(parts[1]) && DecimalValue(parts[1]) == page
      && AllDigits(parts[3]) && DecimalValue(parts[3]) == totalPages
  {
    var a, b := NatToString(page), NatToString(totalPages);
    var parts := ["Page", a, "of", b];
    assert Pager(page, totalPages).info == Join(parts, ' ') by {
      assert Join(parts[3..], ' ') == b;
      assert Join(parts[2..], ' ') == "of" + [' '] + b;
      assert Join(parts[1..], ' ') == a + [' '] + ("of" + [' '] + b);
      assert IntToString(page) == a;
    }
    assert forall i :: 0 <= i < |a| ==> a[i] != ' ';
    assert forall i :: 0 <= i < |b| ==> b[i] != ' ';
    SplitJoin(parts, ' ');
    NatToStringRoundTrip(page);
    NatToStringRoundTrip(totalPages);
  }

  /** The page `changePage(delta)` moves to. */
  function MovePage(page: int, delta: int, totalPages: nat): (r: int)
    ensures r == page || 1 <= r <= totalPages
    ensures r != page ==> r == page + delta
    ensures 1 <= page + delta <= totalPages ==> r == page + delta
  {
    var newPage := page + delta;
    if newPage > 0 && newPage <= totalPages then newPage else page
  }

  /** On any existing page a paging button is enabled exactly when pressing it moves to another page. */
  lemma ButtonsMatchMoves(page: int, totalPages: nat)
    requires 1 <= page <= totalPages
    ensures !Pager(page, totalPages).prevDisabled <==> MovePage(page, -1, totalPages) != page
    ensures !Pager(page, totalPages).nextDisabled <==> MovePage(page, 1, totalPages) != page
  {
  }

  // ---------------------------------------------------------------------------
  // Sorting
  // ---------------------------------------------------------------------------

  /** The value a column sorts by: the id as a number, the other columns as strings. */
  datatype SortKey = NumKey(n: int) | StrKey(s: string)

  function Key(u: User, column: int): SortKey
    requires 0 <= column <= 3
  {
    if column == 0 then NumKey(u.userId)
    else if column == 1 then StrKey(u.fullName)
    else if column == 2 then StrKey(u.email)
    else StrKey(u.phoneNumber.GetOr(""))
  }

  /** JavaScript's `<` on two keys of the same column. */
  predicate KeyLess(a: SortKey, b: SortKey)
  {
    match (a, b)
    case (NumKey(x), NumKey(y)) => x < y
    case (StrKey(x), StrKey(y)) => LexLess(x, y)
    case _ => false
  }

  /** The comparator passed to `sort`. */
  function Compare(a: User, b: User, column: int, direction: int): int
  {
    if !(0 <= column <= 3) then 0
    else if KeyLess(Key(a, column), Key(b, column)) then -1 * direction
    else if KeyLess(Key(b, column), Key(a, column)) then 1 * direction
    else 0
  }

  /** Each neighbour pair is in comparator order. */
  predicate Sorted(s: seq<User>, column: int, direction: int)
  {
    forall i :: 0 < i < |s| ==> Compare(s[i - 1], s[i], column, direction) <= 0
  }

  lemma KeyLessFacts(a: SortKey, b: SortKey, c: SortKey)
    requires a.NumKey? == b.NumKey? && b.NumKey? == c.NumKey?
    ensures KeyLess(a, b) ==> !KeyLess(b, a)
    ensures KeyLess(a, b) || a == b || KeyLess(b, a)
    ensures KeyLess(a, b) && KeyLess(b, c) ==> KeyLess(a, c)
  {
    if a.StrKey? {
      LexLessAsymmetric(a.s, b.s);
      LexLessTotal(a.s, b.s);
      LexLessTransitive(a.s, b.s, c.s);
    }
  }

  /** For either direction the comparator orders users totally: swapping the arguments turns
      "after" into "before", and "not after" is transitive. */
  lemma CompareOrder(a: User, b: User, c: User, column: int, direction: int)
    requires direction == 1 || direction == -1
    ensures Compare(a, b, column, direction) > 0 ==> Compare(b, a, column, direction) < 0
    ensures Compare(a, b, column, direction) <= 0 && Compare(b, c, column, direction) <= 0 ==>
      Compare(a, c, column, direction) <= 0
  {
    if 0 <= column <= 3 {
      var ka, kb, kc := Key(a, column), Key(b, column), Key(c, column);
      KeyLessFacts(ka, kb, kc);
      KeyLessFacts(kb, ka, kc);
      KeyLessFacts(ka, kc, kb);
      KeyLessFacts(kc, ka, kb);
      KeyLessFacts(kb, kc, ka);
      KeyLessFacts(kc, kb, ka);
    }
  }

  /** Neighbour order gives order between every pair. */
  lemma {:induction false} SortedPairwise(s: seq<User>, column: int, direction: int, i: nat, j: nat)
    requires direction == 1 || direction == -1
    requires Sorted(s, column, direction)
    requires i < j < |s|
    ensures Compare(s[i], s[j], column, direction) <= 0
    decreases j - i
  {
    if i + 1 < j {
      SortedPairwise(s, column, direction, i + 1, j);
      CompareOrder(s[i], s[i + 1], s[j], column, direction);
    }
  }

  lemma SortedSnoc(s: seq<User>, y: User, column: int, direction: int)
    requires Sorted(s, column, direction)
    requires s == [] || Compare(s[|s| - 1], y, column, direction) <= 0
    ensures Sorted(s + [y], column, direction)
  {
    var r := s + [y];
    forall i | 0 < i < |r| ensures Compare(r[i - 1], r[i], column, direction) <= 0 {
      if i < |s| {
        assert r[i - 1] == s[i - 1] && r[i] == s[i];
      }
    }
  }

  lemma SortedFront(s: seq<User>, column: int, direction: int)
    requires s != [] && Sorted(s, column, direction)
    ensures Sorted(s[..|s| - 1], column, direction)
  {
    var f := s[..|s| - 1];
    forall i | 0 < i < |f| ensures Compare(f[i - 1], f[i], column, direction) <= 0 {
      assert f[i - 1] == s[i - 1] && f[i] == s[i];
    }
  }

  /** Puts `x` after the last element of `t` that does not compare after it. */
  function Insert(t: seq<User>, x: User, column: int, direction: int): (r: seq<User>)
    ensures multiset(r) == multiset(t) + multiset{x} && |r| == |t| + 1
    ensures r[|r| - 1] == x || (t != [] && r[|r| - 1] == t[|t| - 1])
    ensures !(0 <= column <= 3) ==> r == t + [x]
    decreases |t|
  {
    if t == [] then [x]
    else
      var last := t[|t| - 1];
      if Compare(last, x, column, direction) <= 0 then t + [x]
      else
        var front := t[..|t| - 1];
        assert t == front + [last];
        Insert(front, x, column, direction) + [last]
  }

  /** Inserting into a sorted sequence keeps it sorted. */
  lemma {:induction false} InsertSorted(t: seq<User>, x: User, column: int, direction: int)
    requires direction == 1 || direction == -1
    requires Sorted(t, column, direction)
    ensures Sorted(Insert(t, x, column, direction), column, direction)
    decreases |t|
  {
    if t != [] {
      var last := t[|t| - 1];
      if Compare(last, x, column, direction) <= 0 {
        SortedSnoc(t, x, column, direction);
      } else {
        var front := t[..|t| - 1];
        SortedFront(t, column, direction);
        InsertSorted(front, x, column, direction);
        var inner := Insert(front, x, column, direction);
        CompareOrder(last, x, last, column, direction);
        assert front != [] ==> Compare(front[|front| - 1], last, column, direction) <= 0;
        SortedSnoc(inner, last, column, direction);
      }
    }
  }

  /** The effect of `currentUsers.sort(comparator)`. */
  function SortBy(s: seq<User>, column: int, direction: int): (r: seq<User>)
    requires direction == 1 || direction == -1
    ensures multiset(r) == multiset(s) && |r| == |s|
    ensures Sorted(r, column, direction)
    ensures !(0 <= column <= 3) ==> r == s
    decreases |s|
  {
    if s == [] then []
    else
      var front := s[..|s| - 1];
      assert s == front + [s[|s| - 1]];
      var sorted := SortBy(front, column, direction);
      InsertSorted(sorted, s[|s| - 1], column, direction);
      Insert(sorted, s[|s| - 1], column, direction)
  }

  /** What the comparator's verdict says about the keys. */
  lemma CompareByKey(a: User, b: User, column: int, direction: int)
    requires direction == 1 || direction == -1
    requires 0 <= column <= 3
    ensures direction == 1 ==> (Compare(a, b, column, direction) <= 0 <==> !KeyLess(Key(b, column), Key(a, column)))
    ensures direction == -1 ==> (Compare(a, b, column, direction) <= 0 <==> !KeyLess(Key(a, column), Key(b, column)))
  {
    KeyLessFacts(Key(a, column), Key(b, column), Key(a, column));
  }

  /** Sorting by a column puts every pair in key order: ascending for direction 1, descending for -1. */
  lemma SortedByKey(s: seq<User>, column: int, direction: int, i: nat, j: nat)
    requires direction == 1 || direction == -1
    requires 0 <= column <= 3
    requires i < j < |s|
    ensures direction == 1 ==> !KeyLess(Key(SortBy(s, column, direction)[j], column), Key(SortBy(s, column, direction)[i], column))
    ensures direction == -1 ==> !KeyLess(Key(SortBy(s, column, direction)[i], column), Key(SortBy(s, column, direction)[j], column))
  {
    var r := SortBy(s, column, direction);
    SortedPairwise(r, column, direction, i, j);
    CompareByKey(r[i], r[j], column, direction);
  }

  // ---------------------------------------------------------------------------
  // The page's state
  // ---------------------------------------------------------------------------

  /** `currentUsers`, `currentPage`, `currentSortColumn` and `sortDirection`. */
  class UserTable {
    var currentUsers: seq<User>
    var currentPage: int
    var currentSortColumn: Option<int>
    var sortDirection: int

    ghost predicate Valid()
      reads this
    {
      currentPage >= 1 && (sortDirection == 1 || sortDirection == -1)
    }

    constructor ()
      ensures Valid()
      ensures currentUsers == [] && currentPage == 1 && currentSortColumn.None? && sortDirection == 1
    {
      currentUsers := [];
      currentPage := 1;
      currentSortColumn := None;
      sortDirection := 1;
    }

    /** `loadUsers` after a successful fetch: the list is replaced, the page and sort settings stay. */
    method LoadUsers(users: seq<User>)
      requires Valid()
      modifies this
      ensures Valid()
      ensures currentUsers == users
      ensures currentPage == old(currentPage) && currentSortColumn == old(currentSortColumn)
      ensures sortDirection == old(sortDirection)
    {
      currentUsers := users;
    }

    /** `changePage(delta)`: moves only to a page that exists for the current search. */
    method ChangePage(delta: int, searchInput: string)
      requires Valid()
      modifies this
      ensures Valid()
      ensures var total := TotalPages(|FilterBySearch(currentUsers, searchInput)|);
        currentPage == if 0 < old(currentPage) + delta <= total then old(currentPage) + delta else old(currentPage)
      ensures currentUsers == old(currentUsers) && currentSortColumn == old(currentSortColumn)
      ensures sortDirection == old(sortDirection)
    {
      var total := TotalPages(|FilterBySearch(currentUsers, searchInput)|);
      var newPage := currentPage + delta;
      if newPage > 0 && newPage <= total {
        currentPage := newPage;
      }
    }

    /** `filterUsers`: a new search starts again from the first page. */
    method FilterUsers()
      requires Valid()
      modifies this
      ensures Valid()
      ensures currentPage == 1
      ensures currentUsers == old(currentUsers) && currentSortColumn == old(currentSortColumn)
      ensures sortDirection == old(sortDirection)
    {
      currentPage := 1;
    }

    /** `sortTable(columnIndex)`: the same column flips the direction, a new column sorts
        ascending; the users are then reordered by that column. */
    method SortTable(columnIndex: int)
      requires Valid()
      modifies this
      ensures Valid()
      ensures currentSortColumn == Some(columnIndex)
      ensures sortDirection == if old(currentSortColumn) == Some(columnIndex) then -old(sortDirection) else 1
      ensures currentUsers == SortBy(old(currentUsers), columnIndex, sortDirection)
      ensures multiset(currentUsers) == multiset(old(currentUsers))
      ensures Sorted(currentUsers, columnIndex, sortDirection)
      ensures !(0 <= columnIndex <= 3) ==> currentUsers == old(currentUsers)
      ensures currentPage == old(currentPage)
    {
      if currentSortColumn == Some(columnIndex) {
        sortDirection := sortDirection * -1;
      } else {
        currentSortColumn := Some(columnIndex);
        sortDirection := 1;
      }
      currentUsers := SortBy(currentUsers, columnIndex, sortDirection);
    }
  }
}
