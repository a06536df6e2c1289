/**
 * The administrators' user list: one page of users ordered by id, with the offset and limit clamped,
 * the total row count and whether more rows follow. The database is a parameter: the rows of the
 * users table in id order, or the message of the exception the queries threw.
 */
module SystemInfoAdmin {
  import opened Wrappers
  import Users

  const DefaultOffset: int := 0
  const DefaultLimit: int := 50
  const MaxLimit: int := 200

  /** The columns the list selects. */
  datatype UserSummary = UserSummary(id: Option<int>, email: Option<string>, firstName: Option<string>,
                                     lastName: Option<string>, ssn: Option<string>, role: Option<string>)

  datatype UsersResponse =
    | UserPage(offset: int, limit: int, total: int, hasMore: bool, users: seq<UserSummary>)
    | ServerError(error: string)

  function Summary(u: Users.UserRow): UserSummary {
    UserSummary(u.id, u.email, u.firstName, u.lastName, u.ssn, u.role)
  }

  /** SELECT id, email, first_name, last_name, ssn, role over the rows, in their order. */
  function Summaries(rows: seq<Users.UserRow>): (r: seq<UserSummary>)
    ensures |r| == |rows|
  {
    if rows == [] then [] else [Summary(rows[0])] + Summaries(rows[1..])
  }

  /** The summary at each position is the summary of the row there. */
  lemma {:induction false} SummariesAt(rows: seq<Users.UserRow>, i: nat)
    requires i < |rows|
    ensures Summaries(rows)[i] == Summary(rows[i])
  {
    if i > 0 {
      SummariesAt(rows[1..], i - 1);
    }
  }

  /** Summarising the first n rows is taking the first n summaries. */
  lemma {:induction false} SummariesPrefix(rows: seq<Users.UserRow>, n: nat)
    requires n <= |rows|
    ensures Summaries(rows)[..n] == Summaries(rows[..n])
  {
    if n > 0 {
      SummariesPrefix(rows[1..], n - 1);
      assert rows[..n][1..] == rows[1..][..n - 1];
    }
  }

  /** The offset actually used: a missing offset is 0 and a negative one becomes 0. */
  function SafeOffset(offset: Option<int>): (r: int)
    ensures r >= 0
    ensures offset.None? ==> r == DefaultOffset
    ensures offset.Some? ==> r == if offset.value < 0 then 0 else offset.value
  {
    var o := offset.GetOr(DefaultOffset);
    if o < 0 then 0 else o
  }

  /** The limit actually used: 50 when missing, otherwise the given limit brought into [1, 200]. */
  function SafeLimit(limit: Option<int>): (r: int)
    ensures 1 <= r <= MaxLimit
    ensures limit.None? ==> r == DefaultLimit
    ensures limit.Some? && 1 <= limit.value <= MaxLimit ==> r == limit.value
    ensures limit.Some? && limit.value < 1 ==> r == 1
    ensures limit.Some? && limit.value > MaxLimit ==> r == MaxLimit
  {
    var l := limit.GetOr(DefaultLimit);
    var capped := if l < MaxLimit then l else MaxLimit;
    if capped < 1 then 1 else capped
  }

  /** LIMIT limit OFFSET offset over rows: from the offset on, at most limit of them. */
  function Window<T>(rows: seq<T>, limit: nat, offset: nat): (r: seq<T>)
    ensures offset >= |rows| ==> r == []
    ensures offset < |rows| ==> r == rows[offset..if offset + limit < |rows| then offset + limit else |rows|]
  {
    if offset >= |rows| then []
    else if offset + limit < |rows| then rows[offset..offset + limit]
    else rows[offset..]
  }

  /**
   * listUsers: the count, then one row more than the limit from the offset; when more than the limit
   * came back there are more rows and the extra one is dropped. A query failure is a server error.
   */
  function ListUsers(offset: Option<int>, limit: Option<int>, table: Result<seq<Users.UserRow>, string>): (r: UsersResponse)
    ensures table.Err? <==> r.ServerError?
    ensures r.ServerError? ==> r.error == "Kunne ikke hente brukere: " + table.error
  {
    var safeOffset := SafeOffset(offset);
    var safeLimit := SafeLimit(limit);
    if table.Err? then ServerError("Kunne ikke hente brukere: " + table.error)
    else
      var total := |table.value|;
      var users := Summaries(Window(table.value, safeLimit + 1, safeOffset));
      var hasMore := |users| > safeLimit;
      UserPage(safeOffset, safeLimit, total, hasMore, if hasMore then users[..safeLimit] else users)
  }

  /**
   * A page is the rows [safeOffset, safeOffset + safeLimit) of the table, echoes the clamped offset
   * and limit, counts every row, and says more rows follow exactly when some lie past the page.
   */
  lemma ListUsersPage(offset: Option<int>, limit: Option<int>, rows: seq<Users.UserRow>)
    ensures var r := ListUsers(offset, limit, Ok(rows));
      && r.UserPage? && r.offset == SafeOffset(offset) && r.limit == SafeLimit(limit) && r.total == |rows|
      && r.users == Summaries(Window(rows, SafeLimit(limit), SafeOffset(offset)))
      && (r.hasMore <==> SafeOffset(offset) + SafeLimit(limit) < |rows|)
      && |r.users| <= r.limit
  {
    var o, l := SafeOffset(offset), SafeLimit(limit);
    var fetched := Window(rows, l + 1, o);
    if o < |rows| && l < |fetched| {
      assert Window(rows, l, o) == fetched[..l];
      SummariesPrefix(fetched, l);
    }
  }

  /** The rows from the offset on, cut into pages of the given size: the concatenation of the pages. */
  function Pages<T>(s: seq<T>, offset: nat, size: nat): seq<T>
    requires size >= 1
    decreases |s| - offset
  {
    if offset + size < |s| then s[offset..offset + size] + Pages(s, offset + size, size)
    else Window(s, size, offset)
  }

  /** Cutting into pages loses and repeats nothing: the pages together are the rows from the offset on. */
  lemma {:induction false} PagesCoverRest<T>(s: seq<T>, offset: nat, size: nat)
    requires size >= 1 && offset <= |s|
    ensures Pages(s, offset, size) == s[offset..]
    decreases |s| - offset
  {
    if offset + size < |s| {
      PagesCoverRest(s, offset + size, size);
      SliceSplit(s, offset, offset + size);
    }
  }

  /**
   * Following the pages: the users listUsers returns at the offset and, while it says more rows
   * follow, the users of the walk from the offset moved on by the limit (WalkFollowsPages).
   */
  function Walk(offset: nat, limit: Option<int>, rows: seq<Users.UserRow>): seq<UserSummary>
    decreases |rows| - offset
  {
    var l := SafeLimit(limit);
    if offset + l < |rows| then Summaries(rows[offset..offset + l]) + Walk(offset + l, limit, rows)
    else Summaries(Window(rows, l, offset))
  }

  /** The walk summarises the pages. */
  lemma {:induction false} WalkIsPages(offset: nat, limit: Option<int>, rows: seq<Users.UserRow>)
    ensures Walk(offset, limit, rows) == Summaries(Pages(rows, offset, SafeLimit(limit)))
    decreases |rows| - offset
  {
    var l := SafeLimit(limit);
    if offset + l < |rows| {
      var page, rest := rows[offset..offset + l], Pages(rows, offset + l, l);
      assert Pages(rows, offset, l) == page + rest;
      WalkIsPages(offset + l, limit, rows);
      SummariesAppend(page, rest);
    }
  }

  /** Each step of the walk is the page listUsers returns there, followed by the rest of the walk while it says more rows follow. */
  lemma WalkFollowsPages(offset: nat, limit: Option<int>, rows: seq<Users.UserRow>)
    ensures var r := ListUsers(Some(offset), limit, Ok(rows));
      r.UserPage? && r.limit >= 1 &&
      Walk(offset, limit, rows) == if r.hasMore then r.users + Walk(offset + r.limit, limit, rows) else r.users
  {
    ListUsersPage(Some(offset), limit, rows);
    var l := SafeLimit(limit);
    if offset + l < |rows| {
      assert Window(rows, l, offset) == rows[offset..offset + l];
    }
  }

  /** From an offset within the table the walk lists every row from there on, once each and in id order. */
  lemma WalkCoversRest(offset: nat, limit: Option<int>, rows: seq<Users.UserRow>)
    requires offset <= |rows|
    ensures Walk(offset, limit, rows) == Summaries(rows[offset..])
  {
    WalkIsPages(offset, limit, rows);
    PagesCoverRest(rows, offset, SafeLimit(limit));
  }

  lemma SliceSplit<T>(s: seq<T>, i: nat, j: nat)
    requires i <= j <= |s|
    ensures s[i..] == s[i..j] + s[j..]
  {
  }

  lemma {:induction false} SummariesAppend(a: seq<Users.UserRow>, b: seq<Users.UserRow>)
    ensures Summaries(a + b) == Summaries(a) + Summaries(b)
  {
    if a == [] {
      assert a + b == b;
    } else {
      assert (a + b)[1..] == a[1..] + b;
      SummariesAppend(a[1..], b);
    }
  }

  /** From the first page on, the walk lists the whole table. */
  lemma WalkFromStart(limit: Option<int>, rows: seq<Users.UserRow>)
    ensures Walk(0, limit, rows) == Summaries(rows)
  {
    WalkCoversRest(0, limit, rows);
    assert rows[0..] == rows;
  }
}
