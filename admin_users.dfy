/**
 * The pagination and selection logic of the user-management screen, lifted
 * out of the component: the pagination state read from the address bar, the
 * query strings it writes and sends, the state derived from a server reply,
 * page changes and jumps, the row selection, and the page-number strip.
 */
module AdminUsers {
  import opened Wrappers
  import opened Text
  import UserTable

  datatype PaginationState = PaginationState(
    page: int,
    limit: int,
    total: int,
    totalPages: int,
    hasMore: bool,
    nextPage: Option<int>,
    prevPage: Option<int>)

  const DEFAULT_PAGE := 1
  const DEFAULT_LIMIT := 10
  /** Up to this many pages every page number is shown. */
  const MAX_PLAIN_PAGES := 7

  // ---------------------------------------------------------------------------
  // The initial state, from the address bar

  /** `searchParams.get(name) || fallback`: a missing or empty parameter gives the fallback. */
  function ParamOr(param: Option<string>, fallback: string): string {
    match param
    case None => fallback
    case Some(v) => if v == "" then fallback else v
  }

  /**
   * The pagination state the screen starts from: the page is the parsed
   * `page` parameter raised to at least 1 (1 when it is not a number); the
   * limit is the parsed `limit` parameter as it is (10 when not a number).
   */
  function InitialPagination(pageParam: Option<string>, limitParam: Option<string>): (r: PaginationState)
    ensures r.page >= 1
    ensures ParseInt(ParamOr(pageParam, "1")).None? ==> r.page == DEFAULT_PAGE
    ensures ParseInt(ParamOr(pageParam, "1")).Some? ==>
      r.page == (if ParseInt(ParamOr(pageParam, "1")).value > 1 then ParseInt(ParamOr(pageParam, "1")).value else 1)
    ensures ParseInt(ParamOr(limitParam, "10")).None? ==> r.limit == DEFAULT_LIMIT
    ensures ParseInt(ParamOr(limitParam, "10")).Some? ==> r.limit == ParseInt(ParamOr(limitParam, "10")).value
    ensures r.total == 0 && r.totalPages == 1 && !r.hasMore && r.nextPage.None? && r.prevPage.None?
  {
    var page := ParseInt(ParamOr(pageParam, "1"));
    var limit := ParseInt(ParamOr(limitParam, "10"));
    PaginationState(
      page := match page case None => DEFAULT_PAGE case Some(p) => if p > 1 then p else 1,
      limit := match limit case None => DEFAULT_LIMIT case Some(l) => l,
      total := 0, totalPages := 1, hasMore := false, nextPage := None, prevPage := None)
  }

  /**
   * Reading the address bar: with no parameters the screen opens on page 1
   * showing 10 rows; a page given in digits is taken as it is, except that 0
   * becomes 1; a limit given in digits is taken as it is, 0 included.
   */
  lemma InitialPaginationReadsDigits(pageParam: Option<string>, limitParam: Option<string>)
    ensures pageParam.None? && limitParam.None? ==>
      InitialPagination(pageParam, limitParam).page == 1 && InitialPagination(pageParam, limitParam).limit == 10
    ensures pageParam.Some? && pageParam.value != "" && AllDigits(pageParam.value) ==>
      InitialPagination(pageParam, limitParam).page == (if DigitsValue(pageParam.value, 10) > 1 then DigitsValue(pageParam.value, 10) else 1)
    ensures limitParam.Some? && limitParam.value != "" && AllDigits(limitParam.value) ==>
      InitialPagination(pageParam, limitParam).limit == DigitsValue(limitParam.value, 10)
  {
    DefaultsParse();
    if pageParam.Some? && pageParam.value != "" && AllDigits(pageParam.value) {
      ParseIntOfDigits(pageParam.value);
    }
    if limitParam.Some? && limitParam.value != "" && AllDigits(limitParam.value) {
      ParseIntOfDigits(limitParam.value);
    }
  }

  /** The fallbacks `'1'` and `'10'` parse to 1 and 10. */
  lemma DefaultsParse()
    ensures ParseInt("1") == Some(1) && ParseInt("10") == Some(10)
  {
    ParseIntDecimalString(1);
    ParseIntDecimalString(10);
    assert DecimalString(1) == "1";
    assert DecimalString(10) == "10";
  }

  // ---------------------------------------------------------------------------
  // Query strings

  /** The search, filter, sort and paging choices on screen. */
  datatype ViewState = ViewState(
    searchTerm: string,
    role: string,
    status: string,
    verified: string,
    sort: string,
    page: int,
    limit: int)

  type Params = seq<(string, string)>

  /** `params.get(key)`. */
  function Lookup(params: Params, key: string): Option<string> {
    if params == [] then None
    else if params[0].0 == key then Some(params[0].1)
    else Lookup(params[1..], key)
  }

  /** One `params.set(key, value)` on a fresh key, when `cond` holds. */
  function SetIf(cond: bool, key: string, value: string): Params {
    if cond then [(key, value)] else []
  }

  lemma {:induction false} LookupConcat(a: Params, b: Params, key: string)
    ensures Lookup(a + b, key) == if Lookup(a, key).Some? then Lookup(a, key) else Lookup(b, key)
    decreases |a|
  {
    if a != [] {
      assert (a + b)[1..] == a[1..] + b;
      LookupConcat(a[1..], b, key);
    } else {
      assert a + b == b;
    }
  }

  /** The optional entries `entries` appended, each when its condition holds. */
  function Optional(entries: seq<(bool, string, string)>): Params {
    if entries == [] then [] else SetIf(entries[0].0, entries[0].1, entries[0].2) + Optional(entries[1..])
  }

  /** `pair` is the key and value of an entry whose condition holds. */
  predicate FromSetEntry(entries: seq<(bool, string, string)>, pair: (string, string)) {
    exists j :: 0 <= j < |entries| && entries[j].0 && pair == (entries[j].1, entries[j].2)
  }

  /** The appended pairs come from the entries whose condition holds, and there are no more of them than entries. */
  lemma {:induction false} OptionalKeeps(entries: seq<(bool, string, string)>)
    ensures |Optional(entries)| <= |entries|
    ensures forall k :: 0 <= k < |Optional(entries)| ==> FromSetEntry(entries, Optional(entries)[k])
    decreases |entries|
  {
    if entries != [] {
      var tail := entries[1..];
      OptionalKeeps(tail);
      var head := SetIf(entries[0].0, entries[0].1, entries[0].2);
      var rest := Optional(tail);
      assert Optional(entries) == head + rest;
      forall k | 0 <= k < |head + rest| ensures FromSetEntry(entries, (head + rest)[k]) {
        if k < |head| {
          assert (head + rest)[k] == (entries[0].1, entries[0].2);
        } else {
          assert (head + rest)[k] == rest[k - |head|];
          assert FromSetEntry(tail, rest[k - |head|]);
          var j :| 0 <= j < |tail| && tail[j].0 && rest[k - |head|] == (tail[j].1, tail[j].2);
          assert entries[j + 1] == tail[j];
        }
      }
    }
  }

  /** The value of the first entry that is set and has the key. */
  function FirstSet(entries: seq<(bool, string, string)>, key: string): Option<string> {
    if entries == [] then None
    else if entries[0].0 && entries[0].1 == key then Some(entries[0].2)
    else FirstSet(entries[1..], key)
  }

  lemma {:induction false} LookupOptional(entries: seq<(bool, string, string)>, key: string)
    ensures Lookup(Optional(entries), key) == FirstSet(entries, key)
    decreases |entries|
  {
    if entries != [] {
      LookupOptional(entries[1..], key);
      LookupConcat(SetIf(entries[0].0, entries[0].1, entries[0].2), Optional(entries[1..]), key);
    }
  }

  /** The parameters `queryParams` sets only when they differ from their defaults, in the order it sets them. */
  function QueryEntries(v: ViewState): seq<(bool, string, string)> {
    [(!IsBlank(v.searchTerm), "search", Trim(v.searchTerm)),
     (v.role != "all", "role", v.role),
     (v.status != "all", "status", v.status),
     (v.verified != "all", "verified", v.verified),
     (v.sort != "newest", "sort", v.sort)]
  }

  /**
   * `queryParams`, the address-bar query: page and limit always, first; the
   * trimmed search only when it is not blank; each filter only when it is
   * not `all`; the sort only when it is not `newest`.
   */
  function QueryParams(v: ViewState): Params {
    [("page", IntString(v.page)), ("limit", IntString(v.limit))] + Optional(QueryEntries(v))
  }

  /** What the address-bar query holds, key by key: defaults are left out. */
  lemma QueryParamsContents(v: ViewState)
    ensures var q := QueryParams(v);
      && 2 <= |q| <= 7
      && q[0] == ("page", IntString(v.page)) && q[1] == ("limit", IntString(v.limit))
      && (forall k :: 2 <= k < |q| ==> q[k].0 in {"search", "role", "status", "verified", "sort"})
      && Lookup(q, "search") == (if IsBlank(v.searchTerm) then None else Some(Trim(v.searchTerm)))
      && Lookup(q, "role") == (if v.role == "all" then None else Some(v.role))
      && Lookup(q, "status") == (if v.status == "all" then None else Some(v.status))
      && Lookup(q, "verified") == (if v.verified == "all" then None else Some(v.verified))
      && Lookup(q, "sort") == (if v.sort == "newest" then None else Some(v.sort))
  {
    var head := [("page", IntString(v.page)), ("limit", IntString(v.limit))];
    var e := QueryEntries(v);
    assert QueryParams(v) == head + Optional(e);
    QueryShape(head, e);
    QueryKeys(head, e);
  }

  /**
   * Any query of two fixed pairs followed by the five optional entries in
   * the order `queryParams` sets them, whatever their conditions and values.
   */
  lemma QueryShape(head: Params, e: seq<(bool, string, string)>)
    requires |head| == 2 && head[0].0 == "page" && head[1].0 == "limit"
    requires |e| == 5 && e[0].1 == "search" && e[1].1 == "role" && e[2].1 == "status"
      && e[3].1 == "verified" && e[4].1 == "sort"
    ensures var q := head + Optional(e);
      && q[0] == head[0] && q[1] == head[1]
      && Lookup(q, "search") == (if e[0].0 then Some(e[0].2) else None)
      && Lookup(q, "role") == (if e[1].0 then Some(e[1].2) else None)
      && Lookup(q, "status") == (if e[2].0 then Some(e[2].2) else None)
      && Lookup(q, "verified") == (if e[3].0 then Some(e[3].2) else None)
      && Lookup(q, "sort") == (if e[4].0 then Some(e[4].2) else None)
  {
    LookupAfterTwo(head, e, "search");
    LookupAfterTwo(head, e, "role");
    LookupAfterTwo(head, e, "status");
    LookupAfterTwo(head, e, "verified");
    LookupAfterTwo(head, e, "sort");
  }

  /** After the two fixed pairs come only keys of the optional entries, at most one pair per entry. */
  lemma QueryKeys(head: Params, e: seq<(bool, string, string)>)
    requires |head| == 2
    requires |e| == 5 && e[0].1 == "search" && e[1].1 == "role" && e[2].1 == "status"
      && e[3].1 == "verified" && e[4].1 == "sort"
    ensures var q := head + Optional(e);
      && 2 <= |q| <= 7
      && forall k :: 2 <= k < |q| ==> q[k].0 in {"search", "role", "status", "verified", "sort"}
  {
    OptionalKeeps(e);
    var q := head + Optional(e);
    forall k | 2 <= k < |q| ensures q[k].0 in {"search", "role", "status", "verified", "sort"} {
      assert q[k] == Optional(e)[k - 2];
      assert FromSetEntry(e, Optional(e)[k - 2]);
      var j :| 0 <= j < |e| && e[j].0 && Optional(e)[k - 2] == (e[j].1, e[j].2);
    }
  }

  /** A key that is neither fixed pair's is looked up among the optional entries. */
  lemma LookupAfterTwo(head: Params, e: seq<(bool, string, string)>, key: string)
    requires |head| == 2 && head[0].0 != key && head[1].0 != key && |e| == 5
    ensures Lookup(head + Optional(e), key) ==
      if e[0].0 && e[0].1 == key then Some(e[0].2)
      else if e[1].0 && e[1].1 == key then Some(e[1].2)
      else if e[2].0 && e[2].1 == key then Some(e[2].2)
      else if e[3].0 && e[3].1 == key then Some(e[3].2)
      else if e[4].0 && e[4].1 == key then Some(e[4].2)
      else None
  {
    LookupOfTwo(head, key);
    LookupOptional(e, key);
    LookupConcat(head, Optional(e), key);
    FirstSetOfFive(e, key);
  }

  /** `Lookup` on two pairs, spelled out. */
  lemma LookupOfTwo(two: Params, key: string)
    requires |two| == 2
    ensures Lookup(two, key) ==
      if two[0].0 == key then Some(two[0].1) else if two[1].0 == key then Some(two[1].1) else None
  {
    var rest := two[1..];
    assert rest[0] == two[1] && rest[1..] == [];
    assert Lookup(rest, key) == if two[1].0 == key then Some(two[1].1) else Lookup([], key);
  }

  /** `FirstSet` on five entries, spelled out. */
  lemma FirstSetOfFive(e: seq<(bool, string, string)>, key: string)
    requires |e| == 5
    ensures FirstSet(e, key) ==
      if e[0].0 && e[0].1 == key then Some(e[0].2)
      else if e[1].0 && e[1].1 == key then Some(e[1].2)
      else if e[2].0 && e[2].1 == key then Some(e[2].2)
      else if e[3].0 && e[3].1 == key then Some(e[3].2)
      else if e[4].0 && e[4].1 == key then Some(e[4].2)
      else None
  {
    FirstSetStep(e, 4, key);
    FirstSetStep(e, 3, key);
    FirstSetStep(e, 2, key);
    FirstSetStep(e, 1, key);
    FirstSetStep(e, 0, key);
    assert e[0..] == e;
  }

  lemma FirstSetStep(e: seq<(bool, string, string)>, i: nat, key: string)
    requires i < |e|
    ensures FirstSet(e[i..], key) == if e[i].0 && e[i].1 == key then Some(e[i].2) else FirstSet(e[i + 1..], key)
  {
    assert e[i..][0] == e[i] && e[i..][1..] == e[i + 1..];
  }

  /** The filters as `fetchUsers` sends them, converted to the server's names and values. */
  function FetchEntries(v: ViewState): seq<(bool, string, string)> {
    [(!IsBlank(v.searchTerm), "search", Trim(v.searchTerm)),
     (v.role != "all", "role", ToUpper(v.role)),
     (v.status == "active" || v.status == "inactive", "isActive", if v.status == "active" then "true" else "false"),
     (v.verified != "all", "isEmailVerified", if v.verified == "verified" then "true" else "false"),
     (v.sort != "newest", "sort", v.sort)]
  }

  /**
   * The request `fetchUsers` sends for `targetPage`: the converted filters,
   * then the page raised to at least 1 and the limit.
   */
  function FetchParams(v: ViewState, targetPage: int): Params {
    Optional(FetchEntries(v))
    + [("page", IntString(if targetPage > 1 then targetPage else 1)), ("limit", IntString(v.limit))]
  }

  /**
   * What the request holds, key by key: the role upper-cased, the status as
   * an `isActive` flag (nothing for `locked` or `all`), the verification
   * filter as an `isEmailVerified` flag, and a page of at least 1.
   */
  lemma FetchParamsContents(v: ViewState, targetPage: int)
    ensures var q := FetchParams(v, targetPage);
      && Lookup(q, "search") == (if IsBlank(v.searchTerm) then None else Some(Trim(v.searchTerm)))
      && Lookup(q, "role") == (if v.role == "all" then None else Some(ToUpper(v.role)))
      && Lookup(q, "isActive") == (if v.status == "active" then Some("true") else if v.status == "inactive" then Some("false") else None)
      && Lookup(q, "isEmailVerified") == (if v.verified == "all" then None else if v.verified == "verified" then Some("true") else Some("false"))
      && Lookup(q, "sort") == (if v.sort == "newest" then None else Some(v.sort))
      && Lookup(q, "page") == Some(IntString(if targetPage > 1 then targetPage else 1))
      && Lookup(q, "limit") == Some(IntString(v.limit))
  {
    FetchShape(FetchEntries(v), [("page", IntString(if targetPage > 1 then targetPage else 1)), ("limit", IntString(v.limit))]);
  }

  /**
   * Any request of the five optional entries in the order `fetchUsers` sets
   * them followed by the page and the limit, whatever their conditions and
   * values.
   */
  lemma FetchShape(e: seq<(bool, string, string)>, tail: Params)
    requires |e| == 5 && e[0].1 == "search" && e[1].1 == "role" && e[2].1 == "isActive"
      && e[3].1 == "isEmailVerified" && e[4].1 == "sort"
    requires |tail| == 2 && tail[0].0 == "page" && tail[1].0 == "limit"
    ensures var q := Optional(e) + tail;
      && Lookup(q, "search") == (if e[0].0 then Some(e[0].2) else None)
      && Lookup(q, "role") == (if e[1].0 then Some(e[1].2) else None)
      && Lookup(q, "isActive") == (if e[2].0 then Some(e[2].2) else None)
      && Lookup(q, "isEmailVerified") == (if e[3].0 then Some(e[3].2) else None)
      && Lookup(q, "sort") == (if e[4].0 then Some(e[4].2) else None)
      && Lookup(q, "page") == Some(tail[0].1)
      && Lookup(q, "limit") == Some(tail[1].1)
  {
    LookupBeforeTwo(e, tail, "search");
    LookupBeforeTwo(e, tail, "role");
    LookupBeforeTwo(e, tail, "isActive");
    LookupBeforeTwo(e, tail, "isEmailVerified");
    LookupBeforeTwo(e, tail, "sort");
    LookupBeforeTwo(e, tail, "page");
    LookupBeforeTwo(e, tail, "limit");
  }

  /** A key is looked up among the optional entries first, then in the two trailing pairs. */
  lemma LookupBeforeTwo(e: seq<(bool, string, string)>, tail: Params, key: string)
    requires |e| == 5 && |tail| == 2
    ensures Lookup(Optional(e) + tail, key) ==
      if e[0].0 && e[0].1 == key then Some(e[0].2)
      else if e[1].0 && e[1].1 == key then Some(e[1].2)
      else if e[2].0 && e[2].1 == key then Some(e[2].2)
      else if e[3].0 && e[3].1 == key then Some(e[3].2)
      else if e[4].0 && e[4].1 == key then Some(e[4].2)
      else if tail[0].0 == key then Some(tail[0].1)
      else if tail[1].0 == key then Some(tail[1].1)
      else None
  {
    LookupOptional(e, key);
    LookupConcat(Optional(e), tail, key);
    FirstSetOfFive(e, key);
    LookupOfTwo(tail, key);
  }

  // ---------------------------------------------------------------------------
  // The state after a server reply

  /** The reply's paging fields, with `hasMore`, `nextPage` and `prevPage` derived from them. */
  function FetchedPagination(prev: PaginationState, page: int, limit: int, total: int, totalPages: int): (r: PaginationState)
    ensures r.page == page && r.limit == limit && r.total == total && r.totalPages == totalPages
    ensures r.hasMore <==> page < totalPages
    ensures r.nextPage == (if r.hasMore then Some(page + 1) else None)
    ensures r.prevPage == (if page > 1 then Some(page - 1) else None)
  {
    prev.(page := page, limit := limit, total := total, totalPages := totalPages,
          hasMore := page < totalPages,
          nextPage := if page < totalPages then Some(page + 1) else None,
          prevPage := if page > 1 then Some(page - 1) else None)
  }

  /** Next and previous pages, when offered, are neighbours of the page and lie in 1..totalPages. */
  lemma FetchedNeighboursInRange(prev: PaginationState, page: int, limit: int, total: int, totalPages: int)
    requires 1 <= page <= totalPages
    ensures var r := FetchedPagination(prev, page, limit, total, totalPages);
      && (r.nextPage.Some? ==> r.nextPage.value == page + 1 && r.nextPage.value <= totalPages)
      && (r.prevPage.Some? ==> r.prevPage.value == page - 1 && r.prevPage.value >= 1)
      && (r.nextPage.None? <==> page == totalPages)
      && (r.prevPage.None? <==> page == 1)
  {
  }

  // ---------------------------------------------------------------------------
  // Page changes

  /** `handlePageChange`: the requested page clamped to 1..totalPages (1 wins when totalPages < 1). */
  function HandlePageChange(s: PaginationState, page: int): (r: PaginationState)
    ensures r == s.(page := r.page)
    ensures r.page >= 1
    ensures s.totalPages >= 1 ==> r.page <= s.totalPages
    ensures 1 <= page <= s.totalPages ==> r.page == page
    ensures page > s.totalPages && s.totalPages >= 1 ==> r.page == s.totalPages
    ensures page < 1 ==> r.page == 1
    ensures s.totalPages < 1 ==> r.page == 1
  {
    var lower := if page < s.totalPages then page else s.totalPages;
    s.(page := if lower > 1 then lower else 1)
  }

  /** Clamping twice is clamping once. */
  lemma PageChangeIdempotent(s: PaginationState, page: int)
    ensures var r := HandlePageChange(s, page); HandlePageChange(r, r.page) == r
  {
  }

  /** `handlePageJump`: the typed value is used only when it parses to a page in 1..totalPages. */
  function PageJump(s: PaginationState, jumpValue: string): (r: PaginationState)
    ensures r == s || (ParseInt(jumpValue).Some? && r == s.(page := ParseInt(jumpValue).value))
    ensures r != s ==> 1 <= r.page <= s.totalPages
  {
    match ParseInt(jumpValue)
    case None => s
    case Some(p) => if 1 <= p && p <= s.totalPages then HandlePageChange(s, p) else s
  }

  /** `handlePageJumpInputChange`: only an all-digit value (the empty one included) replaces the field's value. */
  function PageJumpInputChange(current: string, typed: string): (r: string)
    ensures AllDigits(typed) ==> r == typed
    ensures !AllDigits(typed) ==> r == current
  {
    if AllDigits(typed) then typed else current
  }

  /**
   * A jump from the field: the field only ever holds digits, and the jump
   * happens exactly when they spell a page in 1..totalPages, to that page.
   */
  lemma PageJumpFromField(s: PaginationState, current: string, typed: string)
    requires AllDigits(current)
    ensures var value := PageJumpInputChange(current, typed);
      && AllDigits(value)
      && (value != "" && 1 <= DigitsValue(value, 10) <= s.totalPages ==>
            PageJump(s, value) == s.(page := DigitsValue(value, 10)))
      && (value == "" || DigitsValue(value, 10) < 1 || DigitsValue(value, 10) > s.totalPages ==>
            PageJump(s, value) == s)
  {
    var value := PageJumpInputChange(current, typed);
    ParseIntOfDigits(value);
  }

  // ---------------------------------------------------------------------------
  // Selection

  /** The ids of `s` other than `x`, in order. */
  function Without(s: seq<string>, x: string): (r: seq<string>)
    ensures x !in r
    ensures forall y :: y != x ==> (y in r <==> y in s)
    ensures x !in s ==> r == s
    ensures x in s ==> |r| < |s|
  {
    if s == [] then []
    else if s[0] == x then Without(s[1..], x)
    else [s[0]] + Without(s[1..], x)
  }

  /** Filtering a concatenation filters each part in turn: the kept ids stay in their order. */
  lemma {:induction false} WithoutConcat(a: seq<string>, b: seq<string>, x: string)
    ensures Without(a + b, x) == Without(a, x) + Without(b, x)
  {
    if a != [] {
      assert (a + b)[1..] == a[1..] + b;
      WithoutConcat(a[1..], b, x);
    } else {
      assert a + b == b;
    }
  }

  /** `handleSelectUser`: a selected id is removed (every copy), an unselected one appended. */
  function SelectUser(selected: seq<string>, id: string): (r: seq<string>)
    ensures id in r <==> id !in selected
    ensures forall y :: y != id ==> (y in r <==> y in selected)
    ensures id !in selected ==> r == selected + [id]
    ensures id in selected ==> r == Without(selected, id)
  {
    if id in selected then Without(selected, id) else selected + [id]
  }

  /** `prev.filter(id => !ids.includes(id))`. */
  function WithoutAll(s: seq<string>, ids: seq<string>): (r: seq<string>)
    ensures forall y :: y in r <==> y in s && y !in ids
    ensures (forall k :: 0 <= k < |s| ==> s[k] !in ids) ==> r == s
  {
    if s == [] then []
    else if s[0] in ids then WithoutAll(s[1..], ids)
    else [s[0]] + WithoutAll(s[1..], ids)
  }

  /** Removing a set of ids from a concatenation removes them from each part in turn, keeping the order. */
  lemma {:induction false} WithoutAllConcat(a: seq<string>, b: seq<string>, ids: seq<string>)
    ensures WithoutAll(a + b, ids) == WithoutAll(a, ids) + WithoutAll(b, ids)
  {
    if a != [] {
      assert (a + b)[1..] == a[1..] + b;
      WithoutAllConcat(a[1..], b, ids);
    } else {
      assert a + b == b;
    }
  }

  predicate NoDuplicates(s: seq<string>) {
    forall i, j :: 0 <= i < j < |s| ==> s[i] != s[j]
  }

  /** `x` occurs in `s` before `y` first does. */
  predicate SeenBefore(s: seq<string>, x: string, y: string) {
    exists p | 0 <= p < |s| :: s[p] == x && y !in s[..p + 1]
  }

  /**
   * `Array.from(new Set(s))`: each id once, in the order of the ids' first
   * occurrences in `s`.
   */
  function Dedup(s: seq<string>): (r: seq<string>)
    ensures NoDuplicates(r)
    ensures forall y :: y in r <==> y in s
    ensures forall i, j :: 0 <= i < j < |r| ==> SeenBefore(s, r[i], r[j])
    decreases |s|
  {
    if s == [] then []
    else
      var init := s[..|s| - 1];
      var rest := Dedup(init);
      var last := s[|s| - 1];
      assert s == init + [last];
      SeenBeforeExtends(init, last, rest);
      if last in rest then rest else rest + [last]
  }

  /**
   * What comes before, in order, in a list stays before in that list
   * extended by one id; and an id not yet seen comes after every id seen.
   */
  lemma SeenBeforeExtends(init: seq<string>, last: string, rest: seq<string>)
    requires forall y :: y in rest <==> y in init
    requires forall i, j :: 0 <= i < j < |rest| ==> SeenBefore(init, rest[i], rest[j])
    ensures forall i, j :: 0 <= i < j < |rest| ==> SeenBefore(init + [last], rest[i], rest[j])
    ensures last !in rest ==> forall i :: 0 <= i < |rest| ==> SeenBefore(init + [last], rest[i], last)
  {
    var s := init + [last];
    forall i, j | 0 <= i < j < |rest| ensures SeenBefore(s, rest[i], rest[j]) {
      var p :| 0 <= p < |init| && init[p] == rest[i] && rest[j] !in init[..p + 1];
      assert s[..p + 1] == init[..p + 1];
    }
    if last !in rest {
      forall i | 0 <= i < |rest| ensures SeenBefore(s, rest[i], last) {
        assert rest[i] in init;
        var p :| 0 <= p < |init| && init[p] == rest[i];
        assert s[..p + 1] == init[..p + 1];
        assert last !in init;
      }
    }
  }

  lemma {:induction false} DedupKeepsDistinctPrefix(a: seq<string>, b: seq<string>)
    requires NoDuplicates(a)
    ensures |Dedup(a + b)| >= |a| && Dedup(a + b)[..|a|] == a
    decreases |b|
  {
    if b == [] {
      assert a + b == a;
      DedupOfDistinct(a);
    } else {
      var s := a + b;
      assert s[..|s| - 1] == a + b[..|b| - 1];
      DedupKeepsDistinctPrefix(a, b[..|b| - 1]);
    }
  }

  lemma {:induction false} DedupOfDistinct(a: seq<string>)
    requires NoDuplicates(a)
    ensures Dedup(a) == a
    decreases |a|
  {
    if a != [] {
      var init := a[..|a| - 1];
      DedupOfDistinct(init);
      forall k | 0 <= k < |init| ensures init[k] != a[|a| - 1] {
        assert init[k] == a[k];
      }
      assert a == init + [a[|a| - 1]];
    }
  }

  /** Every id of the page is selected (true of an empty page too). */
  predicate AllSelected(pageIds: seq<string>, selected: seq<string>) {
    forall k :: 0 <= k < |pageIds| ==> pageIds[k] in selected
  }

  /**
   * `handleSelectAll`: when the whole page is selected its ids are removed,
   * otherwise they are added without duplicates; ids from other pages stay
   * selected either way.
   */
  function SelectAll(selected: seq<string>, pageIds: seq<string>): (r: seq<string>)
    ensures AllSelected(pageIds, selected) ==> forall y :: y in r <==> y in selected && y !in pageIds
    ensures !AllSelected(pageIds, selected) ==> forall y :: y in r <==> y in selected || y in pageIds
    ensures !AllSelected(pageIds, selected) ==> NoDuplicates(r)
    ensures forall y :: y in selected && y !in pageIds ==> y in r
  {
    if AllSelected(pageIds, selected) then WithoutAll(selected, pageIds)
    else Dedup(selected + pageIds)
  }

  /**
   * Select-all toggles what the table's header checkbox shows: on a page
   * that was fully selected, afterwards none of it is; on any other
   * non-empty page, afterwards all of it is. An empty page leaves the
   * selection alone.
   */
  lemma SelectAllToggles(selected: seq<string>, pageIds: seq<string>)
    ensures var r := SelectAll(selected, pageIds);
      && (UserTable.AllCurrentPageSelected(pageIds, selected) ==> forall k :: 0 <= k < |pageIds| ==> pageIds[k] !in r)
      && (|pageIds| > 0 && !UserTable.AllCurrentPageSelected(pageIds, selected) ==> UserTable.AllCurrentPageSelected(pageIds, r))
      && (pageIds == [] ==> r == selected)
  {
  }

  /** Adding a page to a selection without duplicates keeps the earlier selection, in order, in front. */
  lemma SelectAllKeepsOrder(selected: seq<string>, pageIds: seq<string>)
    requires NoDuplicates(selected) && !AllSelected(pageIds, selected)
    ensures var r := SelectAll(selected, pageIds); |r| >= |selected| && r[..|selected|] == selected
  {
    DedupKeepsDistinctPrefix(selected, pageIds);
  }

  // ---------------------------------------------------------------------------
  // The page-number strip

  datatype PageToken = PageButton(page: int, active: bool) | Ellipsis

  /** Buttons for pages lo..hi-1, the current one active. */
  function Buttons(lo: int, hi: int, current: int): seq<PageToken>
    decreases hi - lo
  {
    if hi <= lo then [] else Buttons(lo, hi - 1, current) + [PageButton(hi - 1, current == hi - 1)]
  }

  /** Buttons for the pages lo..hi-1 that lie strictly between 1 and `total`. */
  function Middle(lo: int, hi: int, total: int, current: int): seq<PageToken>
    decreases hi - lo
  {
    if hi <= lo then []
    else Middle(lo, hi - 1, total, current)
         + (if 1 < hi - 1 < total then [PageButton(hi - 1, current == hi - 1)] else [])
  }

  /** The window of middle pages around the current one, for more than seven pages. */
  function Window(current: int, total: int): (int, int) {
    if current <= 3 then (2, 5)
    else if current >= total - 2 then (total - 4, total - 1)
    else (current - 1, current + 1)
  }

  /** What `renderPaginationNumbers` renders, as tokens. */
  function PaginationTokens(current: int, total: int): seq<PageToken> {
    if total <= MAX_PLAIN_PAGES then Buttons(1, total + 1, current)
    else
      var (start, end) := Window(current, total);
      [PageButton(1, current == 1)]
      + (if start > 2 then [Ellipsis] else [])
      + Middle(start, end + 1, total, current)
      + (if end < total - 1 then [Ellipsis] else [])
      + (if total > 1 then [PageButton(total, current == total)] else [])
  }

  /** `renderPaginationNumbers`, loop by loop. */
  method RenderPaginationNumbers(currentPage: int, totalPages: int) returns (pages: seq<PageToken>)
    ensures pages == PaginationTokens(currentPage, totalPages)
  {
    if totalPages <= MAX_PLAIN_PAGES {
      pages := PlainPageNumbers(currentPage, totalPages);
    } else {
      pages := WindowPageNumbers(currentPage, totalPages);
    }
  }

  /** The first loop: a button for every page from 1 to `totalPages`. */
  method PlainPageNumbers(currentPage: int, totalPages: int) returns (pages: seq<PageToken>)
    ensures pages == Buttons(1, totalPages + 1, currentPage)
  {
    pages := [];
    var i := 1;
    while i <= totalPages
      invariant 1 <= i <= (if totalPages >= 1 then totalPages + 1 else 1)
      invariant pages == Buttons(1, i, currentPage)
    {
      pages := pages + [PageButton(i, currentPage == i)];
      i := i + 1;
    }
  }

  /** More than seven pages: the first page, the window with its ellipses, and the last page. */
  method WindowPageNumbers(currentPage: int, totalPages: int) returns (pages: seq<PageToken>)
    requires totalPages > MAX_PLAIN_PAGES
    ensures pages == PaginationTokens(currentPage, totalPages)
  {
    pages := [PageButton(1, currentPage == 1)];
    var startPage, endPage;
    if currentPage <= 3 {
      startPage, endPage := 2, 5;
    } else if currentPage >= totalPages - 2 {
      startPage, endPage := totalPages - 4, totalPages - 1;
    } else {
      startPage, endPage := currentPage - 1, currentPage + 1;
    }
    assert (startPage, endPage) == Window(currentPage, totalPages);
    if startPage > 2 {
      pages := pages + [Ellipsis];
    }
    var middle := MiddlePageNumbers(startPage, endPage, currentPage, totalPages);
    pages := pages + middle;
    if endPage < totalPages - 1 {
      pages := pages + [Ellipsis];
    }
    pages := pages + [PageButton(totalPages, currentPage == totalPages)];
  }

  /** The window loop: a button for every page of the window strictly between the first and the last. */
  method MiddlePageNumbers(startPage: int, endPage: int, currentPage: int, totalPages: int) returns (pages: seq<PageToken>)
    requires startPage <= endPage + 1
    ensures pages == Middle(startPage, endPage + 1, totalPages, currentPage)
  {
    pages := [];
    var i := startPage;
    while i <= endPage
      invariant startPage <= i <= endPage + 1
      invariant pages == Middle(startPage, i, totalPages, currentPage)
    {
      if i > 1 && i < totalPages {
        pages := pages + [PageButton(i, currentPage == i)];
      }
      i := i + 1;
    }
  }

  lemma {:induction false} ButtonsAt(lo: int, hi: int, current: int)
    ensures |Buttons(lo, hi, current)| == (if hi <= lo then 0 else hi - lo)
    ensures forall k :: 0 <= k < |Buttons(lo, hi, current)| ==>
      Buttons(lo, hi, current)[k] == PageButton(lo + k, current == lo + k)
    decreases hi - lo
  {
    if hi > lo {
      ButtonsAt(lo, hi - 1, current);
    }
  }

  lemma {:induction false} MiddleUnguarded(lo: int, hi: int, total: int, current: int)
    requires 1 < lo && hi <= total
    ensures Middle(lo, hi, total, current) == Buttons(lo, hi, current)
    decreases hi - lo
  {
    if hi > lo {
      MiddleUnguarded(lo, hi - 1, total, current);
    }
  }

  /** Up to seven pages, every page from 1 to the last is shown in order, the current one active, with no ellipsis. */
  lemma FewPagesShowAll(current: int, total: int)
    requires total <= MAX_PLAIN_PAGES
    ensures var t := PaginationTokens(current, total);
      && |t| == (if total < 0 then 0 else total)
      && forall k :: 0 <= k < |t| ==> t[k] == PageButton(k + 1, current == k + 1)
  {
    ButtonsAt(1, total + 1, current);
  }

  /**
   * Above seven pages: the window is [2,5] near the start, [total-4,
   * total-1] near the end and [current-1, current+1] in between; it always
   * lies strictly between the first and the last page, so none of its pages
   * is skipped.
   */
  lemma WindowInside(current: int, total: int)
    requires total > MAX_PLAIN_PAGES
    ensures var (start, end) := Window(current, total);
      && 2 <= start && start + 2 <= end <= total - 1
      && end - start + 1 == (if current <= 3 || current >= total - 2 then 4 else 3)
      && (start > 2 <==> current > 3)
      && (end < total - 1 <==> current < total - 2)
  {
  }

  /**
   * Above seven pages the strip is: page 1, an ellipsis exactly when the
   * window starts after 2, every page of the window, an ellipsis exactly
   * when the window ends before total-1, and the last page; seven tokens in
   * all, whatever the current page.
   */
  lemma ManyPagesLayout(current: int, total: int)
    requires total > MAX_PLAIN_PAGES
    ensures var (start, end) := Window(current, total);
      && PaginationTokens(current, total) ==
           [PageButton(1, current == 1)]
           + (if start > 2 then [Ellipsis] else [])
           + Buttons(start, end + 1, current)
           + (if end < total - 1 then [Ellipsis] else [])
           + [PageButton(total, current == total)]
      && |PaginationTokens(current, total)| == 7
  {
    var (start, end) := Window(current, total);
    WindowInside(current, total);
    MiddleUnguarded(start, end + 1, total, current);
    ButtonsAt(start, end + 1, current);
  }

  /**
   * Whatever the number of pages, a current page in range has its button
   * and it is the only active one; every button leads, through
   * `handlePageChange`, to exactly its own page.
   */
  lemma CurrentPageShown(s: PaginationState)
    requires 1 <= s.page <= s.totalPages
    ensures var t := PaginationTokens(s.page, s.totalPages);
      && (exists k :: 0 <= k < |t| && t[k] == PageButton(s.page, true))
      && (forall k :: 0 <= k < |t| && t[k].PageButton? && t[k].active ==> t[k].page == s.page)
      && (forall k :: 0 <= k < |t| && t[k].PageButton? ==> HandlePageChange(s, t[k].page).page == t[k].page)
  {
    var c, total := s.page, s.totalPages;
    var t := PaginationTokens(c, total);
    if total <= MAX_PLAIN_PAGES {
      FewPagesShowAll(c, total);
      assert t[c - 1] == PageButton(c, true);
    } else {
      ManyPagesLayout(c, total);
      WindowInside(c, total);
      var (start, end) := Window(c, total);
      var b := Buttons(start, end + 1, c);
      ButtonsAt(start, end + 1, c);
      var pre := [PageButton(1, c == 1)] + (if start > 2 then [Ellipsis] else []);
      var post := (if end < total - 1 then [Ellipsis] else []) + [PageButton(total, c == total)];
      assert t == pre + b + post;
      if c == 1 {
        assert t[0] == PageButton(c, true);
      } else if c == total {
        assert t[|t| - 1] == PageButton(c, true);
      } else {
        assert start <= c <= end;
        assert t[|pre| + (c - start)] == PageButton(c, true);
      }
      forall k | 0 <= k < |t| && t[k].PageButton?
        ensures 1 <= t[k].page <= total && (t[k].active ==> t[k].page == c)
      {
        if k < |pre| {
        } else if k < |pre| + |b| {
          assert t[k] == b[k - |pre|];
        } else {
          assert t[k] == post[k - |pre| - |b|];
        }
      }
    }
  }
}
