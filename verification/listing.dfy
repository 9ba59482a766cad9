/** Listing accounts from memory: the page parameters, the filter, the order and the slice. */
module Listing {
  import opened Text
  import opened Store
  import Rfc3339

  // ---------- page parameters ----------

  const INT64 := 0x8000_0000_0000_0000

  /** strconv.Atoi. */
  function Atoi(s: string): Option<int> {
    var negative := s != "" && s[0] == '-';
    var digits := if s != "" && (s[0] == '-' || s[0] == '+') then s[1..] else s;
    if digits == "" || exists c | c in digits :: !IsDigit(c) then None
    else
      var value: int := if negative then 0 - DecimalValue(digits) else DecimalValue(digits);
      if -INT64 <= value < INT64 then Some(value) else None
  }

  /** parsePage. */
  function ParsePage(rawPage: string, rawPageSize: string): (page: Option<(int, int)>)
    ensures page.Some? ==> 1 <= page.value.0 < INT64 && 1 <= page.value.1 <= 100
  {
    match (Atoi(rawPage), Atoi(rawPageSize))
    case (Some(page), Some(pageSize)) =>
      if page < 1 || pageSize < 1 || pageSize > 100 then None else Some((page, pageSize))
    case _ => None
  }

  lemma ItoaThenAtoi(n: nat)
    requires n < INT64
    ensures Atoi(Itoa(n)) == Some(n)
  {
    ItoaIsDecimal(n);
  }

  /** A sign may stand before the digits, and nothing else may stand anywhere. */
  lemma SignsAndOthers(n: nat, s: string)
    requires n < INT64
    ensures Atoi("+" + Itoa(n)) == Some(n) && Atoi("-" + Itoa(n)).Some? && Atoi("-" + Itoa(n)).value + n == 0
    ensures (exists i | 0 < i < |s| :: !IsDigit(s[i])) || s in {"", "+", "-"} ==> Atoi(s) == None
    ensures s != "" && !IsDigit(s[0]) && s[0] != '+' && s[0] != '-' ==> Atoi(s) == None
  {
    ItoaIsDecimal(n);
    assert ("+" + Itoa(n))[1..] == Itoa(n) && ("-" + Itoa(n))[1..] == Itoa(n);
    if i :| 0 < i < |s| && !IsDigit(s[i]) {
      assert s[1..][i - 1] == s[i];
    }
  }

  /** A number outside int64 is none. */
  lemma TooLargeIsNone(n: nat)
    requires n >= INT64
    ensures Atoi(Itoa(n)) == None
  {
    ItoaIsDecimal(n);
  }

  /** Every page from the first on can be asked for, in sizes from 1 to 100 and no others. */
  lemma EveryPageCanBeAsked(page: nat, pageSize: nat)
    requires page < INT64 && pageSize < INT64
    ensures ParsePage(Itoa(page), Itoa(pageSize)) ==
        if page >= 1 && 1 <= pageSize <= 100 then Some((page, pageSize)) else None
  {
    ItoaThenAtoi(page);
    ItoaThenAtoi(pageSize);
  }

  // ---------- the slice ----------

  /** The result of an int64 operation: the number of that range that differs by a multiple of 2^64. */
  function Wrap(n: int): (w: int)
    ensures -INT64 <= w < INT64
    decreases if n < 0 then -n - 1 else n
  {
    if n >= INT64 then Wrap(n - 2 * INT64)
    else if n < -INT64 then Wrap(n + 2 * INT64)
    else n
  }

  /** By a multiple of 2^64. */
  lemma {:induction false} WrapIsCongruent(n: int) returns (k: int)
    ensures Wrap(n) == n + k * 0x1_0000_0000_0000_0000
    decreases if n < 0 then -n - 1 else n
  {
    if n >= INT64 {
      k := WrapIsCongruent(n - 2 * INT64);
      k := k - 1;
    } else if n < -INT64 {
      k := WrapIsCongruent(n + 2 * INT64);
      k := k + 1;
    } else {
      k := 0;
    }
  }

  function Least(a: int, b: int): int { if a < b then a else b }

  /** The slice of the sorted list at the product of page - 1 and the page size, or None where slicing panics. */
  function Slice<T>(all: seq<T>, product: int, pageSize: int): Option<seq<T>> {
    var start := Least(Wrap(product), |all|);
    var end := Least(Wrap(start + pageSize), |all|);
    if 0 <= start <= end then Some(all[start..end]) else None
  }

  /** The offset of a page before it is cut to 64 bits. */
  function Offset(page: int, pageSize: int): (product: int)
    ensures page >= 1 && pageSize >= 1 ==> product >= page - 1
  {
    (page - 1) * pageSize
  }

  function PageOf<T>(all: seq<T>, page: int, pageSize: int): Option<seq<T>> {
    Slice(all, Offset(page, pageSize), pageSize)
  }

  /** The page as it is meant: the elements at positions (page - 1) * pageSize up to page * pageSize. */
  function IntendedPage<T>(all: seq<T>, product: nat, pageSize: nat): seq<T> {
    all[Least(product, |all|)..Least(product + pageSize, |all|)]
  }

  predicate IsPage(page: int, pageSize: int) { 1 <= page < INT64 && 1 <= pageSize <= 100 }

  /** A list that fits into memory. */
  predicate Fits<T>(all: seq<T>) { |all| <= INT64 - 101 }

  lemma SliceIsIntendedIff<T>(all: seq<T>, product: nat, pageSize: nat)
    requires Fits(all) && 1 <= pageSize <= 100
    ensures Slice(all, product, pageSize).None? <==> Wrap(product) < 0
    ensures Slice(all, product, pageSize) == Some(IntendedPage(all, product, pageSize))
      <==> product < INT64 || Wrap(product) >= |all|
  {
    var offset := Wrap(product);
    if product >= INT64 && 0 <= offset < |all| {
      assert |Slice(all, product, pageSize).value| > 0;
      assert IntendedPage(all, product, pageSize) == [];
    }
  }

  /** Slicing panics exactly when the offset wraps to a negative number, and returns the page that is meant exactly
      when the offset does not overflow or wraps to a number past the list. */
  lemma PageIsIntendedIff<T>(all: seq<T>, page: int, pageSize: int)
    requires IsPage(page, pageSize) && Fits(all)
    ensures PageOf(all, page, pageSize).None? <==> Wrap(Offset(page, pageSize)) < 0
    ensures PageOf(all, page, pageSize) == Some(IntendedPage(all, Offset(page, pageSize), pageSize))
      <==> Offset(page, pageSize) < INT64 || Wrap(Offset(page, pageSize)) >= |all|
  {
    SliceIsIntendedIff(all, Offset(page, pageSize), pageSize);
  }

  /** Page 2^58 + 1 of size 64 is answered with the first page, and page 2^57 + 1 is a panic. */
  lemma OverflowingPages<T>(all: seq<T>)
    requires Fits(all)
    ensures PageOf(all, 0x400_0000_0000_0001, 64) == PageOf(all, 1, 64)
    ensures PageOf(all, 0x200_0000_0000_0001, 64).None?
  {
  }

  // ---------- all pages ----------

  /** The first n pages one after the other. */
  function Pages<T>(all: seq<T>, n: nat, pageSize: nat): seq<T> {
    if n == 0 then []
    else
      Pages(all, n - 1, pageSize) + match PageOf(all, n, pageSize) case Some(items) => items case None => []
  }

  /** The first n pages are the list up to the offset of the page after them. */
  lemma {:induction false} PagesArePrefix<T>(all: seq<T>, n: nat, pageSize: nat)
    requires Fits(all) && 1 <= pageSize <= 100 && Offset(n, pageSize) < |all|
    ensures Pages(all, n, pageSize) == all[..Least(Offset(n + 1, pageSize), |all|)]
  {
    NextOffset(n, pageSize);
    if n > 0 {
      NextOffset(n - 1, pageSize);
      PagesArePrefix(all, n - 1, pageSize);
      SliceIsIntendedIff(all, Offset(n, pageSize), pageSize);
    }
  }

  lemma NextOffset(n: int, pageSize: int)
    ensures Offset(n + 1, pageSize) == Offset(n, pageSize) + pageSize
  {
  }

  /** How many pages a list has. */
  function PageCount(total: nat, pageSize: nat): (count: nat)
    requires pageSize >= 1
    ensures Offset(count, pageSize) < total || count == 0
    ensures Offset(count + 1, pageSize) >= total
  {
    var n := total + pageSize - 1;
    assert n == n / pageSize * pageSize + n % pageSize;
    n / pageSize
  }

  /** The pages up to the last nonempty one are the whole list, without gap or repeat. */
  lemma PagesAreTheList<T>(all: seq<T>, pageSize: nat)
    requires Fits(all) && 1 <= pageSize <= 100
    ensures Pages(all, PageCount(|all|, pageSize), pageSize) == all
  {
    var count := PageCount(|all|, pageSize);
    if count > 0 {
      PagesArePrefix(all, count, pageSize);
    }
  }

  /** A page after them whose offset does not overflow is empty. */
  lemma LaterPagesAreEmpty<T>(all: seq<T>, page: nat, pageSize: nat)
    requires Fits(all) && 1 <= pageSize <= 100 && page > PageCount(|all|, pageSize) && Offset(page, pageSize) < INT64
    ensures PageOf(all, page, pageSize) == Some([])
  {
    OffsetsAscend(PageCount(|all|, pageSize) + 1, page, pageSize);
    assert IntendedPage(all, Offset(page, pageSize), pageSize) == [];
    SliceIsIntendedIff(all, Offset(page, pageSize), pageSize);
  }

  lemma {:induction false} OffsetsAscend(page: int, later: int, pageSize: nat)
    requires page <= later
    ensures Offset(page, pageSize) <= Offset(later, pageSize)
    decreases later - page
  {
    if page < later {
      NextOffset(page, pageSize);
      OffsetsAscend(page + 1, later, pageSize);
    }
  }

  // ---------- the list ----------

  datatype Response = Response(accountId: string, account: string, status: string, roleIds: seq<string>,
                               isSuperAdmin: bool,
                               createdAt: string, updatedAt: string)

  /** What the filters are: a status or none, a lower-case part of the name or none, and how names are lowered. */
  datatype Filter = Filter(status: string, keyword: string, lower: string -> string)

  predicate Contains(s: string, part: string) {
    exists i | 0 <= i <= |s| :: part <= s[i..]
  }

  predicate Matches(f: Filter, a: Account) {
    && (f.status == "" || a.status == f.status)
    && (f.keyword == "" || Contains(f.lower(a.username), f.keyword))
  }

  /** Every time in the store can be written in RFC 3339. */
  predicate Datable(m: Memory) {
    forall id | id in m.accounts :: Rfc3339.InYears(m.accounts[id].createdAt)
      && Rfc3339.InYears(m.accounts[id].updatedAt)
  }

  /** accountToResponse with at most one role. */
  function ResponseOf(m: Memory, id: string): Response
    requires Datable(m) && id in m.accounts
  {
    var a := m.accounts[id];
    var roles := RolesIn(m.roles, a.id);
    Response(a.id, a.username, a.status, if |roles| > 1 then roles[..1] else roles, a.isSuperAdmin,
             Rfc3339.Format(a.createdAt), Rfc3339.Format(a.updatedAt))
  }

  ghost function Responses(m: Memory): map<string, Response>
    requires Datable(m)
  {
    map id | id in m.accounts :: ResponseOf(m, id)
  }

  /** all lists what stands under the keys. */
  ghost predicate Listed(of: map<string, Response>, keys: seq<string>, all: seq<Response>) {
    |keys| == |all| && forall i | 0 <= i < |keys| :: keys[i] in of && all[i] == of[keys[i]]
  }

  predicate Descending(all: seq<Response>) {
    forall i, j | 0 <= i < j < |all| :: !Less(all[i].createdAt, all[j].createdAt)
  }

  ghost function MatchingKeys(m: Memory, f: Filter): set<string> {
    set id | id in m.accounts && Matches(f, m.accounts[id])
  }

  /** The list under the keys holds each matching account once and no other, the latest second of creation first. */
  ghost predicate IsListing(m: Memory, f: Filter, keys: seq<string>, all: seq<Response>)
    requires Datable(m)
  {
    Listed(Responses(m), keys, all) && multiset(keys) == multiset(MatchingKeys(m, f)) && LatestFirst(m, keys)
  }

  ghost predicate LatestFirst(m: Memory, keys: seq<string>) {
    forall i, j | 0 <= i < j < |keys| :: keys[i] in m.accounts && keys[j] in m.accounts
      && NotBefore(m.accounts[keys[i]], m.accounts[keys[j]])
  }

  /** a was created in the same second as b or in a later one. */
  predicate NotBefore(a: Account, b: Account) {
    a.createdAt / Rfc3339.SECOND >= b.createdAt / Rfc3339.SECOND
  }

  /** The loop over the map, in any order. */
  method Collect(m: Memory, f: Filter) returns (all: seq<Response>, ghost keys: seq<string>)
    requires Datable(m)
    ensures Listed(Responses(m), keys, all) && multiset(keys) == multiset(MatchingKeys(m, f))
  {
    ghost var of, matching := Responses(m), MatchingKeys(m, f);
    all, keys := [], [];
    var rest := m.accounts.Keys;
    while rest != {}
      invariant rest <= m.accounts.Keys
      invariant Listed(of, keys, all)
      invariant multiset(keys) == multiset(matching - rest)
      decreases rest
    {
      var id :| id in rest;
      var matches := Matches(f, m.accounts[id]);
      assert matches <==> id in matching;
      OneLess(matching, rest, id);
      if matches {
        var r := ResponseOf(m, id);
        ListedNext(of, keys, all, id, r);
        all, keys := all + [r], keys + [id];
      }
      rest := rest - {id};
    }
    assert matching - {} == matching;
  }

  lemma ListedNext(of: map<string, Response>, keys: seq<string>, all: seq<Response>, id: string, r: Response)
    requires Listed(of, keys, all) && id in of && of[id] == r
    ensures Listed(of, keys + [id], all + [r])
    ensures multiset(keys + [id]) == multiset(keys) + multiset{id}
  {
  }

  lemma OneLess(matching: set<string>, rest: set<string>, id: string)
    requires id in rest
    ensures multiset(matching - (rest - {id}))
         == multiset(matching - rest) + if id in matching then multiset{id} else multiset{}
  {
    assert matching - (rest - {id}) == matching - rest + if id in matching then {id} else {};
  }

  /** Puts a response before the first that was not created later. */
  method InsertByCreation(ghost of: map<string, Response>, sorted: seq<Response>, ghost keys: seq<string>, r: Response,
                          ghost key: string)
    returns (all: seq<Response>, ghost order: seq<string>)
    requires Listed(of, keys, sorted) && Descending(sorted) && key in of && r == of[key]
    ensures Listed(of, order, all) && Descending(all) && multiset(order) == multiset(keys) + multiset{key}
  {
    var p := 0;
    while p < |sorted| && Less(r.createdAt, sorted[p].createdAt)
      invariant p <= |sorted|
      invariant forall i | 0 <= i < p :: Less(r.createdAt, sorted[i].createdAt)
    {
      p := p + 1;
    }
    all := sorted[..p] + [r] + sorted[p..];
    order := keys[..p] + [key] + keys[p..];
    InsertedDescends(sorted, r, p);
    InsertedIsListed(of, sorted, keys, key, p);
  }

  lemma InsertedIsListed(of: map<string, Response>, sorted: seq<Response>, keys: seq<string>, key: string, p: nat)
    requires Listed(of, keys, sorted) && key in of && p <= |keys|
    ensures Listed(of, keys[..p] + [key] + keys[p..], sorted[..p] + [of[key]] + sorted[p..])
    ensures multiset(keys[..p] + [key] + keys[p..]) == multiset(keys) + multiset{key}
  {
    assert keys == keys[..p] + keys[p..];
  }

  lemma InsertedDescends(sorted: seq<Response>, r: Response, p: nat)
    requires Descending(sorted) && p <= |sorted|
    requires forall i | 0 <= i < p :: Less(r.createdAt, sorted[i].createdAt)
    requires p < |sorted| ==> !Less(r.createdAt, sorted[p].createdAt)
    ensures Descending(sorted[..p] + [r] + sorted[p..])
  {
    forall i | 0 <= i < p ensures !Less(sorted[i].createdAt, r.createdAt) {
      if Less(sorted[i].createdAt, r.createdAt) {
        LessTransitive(sorted[i].createdAt, r.createdAt, sorted[i].createdAt);
        LessIrreflexive(sorted[i].createdAt);
      }
    }
    forall j | p <= j < |sorted| ensures !Less(r.createdAt, sorted[j].createdAt) {
      if Less(r.createdAt, sorted[j].createdAt) && j > p {
        LessTotal(sorted[p].createdAt, r.createdAt);
        if sorted[p].createdAt != r.createdAt {
          LessTransitive(sorted[p].createdAt, r.createdAt, sorted[j].createdAt);
        }
      }
    }
  }

  /** sort.Slice by descending text of the time of creation. */
  method SortByCreation(ghost of: map<string, Response>, all: seq<Response>, ghost keys: seq<string>)
    returns (sorted: seq<Response>, ghost order: seq<string>)
    requires Listed(of, keys, all)
    ensures Listed(of, order, sorted) && Descending(sorted) && multiset(order) == multiset(keys)
  {
    sorted, order := [], [];
    for i := 0 to |all|
      invariant Listed(of, order, sorted) && Descending(sorted)
      invariant multiset(order) == multiset(keys[..i])
    {
      assert keys[..i + 1] == keys[..i] + [keys[i]];
      sorted, order := InsertByCreation(of, sorted, order, all[i], keys[i]);
    }
    assert keys[..|keys|] == keys;
  }

  /** Descending texts are descending times. */
  lemma DescendingIsLatestFirst(m: Memory, keys: seq<string>, all: seq<Response>)
    requires Datable(m) && Listed(Responses(m), keys, all) && Descending(all)
    ensures LatestFirst(m, keys)
  {
    forall i, j | 0 <= i < j < |keys|
      ensures keys[i] in m.accounts && keys[j] in m.accounts && NotBefore(m.accounts[keys[i]], m.accounts[keys[j]])
    {
      assert !Less(all[i].createdAt, all[j].createdAt);
      CreationTexts(m, keys[i], keys[j]);
    }
  }

  lemma CreationTexts(m: Memory, id: string, other: string)
    requires Datable(m) && id in m.accounts && other in m.accounts
    ensures Less(ResponseOf(m, id).createdAt, ResponseOf(m, other).createdAt)
      <==> !NotBefore(m.accounts[id], m.accounts[other])
  {
    Rfc3339.TextOrderIsTimeOrder(m.accounts[id].createdAt, m.accounts[other].createdAt);
  }

  /** The last lines of listAccounts, which cut the page out. */
  method Cut(sorted: seq<Response>, page: int, pageSize: int) returns (items: Option<seq<Response>>)
    ensures items == PageOf(sorted, page, pageSize)
  {
    var total := |sorted|;
    var start := Wrap((page - 1) * pageSize);
    if start > total {
      start := total;
    }
    var end := Wrap(start + pageSize);
    if end > total {
      end := total;
    }
    return if 0 <= start <= end then Some(sorted[start..end]) else None;
  }

  /** The answer is a page of a listing, with the number of all matching accounts. */
  ghost predicate IsPageOfListing(m: Memory, f: Filter, page: int, pageSize: int, items: Option<seq<Response>>,
                                  total: int)
    requires Datable(m)
  {
    total == |MatchingKeys(m, f)|
      && exists keys, all :: IsListing(m, f, keys, all) && items == PageOf(all, page, pageSize)
  }

  // ---------- what the filter and the fields mean ----------

  predicate StandsAt(text: string, part: string, i: nat) {
    i + |part| <= |text| && text[i..i + |part|] == part
  }

  /** The account has the status that is asked for, if one is, and its lowered name has the keyword somewhere in it, if
      there is one. */
  ghost predicate Asked(f: Filter, status: string, username: string) {
    && (f.status != "" ==> status == f.status)
    && (f.keyword != "" ==> exists i: nat :: StandsAt(f.lower(username), f.keyword, i))
  }

  lemma MatchesIsAsked(f: Filter, a: Account)
    ensures Matches(f, a) <==> Asked(f, a.status, a.username)
  {
    var text := f.lower(a.username);
    forall i: nat | i <= |text| ensures f.keyword <= text[i..] <==> StandsAt(text, f.keyword, i) {
    }
    if i: nat :| StandsAt(text, f.keyword, i) {
      assert f.keyword <= text[i..];
    }
  }

  /** The fields of an item are those of the stored account, with at most the first of its roles. */
  ghost predicate IsItemOf(m: Memory, id: string, item: Response)
    requires Datable(m) && id in m.accounts
  {
    var a := m.accounts[id];
    && item.accountId == a.id && item.account == a.username && item.status == a.status
    && item.isSuperAdmin == a.isSuperAdmin
    && item.createdAt == Rfc3339.Format(a.createdAt) && item.updatedAt == Rfc3339.Format(a.updatedAt)
    && item.roleIds <= RolesIn(m.roles, a.id) && |item.roleIds| == Least(|RolesIn(m.roles, a.id)|, 1)
  }

  /** Every account is under one key if it is asked for and under none otherwise. */
  ghost predicate KeysAreAsked(m: Memory, f: Filter, keys: seq<string>) {
    && (forall id | id in keys :: id in m.accounts)
    && forall id | id in m.accounts ::
        multiset(keys)[id] == if Asked(f, m.accounts[id].status, m.accounts[id].username) then 1 else 0
  }

  ghost function AskedKeys(m: Memory, f: Filter): set<string> {
    set id | id in m.accounts && Asked(f, m.accounts[id].status, m.accounts[id].username)
  }

  lemma MatchingAreAsked(m: Memory, f: Filter)
    ensures MatchingKeys(m, f) == AskedKeys(m, f)
  {
    forall id | id in m.accounts ensures id in MatchingKeys(m, f) <==> id in AskedKeys(m, f) {
      MatchesIsAsked(f, m.accounts[id]);
    }
  }

  /** A listing, said of the stored accounts. */
  lemma ListingKeys(m: Memory, f: Filter, keys: seq<string>)
    requires multiset(keys) == multiset(MatchingKeys(m, f))
    ensures KeysAreAsked(m, f, keys) && |keys| == |AskedKeys(m, f)|
  {
    MatchingAreAsked(m, f);
    forall id | id in keys ensures id in m.accounts {
      assert id in multiset(keys);
    }
    assert |multiset(keys)| == |keys|;
  }

  lemma ListedItem(m: Memory, f: Filter, keys: seq<string>, all: seq<Response>, i: nat)
    requires Datable(m) && IsListing(m, f, keys, all) && i < |all|
    ensures keys[i] in m.accounts && IsItemOf(m, keys[i], all[i]) && Asked(f, all[i].status, all[i].account)
  {
    assert keys[i] in multiset(keys);
    MatchesIsAsked(f, m.accounts[keys[i]]);
    assert all[i] == ResponseOf(m, keys[i]);
  }

  /** Every item of an answer is an asked-for account's. */
  ghost predicate ItemsAreAsked(m: Memory, f: Filter, items: seq<Response>)
    requires Datable(m)
  {
    forall item | item in items ::
      Asked(f, item.status, item.account) && exists id | id in m.accounts :: IsItemOf(m, id, item)
  }

  lemma PageIsAsked(m: Memory, f: Filter, keys: seq<string>, all: seq<Response>, page: int, pageSize: int)
    requires Datable(m) && IsListing(m, f, keys, all)
    ensures var items := PageOf(all, page, pageSize); items.Some? ==> ItemsAreAsked(m, f, items.value)
  {
    var items := PageOf(all, page, pageSize);
    if items.Some? {
      forall item | item in items.value
        ensures Asked(f, item.status, item.account) && exists id | id in m.accounts :: IsItemOf(m, id, item)
      {
        assert item in all;
        var i: nat :| i < |all| && all[i] == item;
        ListedItem(m, f, keys, all, i);
      }
    }
  }

  /** all lists the asked-for accounts, the latest second of creation first. */
  ghost predicate ListsAsked(m: Memory, f: Filter, keys: seq<string>, all: seq<Response>)
    requires Datable(m)
  {
    && KeysAreAsked(m, f, keys) && |keys| == |all| && LatestFirst(m, keys)
    && forall i | 0 <= i < |all| :: keys[i] in m.accounts && IsItemOf(m, keys[i], all[i])
  }

  /** The answer, said of the stored accounts: a page of a list of the asked-for accounts, and their number. */
  ghost predicate IsAnswerTo(m: Memory, f: Filter, page: int, pageSize: int, items: Option<seq<Response>>, total: int)
    requires Datable(m)
  {
    && (items.Some? ==> ItemsAreAsked(m, f, items.value))
    && total == |AskedKeys(m, f)|
    && exists keys, all :: ListsAsked(m, f, keys, all) && items == PageOf(all, page, pageSize)
  }

  lemma ListingListsAsked(m: Memory, f: Filter, keys: seq<string>, all: seq<Response>)
    requires Datable(m) && IsListing(m, f, keys, all)
    ensures ListsAsked(m, f, keys, all)
  {
    ListingKeys(m, f, keys);
    forall i | 0 <= i < |all| ensures keys[i] in m.accounts && IsItemOf(m, keys[i], all[i]) {
      ListedItem(m, f, keys, all, i);
    }
  }

  lemma PageAnswers(m: Memory, f: Filter, page: int, pageSize: int, items: Option<seq<Response>>, total: int)
    requires Datable(m) && IsPageOfListing(m, f, page, pageSize, items, total)
    ensures IsAnswerTo(m, f, page, pageSize, items, total)
  {
    MatchingAreAsked(m, f);
    var keys, all :| IsListing(m, f, keys, all) && items == PageOf(all, page, pageSize);
    ListingListsAsked(m, f, keys, all);
    PageIsAsked(m, f, keys, all, page, pageSize);
  }

  /** The enabled and the disabled accounts are all accounts. */
  lemma TotalsAdd(m: Memory, keyword: string, lower: string -> string)
    requires forall id | id in m.accounts :: m.accounts[id].status in {"enabled", "disabled"}
    ensures |AskedKeys(m, Filter("enabled", keyword, lower))| + |AskedKeys(m, Filter("disabled", keyword, lower))|
         == |AskedKeys(m, Filter("", keyword, lower))|
  {
    var enabled, disabled := AskedKeys(m, Filter("enabled", keyword, lower)),
                             AskedKeys(m, Filter("disabled", keyword, lower));
    assert enabled !! disabled;
    assert enabled + disabled == AskedKeys(m, Filter("", keyword, lower));
  }

  /** The memory branch of listAccounts; no items where slicing panics. */
  method ListAccounts(m: Memory, f: Filter, page: int, pageSize: int) returns (items: Option<seq<Response>>, total: nat)
    requires Datable(m) && IsPage(page, pageSize)
    ensures IsPageOfListing(m, f, page, pageSize, items, total)
    ensures IsAnswerTo(m, f, page, pageSize, items, total)
  {
    var all: seq<Response>;
    ghost var keys: seq<string>;
    all, keys := Collect(m, f);
    all, keys := SortByCreation(Responses(m), all, keys);
    DescendingIsLatestFirst(m, keys, all);
    assert |multiset(keys)| == |keys|;
    assert IsListing(m, f, keys, all);
    total := |all|;
    items := Cut(all, page, pageSize);
    PageAnswers(m, f, page, pageSize, items, total);
  }
}
