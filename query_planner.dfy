/** The query-string translation of `getBootcamps` (controllers/bootcamps.js):
    reserved keys, the filter text, the projection and sort directives, the page
    window and the `next`/`prev` pagination descriptors. */
module QueryPlanner {
  import opened Common
  import opened JsRuntime
  import opened Json
  import opened OperatorRewrite

  /** The directive keys that are never field filters, in the order the handler deletes them. */
  const RemoveFields: seq<string> := ["select", "sort", "page", "limit"]

  const DefaultSort: string := "-createdAt"
  const DefaultPage: int := 1
  const DefaultLimit: int := 25

  // ---------------------------------------------------------------------------
  // Reserved keys

  /** The properties of `props` whose key is not in `keys`, in their order. */
  function WithoutKeys(props: Props, keys: seq<string>): (r: Props)
    ensures |r| <= |props|
    ensures forall i :: 0 <= i < |r| ==> r[i].0 !in keys && r[i] in props
    ensures forall p :: p in props && p.0 !in keys ==> p in r
  {
    if props == [] then []
    else (if props[0].0 in keys then [] else [props[0]]) + WithoutKeys(props[1..], keys)
  }

  /** `delete obj[key]`. */
  function Delete(props: Props, key: string): Props {
    WithoutKeys(props, [key])
  }

  lemma {:induction false} WithoutNoKeys(props: Props)
    ensures WithoutKeys(props, []) == props
  {
    if props != [] {
      WithoutNoKeys(props[1..]);
      assert props == [props[0]] + props[1..];
    }
  }

  lemma {:induction false} WithoutKeysTwice(props: Props, s: seq<string>, t: seq<string>)
    ensures WithoutKeys(WithoutKeys(props, s), t) == WithoutKeys(props, s + t)
  {
    if props != [] {
      WithoutKeysTwice(props[1..], s, t);
      var head := if props[0].0 in s then [] else [props[0]];
      assert WithoutKeys(props, s) == head + WithoutKeys(props[1..], s);
      WithoutKeysAppend(head, WithoutKeys(props[1..], s), t);
      assert props[0].0 in s + t <==> props[0].0 in s || props[0].0 in t;
    }
  }

  lemma WithoutKeysCons(p: (string, QueryValue), rest: Props, keys: seq<string>)
    ensures WithoutKeys([p] + rest, keys) == (if p.0 in keys then [] else [p]) + WithoutKeys(rest, keys)
  {
    assert ([p] + rest)[0] == p;
    assert ([p] + rest)[1..] == rest;
  }

  lemma WithoutKeysConsAppend(a: Props, b: Props, keys: seq<string>)
    requires a != []
    ensures WithoutKeys(a + b, keys) == (if a[0].0 in keys then [] else [a[0]]) + WithoutKeys(a[1..] + b, keys)
  {
    assert a + b == [a[0]] + (a[1..] + b);
    WithoutKeysCons(a[0], a[1..] + b, keys);
  }

  lemma WithoutKeysAppendStep(a: Props, b: Props, keys: seq<string>)
    requires a != []
    requires WithoutKeys(a[1..] + b, keys) == WithoutKeys(a[1..], keys) + WithoutKeys(b, keys)
    ensures WithoutKeys(a + b, keys) == WithoutKeys(a, keys) + WithoutKeys(b, keys)
  {
    var head := if a[0].0 in keys then [] else [a[0]];
    WithoutKeysConsAppend(a, b, keys);
    assert WithoutKeys(a, keys) == head + WithoutKeys(a[1..], keys);
    AppendAssoc(head, WithoutKeys(a[1..], keys), WithoutKeys(b, keys));
  }

  lemma AppendAssoc<T>(x: seq<T>, y: seq<T>, z: seq<T>)
    ensures x + (y + z) == (x + y) + z
  {
  }

  lemma {:induction false} WithoutKeysAppend(a: Props, b: Props, keys: seq<string>)
    ensures WithoutKeys(a + b, keys) == WithoutKeys(a, keys) + WithoutKeys(b, keys)
  {
    if a == [] {
      assert a + b == b;
    } else {
      WithoutKeysAppend(a[1..], b, keys);
      WithoutKeysAppendStep(a, b, keys);
    }
  }

  /** Removing keys hides the removed ones and leaves every other key's value as it was. */
  lemma {:induction false} LookupWithoutKeys(props: Props, keys: seq<string>, key: string)
    ensures Lookup(WithoutKeys(props, keys), key) == if key in keys then None else Lookup(props, key)
  {
    if props != [] {
      LookupWithoutKeys(props[1..], keys, key);
      var rest := WithoutKeys(props[1..], keys);
      if props[0].0 in keys {
        assert WithoutKeys(props, keys) == rest;
      } else {
        assert WithoutKeys(props, keys) == [props[0]] + rest;
        assert ([props[0]] + rest)[1..] == rest;
      }
    }
  }

  /** Lines 13-21: copy `req.query` and delete the four reserved keys from the copy, one by one. */
  method StripReserved(query: Props) returns (reqQuery: Props)
    ensures reqQuery == WithoutKeys(query, ["select", "sort", "page", "limit"])
  {
    reqQuery := query;
    WithoutNoKeys(query);
    var i := 0;
    while i < |RemoveFields|
      invariant 0 <= i <= |RemoveFields|
      invariant reqQuery == WithoutKeys(query, RemoveFields[..i])
    {
      WithoutKeysTwice(query, RemoveFields[..i], [RemoveFields[i]]);
      assert RemoveFields[..i + 1] == RemoveFields[..i] + [RemoveFields[i]];
      reqQuery := Delete(reqQuery, RemoveFields[i]);
      i := i + 1;
    }
    assert RemoveFields[..i] == RemoveFields;
  }

  // ---------------------------------------------------------------------------
  // Filter, projection and sort

  /** Lines 24-30: the JSON text of the remaining filter with its operators rewritten. */
  function FilterText(reqQuery: Props): string {
    RewriteOperators(Stringify(Obj(reqQuery)))
  }

  /** `s.split(',').join(' ')`. */
  function CommaListToSpaces(s: string): string {
    Join(Split(s, ','), ' ')
  }

  /** The comma-to-space conversion keeps the length and changes exactly the commas. */
  lemma CommaListToSpacesPointwise(s: string)
    ensures |CommaListToSpaces(s)| == |s|
    ensures forall i :: 0 <= i < |s| ==> CommaListToSpaces(s)[i] == (if s[i] == ',' then ' ' else s[i])
  {
    SplitJoinReplaces(s, ',', ' ');
  }

  /** Lines 36-39: a truthy `select` is split on commas and joined with spaces; a
      missing or empty one selects nothing; an array or object has no `split`
      and the handler throws. */
  function SelectDirective(v: Option<QueryValue>): Result<Option<string>> {
    match v
    case None => Ok(None)
    case Some(Str(s)) => if s == "" then Ok(None) else Ok(Some(CommaListToSpaces(s)))
    case Some(_) => Err(TypeError)
  }

  /** A missing or empty `select` selects nothing; any other string is used
      with its commas turned into spaces. */
  lemma SelectDirectiveAbsent(v: Option<QueryValue>)
    requires v.None? || v == Some(Str(""))
    ensures SelectDirective(v) == Ok(None)
  {
  }

  lemma SelectDirectiveGiven(s: string)
    requires s != ""
    ensures SelectDirective(Some(Str(s))).Ok? && SelectDirective(Some(Str(s))).value.Some?
    ensures |SelectDirective(Some(Str(s))).value.value| == |s|
    ensures forall i :: 0 <= i < |s| ==>
      SelectDirective(Some(Str(s))).value.value[i] == (if s[i] == ',' then ' ' else s[i])
  {
    CommaListToSpacesPointwise(s);
  }

  /** Both directives throw exactly for a value that is present but not a string. */
  lemma DirectivesThrow(v: Option<QueryValue>)
    ensures SelectDirective(v).Err? <==> v.Some? && !v.value.Str?
    ensures SortDirective(v).Err? <==> v.Some? && !v.value.Str?
    ensures SelectDirective(v).Err? ==> SelectDirective(v).error == TypeError
    ensures SortDirective(v).Err? ==> SortDirective(v).error == TypeError
  {
  }

  /** Lines 42-47: as `select`, but a missing or empty `sort` means `-createdAt`. */
  function SortDirective(v: Option<QueryValue>): Result<string> {
    match v
    case None => Ok(DefaultSort)
    case Some(Str(s)) => if s == "" then Ok(DefaultSort) else Ok(CommaListToSpaces(s))
    case Some(_) => Err(TypeError)
  }

  /** The sort directive is `-createdAt` whenever no sort keys were given, and
      otherwise the given text with commas turned into spaces. */
  lemma SortDirectiveDefault(v: Option<QueryValue>)
    requires v.None? || v == Some(Str(""))
    ensures SortDirective(v) == Ok("-createdAt")
  {
  }

  lemma SortDirectiveGiven(s: string)
    requires s != ""
    ensures SortDirective(Some(Str(s))).Ok?
    ensures |SortDirective(Some(Str(s))).value| == |s|
    ensures forall i :: 0 <= i < |s| ==>
      SortDirective(Some(Str(s))).value[i] == (if s[i] == ',' then ' ' else s[i])
  {
    CommaListToSpacesPointwise(s);
  }

  // ---------------------------------------------------------------------------
  // page and limit

  /** JavaScript's `n || d` for a number `n` (None standing for NaN): NaN and
      zero are falsy and give `d`. */
  function OrDefault(n: Option<int>, d: int): int {
    if n == None || n == Some(0) then d else n.value
  }

  /** Line 50: `parseInt(req.query.page, 10) || 1`. */
  function PageOf(v: Option<QueryValue>): int {
    OrDefault(ParseInt(ArgumentString(v)), DefaultPage)
  }

  /** Line 51: `parseInt(req.query.limit, 10) || 25`. */
  function LimitOf(v: Option<QueryValue>): int {
    OrDefault(ParseInt(ArgumentString(v)), DefaultLimit)
  }

  /** The defaults apply exactly when parseInt yields NaN or zero; any other
      number, a negative one included, is used as it is; neither is ever zero. */
  lemma PageAndLimitDefaults(v: Option<QueryValue>)
    ensures PageOf(v) != 0 && LimitOf(v) != 0
    ensures ParseInt(ArgumentString(v)) in {None, Some(0)} ==> PageOf(v) == 1 && LimitOf(v) == 25
    ensures ParseInt(ArgumentString(v)) !in {None, Some(0)} ==>
      PageOf(v) == ParseInt(ArgumentString(v)).value == LimitOf(v)
  {
  }

  /** A parameter written as a decimal integer is taken at its value unless it is
      zero: negative pages and limits pass through. */
  lemma {:induction false} PageOfDecimal(n: int)
    requires -MaxSafeInteger <= n <= MaxSafeInteger
    ensures PageOf(Some(Str(IntToString(n)))) == (if n == 0 then 1 else n)
    ensures LimitOf(Some(Str(IntToString(n)))) == (if n == 0 then 25 else n)
  {
    var x := IntToString(n);
    ParseIntReadsDecimal([], n, []);
    assert [] + x + [] == x;
    assert ArgumentString(Some(Str(x))) == x;
  }

  /** A text that does not start with white space, a sign or a digit parses to NaN. */
  lemma {:induction false} ParseIntOfNonNumeric(x: string)
    requires x != [] && !IsStrWhiteSpace(x[0]) && !IsDigit(x[0]) && x[0] != '+' && x[0] != '-'
    ensures ParseInt(x) == None
  {
    assert TrimStart(x) == x;
    assert DropSign(x) == x;
    assert LeadingDigits(x) == 0;
  }

  /** The absent parameter (`undefined`) and a non-numeric one fall back to the defaults. */
  lemma {:induction false} PageAndLimitFallBack()
    ensures PageOf(None) == 1 && LimitOf(None) == 25
    ensures PageOf(Some(Str("abc"))) == 1 && LimitOf(Some(Str("abc"))) == 25
  {
    ParseIntOfNonNumeric("undefined");
    ParseIntOfNonNumeric("abc");
  }

  // ---------------------------------------------------------------------------
  // The window and the pagination descriptors

  /** Line 52: the number of documents skipped. */
  function StartIndex(page: int, limit: int): int {
    (page - 1) * limit
  }

  /** Line 53: one past the last document of the page. */
  function EndIndex(page: int, limit: int): int {
    page * limit
  }

  datatype PageRef = PageRef(page: int, limit: int)

  datatype Pagination = Pagination(next: Option<PageRef>, prev: Option<PageRef>)

  /** Lines 62-78: `next` when the page ends before `total`, `prev` when it starts after 0. */
  function PaginationOf(page: int, limit: int, total: int): Pagination {
    Pagination(
      if EndIndex(page, limit) < total then Some(PageRef(page + 1, limit)) else None,
      if StartIndex(page, limit) > 0 then Some(PageRef(page - 1, limit)) else None)
  }

  /** Lines 62-78: the descriptors filled in field by field, `next` when the window
      ends before `total` and `prev` when it starts after the first document. */
  method FillPagination(page: int, limit: int, total: int) returns (pagination: Pagination)
    ensures pagination == PaginationOf(page, limit, total)
  {
    var startIndex := StartIndex(page, limit);
    var endIndex := EndIndex(page, limit);
    pagination := Pagination(None, None);
    if endIndex < total {
      pagination := pagination.(next := Some(PageRef(page + 1, limit)));
    }
    if startIndex > 0 {
      pagination := pagination.(prev := Some(PageRef(page - 1, limit)));
    }
  }

  /** The window is `limit` long, and the window of the page `next` names starts
      where this one ends. */
  lemma WindowWidth(page: int, limit: int)
    ensures EndIndex(page, limit) - StartIndex(page, limit) == limit
    ensures StartIndex(page + 1, limit) == EndIndex(page, limit)
  {
  }

  /** The last page: the number of pages of `limit` documents needed to hold `total`. */
  function LastPage(limit: int, total: nat): (n: nat)
    requires limit >= 1
    ensures (n - 1) * limit < total || n == 1
    ensures n * limit >= total
  {
    if total == 0 then 1
    else
      var n := (total + limit - 1) / limit;
      assert n * limit <= total + limit - 1;
      assert n * limit > total - 1 by {
        assert (n + 1) * limit > total + limit - 1;
      }
      n
  }

  /** With a positive limit and page, `next` is present exactly on the pages before
      the last one, and `prev` exactly on the pages after the first. */
  lemma PaginationPositive(page: int, limit: int, total: nat)
    requires page >= 1 && limit >= 1
    ensures PaginationOf(page, limit, total).next.Some? <==> page < LastPage(limit, total)
    ensures PaginationOf(page, limit, total).prev.Some? <==> page > 1
  {
    var n := LastPage(limit, total);
    if page < n {
      MulMonotone(page, n - 1, limit);
    } else {
      MulMonotone(n, page, limit);
    }
    if page > 1 {
      MulMonotone(1, page - 1, limit);
    } else {
      assert StartIndex(page, limit) == 0;
    }
  }

  lemma MulMonotone(a: int, b: int, c: int)
    requires a <= b && c >= 0
    ensures a * c <= b * c
  {
  }

  /** The example of thirty matching bootcamps with pages of 25: the first page
      points only forward, the second only back. */
  lemma PaginationThirtyByTwentyFive()
    ensures PaginationOf(1, 25, 30) == Pagination(Some(PageRef(2, 25)), None)
    ensures PaginationOf(2, 25, 30) == Pagination(None, Some(PageRef(1, 25)))
  {
  }

  /** The query plan handed to the store: filter text, projection, sort and window. */
  datatype Plan = Plan(filter: string, select: Option<string>, sort: string, skip: int, limit: int)

  /** Lines 13-56: the plan `getBootcamps` builds from the query mapping, or the
      TypeError thrown when `select` or `sort` is not a string. */
  function PlanOf(query: Props): Result<Plan> {
    var select := SelectDirective(Lookup(query, "select"));
    var sort := SortDirective(Lookup(query, "sort"));
    if select.Err? || sort.Err? then Err(TypeError)
    else
      var page := PageOf(Lookup(query, "page"));
      var limit := LimitOf(Lookup(query, "limit"));
      Ok(Plan(FilterText(WithoutKeys(query, RemoveFields)), select.value, sort.value,
              StartIndex(page, limit), limit))
  }

  /** The plan once both directives parsed: the filter without the directive keys,
      the window of the requested page. */
  lemma PlanOfParts(query: Props, select: Option<string>, sort: string)
    requires SelectDirective(Lookup(query, "select")) == Ok(select)
    requires SortDirective(Lookup(query, "sort")) == Ok(sort)
    ensures var page, limit := PageOf(Lookup(query, "page")), LimitOf(Lookup(query, "limit"));
      PlanOf(query) ==
        Ok(Plan(FilterText(WithoutKeys(query, RemoveFields)), select, sort, StartIndex(page, limit), limit))
  {
  }

  /** `getBootcamps` throws, before any store access, exactly when the query's
      `select` or `sort` is present but not a string. */
  lemma PlanOfFails(query: Props)
    ensures PlanOf(query).Err? <==>
      || (Lookup(query, "select").Some? && !Lookup(query, "select").value.Str?)
      || (Lookup(query, "sort").Some? && !Lookup(query, "sort").value.Str?)
    ensures PlanOf(query).Err? ==> PlanOf(query).error == TypeError
  {
    DirectivesThrow(Lookup(query, "select"));
    DirectivesThrow(Lookup(query, "sort"));
  }

  lemma {:induction false} WithoutAbsentKeys(props: Props, keys: seq<string>)
    requires forall i :: 0 <= i < |props| ==> props[i].0 !in keys
    ensures WithoutKeys(props, keys) == props
  {
    if props != [] {
      WithoutAbsentKeys(props[1..], keys);
      assert props == [props[0]] + props[1..];
    }
  }

  /** A query with no directive keys is used whole as the filter, with no
      projection, the `-createdAt` sort and the first window of 25. */
  lemma {:induction false} PlanDefaults(query: Props)
    requires forall i :: 0 <= i < |query| ==> query[i].0 !in RemoveFields
    ensures PlanOf(query) == Ok(Plan(FilterText(query), None, "-createdAt", 0, 25))
  {
    WithoutAbsentKeys(query, RemoveFields);
    assert "select" in RemoveFields && "sort" in RemoveFields;
    assert "page" in RemoveFields && "limit" in RemoveFields;
    assert Lookup(query, "select") == None;
    assert Lookup(query, "sort") == None;
    assert Lookup(query, "page") == None;
    assert Lookup(query, "limit") == None;
    PageAndLimitFallBack();
  }

  /** A directive key never reaches the filter: adding one to the query leaves
      the filter text as it was. */
  lemma {:induction false} FilterIgnoresDirective(query: Props, key: string, v: QueryValue)
    requires key in RemoveFields
    ensures FilterText(WithoutKeys(query + [(key, v)], RemoveFields)) ==
            FilterText(WithoutKeys(query, RemoveFields))
  {
    WithoutKeysAppend(query, [(key, v)], RemoveFields);
    assert WithoutKeys([(key, v)], RemoveFields) == [];
    assert WithoutKeys(query, RemoveFields) + [] == WithoutKeys(query, RemoveFields);
  }

  /** The response body of `getBootcamps`. */
  datatype Envelope<T> = Envelope(success: bool, count: nat, pagination: Pagination, data: seq<T>)
}
