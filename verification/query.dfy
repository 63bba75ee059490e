/** `FoodTruckQueryParameters` (FoodTruckCLI/FoodTruckService.js): the filter,
    sort and paging state of one search, and its rendering as the query
    string sent to the food-truck endpoint. The wall-clock hour read by the
    constructor is a parameter here. */
module QueryParameters {
  import opened Optional
  import opened Strings
  import opened Decimal

  /** The fields the constructor sets. `$select` is present only when
      fields were given; it is stored but never rendered. */
  datatype Query = Query(
    endtime: string,
    starttime: string,
    order: string,
    limit: int,
    offset: int,
    select: Option<string>)

  const DefaultSortBy: string := "applicant"
  const DefaultBatchSize: int := 10

  /** `convertTimeToHourFormat`: hours 0 to 12 are written with `AM`
      (so midnight is `0AM` and noon `12AM`), hours 13 to 23 as the hour
      minus 12 with `PM`. */
  function ConvertTimeToHourFormat(hours: nat): (r: string)
    requires hours <= 23
    ensures |r| >= 3 && r[|r| - 1] == 'M'
    ensures r[0] != '0' || |r| == 3
    ensures r[|r| - 2] == (if hours <= 12 then 'A' else 'P')
    ensures AllDigits(r[..|r| - 2])
    ensures ParseNat(r[..|r| - 2]) == Some(if hours <= 12 then hours else hours - 12)
  {
    var r := if hours <= 12 then NatToString(hours) + "AM" else NatToString(hours - 12) + "PM";
    assert r[..|r| - 2] == NatToString(if hours <= 12 then hours else hours - 12);
    NatRoundTrip(if hours <= 12 then hours else hours - 12);
    r
  }

  /** Reads an hour back from its `convertTimeToHourFormat` text; only the
      texts that function produces are accepted. */
  function HourOf(s: string): Option<nat> {
    if |s| < 3 then None
    else
      var digits := s[..|s| - 2];
      var tag := s[|s| - 2..];
      match ParseNat(digits)
      case None => None
      case Some(n) =>
        if NatToString(n) != digits then None
        else if tag == "AM" && n <= 12 then Some(n)
        else if tag == "PM" && 1 <= n <= 11 then Some(n + 12)
        else None
  }

  /** The hour text names its hour uniquely: decoding inverts the formatting,
      and only formatted hours decode. */
  lemma HourFormatRoundTrip(s: string, h: nat)
    ensures HourOf(s) == Some(h) <==> h <= 23 && ConvertTimeToHourFormat(h) == s
  {
    if h <= 23 && ConvertTimeToHourFormat(h) == s {
      var n := if h <= 12 then h else h - 12;
      assert s[..|s| - 2] == NatToString(n);
      assert s[|s| - 2..] == (if h <= 12 then "AM" else "PM");
      NatRoundTrip(n);
    }
    if HourOf(s) == Some(h) {
      var digits := s[..|s| - 2];
      var n := ParseNat(digits).value;
      assert s == digits + s[|s| - 2..];
      if s[|s| - 2..] == "AM" {
        assert h == n;
      } else {
        assert h == n + 12;
      }
    }
  }

  lemma HourTextChars(hours: nat)
    requires hours <= 23
    ensures '\"' !in ConvertTimeToHourFormat(hours)
    ensures '&' !in ConvertTimeToHourFormat(hours)
    ensures '$' !in ConvertTimeToHourFormat(hours)
  {
    var r := ConvertTimeToHourFormat(hours);
    assert r == r[..|r| - 2] + [r[|r| - 2], r[|r| - 1]];
  }

  /** A comparison of a time field with a quoted hour, as the constructor writes it. */
  function Clause(comparison: string, time: string): string {
    comparison + "\"" + time + "\""
  }

  /** The two halves of a clause: the comparison before the quoted text, and
      the hour inside the quotes. */
  datatype Bound = Bound(comparison: string, hour: nat)

  function BoundOf(clause: string): Option<Bound> {
    var parts := Split(clause, '\"');
    if |parts| == 3 && parts[2] == "" then
      match HourOf(parts[1])
      case None => None
      case Some(h) => Some(Bound(parts[0], h))
    else None
  }

  lemma BoundOfClause(comparison: string, hours: nat)
    requires hours <= 23
    requires '\"' !in comparison
    ensures BoundOf(Clause(comparison, ConvertTimeToHourFormat(hours))) == Some(Bound(comparison, hours))
  {
    var t := ConvertTimeToHourFormat(hours);
    HourTextChars(hours);
    assert Clause(comparison, t) == comparison + ['\"'] + (t + ['\"'] + "");
    SplitAt(comparison, t + ['\"'] + "", '\"');
    SplitAt(t, "", '\"');
    assert Split("", '\"') == [""];
    HourFormatRoundTrip(t, hours);
  }

  function StartComparison(isOpen: bool): string {
    if isOpen then "starttime<=" else "starttime<"
  }

  function EndComparison(isOpen: bool): string {
    if isOpen then "endtime>=" else "endtime>"
  }

  lemma ComparisonChars(isOpen: bool)
    ensures '\"' !in StartComparison(isOpen) && '\"' !in EndComparison(isOpen)
    ensures '&' !in StartComparison(isOpen) && '&' !in EndComparison(isOpen)
    ensures '$' !in StartComparison(isOpen) && '$' !in EndComparison(isOpen)
  {
  }

  lemma ClauseChars(comparison: string, hours: nat, c: char)
    requires hours <= 23
    requires c == '&' || c == '$'
    requires c !in comparison
    ensures c !in Clause(comparison, ConvertTimeToHourFormat(hours))
  {
    HourTextChars(hours);
  }

  /** The constructor. Both clauses compare against the same hour; `isOpen`
      makes both comparisons inclusive, otherwise both are strict. Sort key,
      batch size and offset are stored as given: nothing is validated. */
  function NewQuery(isOpen: bool, sortBy: string, batchSize: int, offset: int,
                    fields: seq<string>, hour: nat): (q: Query)
    requires hour <= 23
    ensures BoundOf(q.starttime) == Some(Bound(StartComparison(isOpen), hour))
    ensures BoundOf(q.endtime) == Some(Bound(EndComparison(isOpen), hour))
    ensures q.order == sortBy && q.limit == batchSize && q.offset == offset
    ensures q.select.Some? <==> |fields| > 0
    ensures q.select.Some? && (forall i :: 0 <= i < |fields| ==> ',' !in fields[i])
            ==> Split(q.select.value, ',') == fields
    ensures '&' !in q.starttime && '&' !in q.endtime
    ensures '$' !in q.starttime && '$' !in q.endtime
  {
    var currentTime := ConvertTimeToHourFormat(hour);
    var q := Query(
      Clause(EndComparison(isOpen), currentTime),
      Clause(StartComparison(isOpen), currentTime),
      sortBy, batchSize, offset,
      if |fields| > 0 then Some(Join(fields, ',')) else None);
    ComparisonChars(isOpen);
    BoundOfClause(StartComparison(isOpen), hour);
    BoundOfClause(EndComparison(isOpen), hour);
    ClauseChars(StartComparison(isOpen), hour, '&');
    ClauseChars(EndComparison(isOpen), hour, '&');
    ClauseChars(StartComparison(isOpen), hour, '$');
    ClauseChars(EndComparison(isOpen), hour, '$');
    SelectRoundTrip(fields);
    q
  }

  lemma SelectRoundTrip(fields: seq<string>)
    ensures |fields| > 0 && (forall i :: 0 <= i < |fields| ==> ',' !in fields[i])
            ==> Split(Join(fields, ','), ',') == fields
  {
    if |fields| > 0 && (forall i :: 0 <= i < |fields| ==> ',' !in fields[i]) {
      SplitJoin(fields, ',');
    }
  }

  /** `incrementPage`: the offset moves by one page number, not by a batch. */
  function IncrementPage(q: Query): (r: Query)
    ensures r.offset == q.offset + 1
    ensures r.(offset := q.offset) == q
  {
    q.(offset := q.offset + 1)
  }

  /** The `limit` setter: a falsy value (absent, or 0) is ignored. */
  function SetLimit(q: Query, val: Option<int>): (r: Query)
    ensures r.(limit := q.limit) == q
    ensures val.Some? && val.value != 0 ==> r.limit == val.value
    ensures val.None? || val.value == 0 ==> r == q
  {
    if val.None? || val.value == 0 then q else q.(limit := val.value)
  }

  /** `paramToString`: `name=value`, led by `&` unless it is the first parameter. */
  function ParamToString(name: string, value: string, isFirst: bool): (r: string)
    ensures var lead := if isFirst then 0 else 1;
            && |r| == lead + |name| + 1 + |value|
            && (!isFirst ==> r[0] == '&')
            && r[lead..lead + |name|] == name && r[lead + |name|] == '='
            && r[lead + |name| + 1..] == value
  {
    if isFirst then name + "=" + value else "&" + name + "=" + value
  }

  /** The text after the where clause, before `toJSON` trims it. */
  function Tail(q: Query): string {
    ParamToString("$order", q.order, false)
    + ParamToString("$limit", IntToString(q.limit), false)
    + ParamToString("$offset", IntToString(q.offset), false)
  }

  lemma ParamText(name: string, v: string, text: string)
    requires text == "&" + name + "="
    ensures ParamToString(name, v, false) == text + v
  {
  }

  /** `trim` leaves text alone whose first and last characters are not blank. */
  lemma TrimKeeps(x: string, d: string)
    requires |x| > 0 && !IsWhitespace(x[0]) && |d| > 0 && !IsWhitespace(d[|d| - 1])
    ensures Trim(x + d) == x + d
  {
    var s := x + d;
    assert s[0] == x[0] && s[|s| - 1] == d[|d| - 1];
    TrimUnchanged(s);
  }

  lemma TailUntrimmed(q: Query)
    ensures Trim(Tail(q)) == Tail(q)
    ensures Tail(q) == "&$order=" + q.order + "&$limit=" + IntToString(q.limit)
                       + "&$offset=" + IntToString(q.offset)
  {
    var l, o := IntToString(q.limit), IntToString(q.offset);
    ParamText("$order", q.order, "&$order=");
    ParamText("$limit", l, "&$limit=");
    ParamText("$offset", o, "&$offset=");
    var x := "&$order=" + q.order + "&$limit=" + l + "&$offset=";
    assert Tail(q) == x + o;
    assert x[0] == '&';
    TrimKeeps(x, o);
  }

  /** `toJSON`: the where clause first, then order, limit and offset, with
      the tail trimmed. The tail starts with `&` and ends with a digit, so the
      trim never removes anything, and `$select` is never written. */
  function ToJson(q: Query): (r: string)
    ensures r == "$where=" + q.starttime + "%20AND%20" + q.endtime
                 + "&$order=" + q.order
                 + "&$limit=" + IntToString(q.limit)
                 + "&$offset=" + IntToString(q.offset)
  {
    var timeRange := q.starttime + "%20AND%20" + q.endtime;
    var where := ParamToString("$where", timeRange, true);
    TailUntrimmed(q);
    WhereText(timeRange);
    Regroup(q.starttime, "%20AND%20", q.endtime, "&$order=", q.order, "&$limit=", IntToString(q.limit),
            "&$offset=", IntToString(q.offset));
    where + Trim(Tail(q))
  }

  lemma WhereText(timeRange: string)
    ensures ParamToString("$where", timeRange, true) == "$where=" + timeRange
  {
  }

  /** The query string glued from its where clause and its tail is the same
      text read left to right. */
  lemma Regroup(s: string, m: string, e: string, a: string, b: string, c: string, d: string,
                f: string, g: string)
    ensures "$where=" + (s + m + e) + (a + b + c + d + f + g)
            == "$where=" + s + m + e + a + b + c + d + f + g
  {
  }

  /** The four parameters read back from a query string. */
  datatype Decoded = Decoded(where: string, order: string, limit: int, offset: int)

  /** Reads a query string of exactly four `&`-separated parameters named
      `$where`, `$order`, `$limit` and `$offset`, in that order. */
  function DecodeQuery(s: string): Option<Decoded> {
    var p := Split(s, '&');
    if |p| == 4 && StartsWith(p[0], "$where=") && StartsWith(p[1], "$order=")
       && StartsWith(p[2], "$limit=") && StartsWith(p[3], "$offset=") then
      match (ParseInt(p[2][7..]), ParseInt(p[3][8..]))
      case (Some(l), Some(o)) => Some(Decoded(p[0][7..], p[1][7..], l, o))
      case _ => None
    else None
  }

  lemma IntTextChars(i: int)
    ensures '&' !in IntToString(i) && '$' !in IntToString(i)
  {
  }

  /** The four `name=value` parameters of a query string, in order. */
  function Pieces(q: Query): seq<string> {
    ["$where=" + q.starttime + "%20AND%20" + q.endtime,
     "$order=" + q.order,
     "$limit=" + IntToString(q.limit),
     "$offset=" + IntToString(q.offset)]
  }

  lemma JoinFour(a: string, b: string, c: string, d: string, sep: char)
    ensures Join([a, b, c, d], sep) == a + [sep] + b + [sep] + c + [sep] + d
  {
    assert [a, b, c, d][1..] == [b, c, d];
    assert [b, c, d][1..] == [c, d];
    assert [c, d][1..] == [d];
    assert Join([d], sep) == d;
    assert Join([c, d], sep) == c + [sep] + d;
    assert Join([b, c, d], sep) == b + [sep] + (c + [sep] + d);
    assert Join([a, b, c, d], sep) == a + [sep] + (b + [sep] + (c + [sep] + d));
  }

  /** Gluing `&name=value` parameters after a first one is joining the
      `name=value` pieces with `&`. */
  lemma AssembleFour(w: string, lead1: string, n1: string, v1: string,
                     lead2: string, n2: string, v2: string,
                     lead3: string, n3: string, v3: string)
    requires lead1 == ['&'] + n1 && lead2 == ['&'] + n2 && lead3 == ['&'] + n3
    ensures w + lead1 + v1 + lead2 + v2 + lead3 + v3 == Join([w, n1 + v1, n2 + v2, n3 + v3], '&')
  {
    JoinFour(w, n1 + v1, n2 + v2, n3 + v3, '&');
    assert lead1 + v1 == ['&'] + (n1 + v1);
    assert lead2 + v2 == ['&'] + (n2 + v2);
    assert lead3 + v3 == ['&'] + (n3 + v3);
  }

  lemma ToJsonPieces(q: Query)
    ensures ToJson(q) == Join(Pieces(q), '&')
  {
    var lo, ll, lf := "&$order=", "&$limit=", "&$offset=";
    var no, nl, nf := "$order=", "$limit=", "$offset=";
    assert lo == ['&'] + no && ll == ['&'] + nl && lf == ['&'] + nf;
    AssembleFour("$where=" + q.starttime + "%20AND%20" + q.endtime,
                 lo, no, q.order, ll, nl, IntToString(q.limit), lf, nf, IntToString(q.offset));
  }

  lemma PrefixValue(name: string, v: string)
    ensures StartsWith(name + v, name) && (name + v)[|name|..] == v
  {
  }

  /** Splitting the query string on `&` gives its four parameters back. */
  lemma SplitToJson(q: Query)
    requires '&' !in q.starttime && '&' !in q.endtime && '&' !in q.order
    ensures Split(ToJson(q), '&') == Pieces(q)
  {
    var p := Pieces(q);
    IntTextChars(q.limit);
    IntTextChars(q.offset);
    assert forall i :: 0 <= i < |p| ==> '&' !in p[i];
    ToJsonPieces(q);
    SplitJoin(p, '&');
  }

  /** The four parameters, each read past its name. */
  lemma DecodePieces(q: Query)
    ensures var p := Pieces(q);
            && StartsWith(p[0], "$where=") && p[0][7..] == q.starttime + "%20AND%20" + q.endtime
            && StartsWith(p[1], "$order=") && p[1][7..] == q.order
            && StartsWith(p[2], "$limit=") && ParseInt(p[2][7..]) == Some(q.limit)
            && StartsWith(p[3], "$offset=") && ParseInt(p[3][8..]) == Some(q.offset)
  {
    var w := q.starttime + "%20AND%20" + q.endtime;
    assert "$where=" + w == "$where=" + q.starttime + "%20AND%20" + q.endtime;
    PrefixValue("$where=", w);
    PrefixValue("$order=", q.order);
    PrefixValue("$limit=", IntToString(q.limit));
    PrefixValue("$offset=", IntToString(q.offset));
    IntRoundTrip(q.limit);
    IntRoundTrip(q.offset);
  }

  /** `toJSON` round trip: each of the four parameters appears once, in
      order, carrying exactly the stored where clause, sort key, limit and
      offset. Holds whenever the stored text contains no `&`. */
  lemma QueryRoundTrip(q: Query)
    requires '&' !in q.starttime && '&' !in q.endtime && '&' !in q.order
    ensures DecodeQuery(ToJson(q)) ==
            Some(Decoded(q.starttime + "%20AND%20" + q.endtime, q.order, q.limit, q.offset))
  {
    SplitToJson(q);
    DecodePieces(q);
  }

  /** For a freshly built query the round trip needs only a sort key without `&`:
      the limit read back is the batch size and the offset the one given. */
  lemma NewQueryRoundTrip(isOpen: bool, sortBy: string, batchSize: int, offset: int,
                          fields: seq<string>, hour: nat)
    requires hour <= 23
    requires '&' !in sortBy
    ensures var q := NewQuery(isOpen, sortBy, batchSize, offset, fields, hour);
            DecodeQuery(ToJson(q)) ==
            Some(Decoded(q.starttime + "%20AND%20" + q.endtime, sortBy, batchSize, offset))
  {
    QueryRoundTrip(NewQuery(isOpen, sortBy, batchSize, offset, fields, hour));
  }

  lemma PieceCount(name: string, v: string)
    requires |name| > 0 && name[0] == '$' && '$' !in name[1..] && '$' !in v
    ensures CountChar(name + v, '$') == 1
  {
    assert (name + v)[1..] == name[1..] + v;
    CountCharAbsent(name[1..] + v, '$');
  }

  /** Only the four parameter names carry a `$`: with a sort key free of `$`,
      a query string holds exactly four, whatever fields were selected. */
  lemma DollarCount(q: Query)
    requires '$' !in q.starttime && '$' !in q.endtime && '$' !in q.order
    ensures CountChar(ToJson(q), '$') == 4
  {
    var p := Pieces(q);
    IntTextChars(q.limit);
    IntTextChars(q.offset);
    PieceCount("$where=", q.starttime + "%20AND%20" + q.endtime);
    assert "$where=" + (q.starttime + "%20AND%20" + q.endtime) == p[0];
    PieceCount("$order=", q.order);
    PieceCount("$limit=", IntToString(q.limit));
    PieceCount("$offset=", IntToString(q.offset));
    ToJsonPieces(q);
    JoinFour(p[0], p[1], p[2], p[3], '&');
    CountCharAbsent("&", '$');
    CountCharAppend(p[0], "&", '$');
    CountCharAppend(p[0] + "&", p[1], '$');
    CountCharAppend(p[0] + "&" + p[1], "&", '$');
    CountCharAppend(p[0] + "&" + p[1] + "&", p[2], '$');
    CountCharAppend(p[0] + "&" + p[1] + "&" + p[2], "&", '$');
    CountCharAppend(p[0] + "&" + p[1] + "&" + p[2] + "&", p[3], '$');
  }

  /** A limit set through the setter is the one the query string carries;
      a falsy one leaves the old limit in place. */
  lemma SetLimitRoundTrip(q: Query, val: Option<int>)
    requires '&' !in q.starttime && '&' !in q.endtime && '&' !in q.order
    ensures DecodeQuery(ToJson(SetLimit(q, val))) ==
            Some(Decoded(q.starttime + "%20AND%20" + q.endtime, q.order,
                         if val.Some? && val.value != 0 then val.value else q.limit, q.offset))
  {
    QueryRoundTrip(SetLimit(q, val));
  }

  /** `incrementPage` applied `k` times. */
  function AdvancePages(q: Query, k: nat): Query
    decreases k
  {
    if k == 0 then q else IncrementPage(AdvancePages(q, k - 1))
  }

  /** After `k` calls of `incrementPage` the offset read back from the query
      string has grown by exactly `k`, and nothing else in it has changed. */
  lemma {:induction false} AdvancePagesOffset(q: Query, k: nat)
    requires '&' !in q.starttime && '&' !in q.endtime && '&' !in q.order
    ensures DecodeQuery(ToJson(AdvancePages(q, k))) ==
            Some(Decoded(q.starttime + "%20AND%20" + q.endtime, q.order, q.limit, q.offset + k))
    decreases k
  {
    AdvancePagesShape(q, k);
    MovedOffsetRoundTrip(AdvancePages(q, k), q, q.offset + k);
  }

  /** The round trip of a query `p` that differs from `q` in its offset alone. */
  lemma MovedOffsetRoundTrip(p: Query, q: Query, offset: int)
    requires p == q.(offset := offset)
    requires '&' !in q.starttime && '&' !in q.endtime && '&' !in q.order
    ensures DecodeQuery(ToJson(p)) ==
            Some(Decoded(q.starttime + "%20AND%20" + q.endtime, q.order, q.limit, offset))
  {
    QueryRoundTrip(p);
  }

  lemma {:induction false} AdvancePagesShape(q: Query, k: nat)
    ensures AdvancePages(q, k) == q.(offset := q.offset + k)
    decreases k
  {
    if k > 0 {
      AdvancePagesShape(q, k - 1);
    }
  }
}
