/**
 * The booking list query of db/db.go (GetFilteredBookings): a fixed SELECT joined to trips,
 * optional parameterised filters, and an ORDER BY chosen from a whitelist.
 */
module BookingQuery {
  import opened Wrappers

  /**
   * The fixed head of the query. The Go text spreads it over several lines with indentation;
   * here the same clauses are joined by single spaces, so the model's query text differs from
   * Go's in white space only.
   */
  const BookingsSelect: string :=
    "SELECT b.id, b.trip_id, b.passenger, b.social_id, b.phone_number, b.date_of_birth, b.booking_date, b.status, t.origin, t.destination, t.departure_time FROM bookings b JOIN trips t ON b.trip_id = t.id WHERE 1=1"

  /** The sort whitelist. */
  const SortColumns: map<string, string> :=
    map["passenger" := "b.passenger", "date" := "b.booking_date", "status" := "b.status",
        "origin" := "t.origin", "destination" := "t.destination"]

  /** No whitelisted column contains a placeholder. */
  lemma SortColumnsPlain(key: string)
    requires key in SortColumns
    ensures '?' !in SortColumns[key]
  {
  }

  function CountPlaceholders(s: string): nat
  {
    if |s| == 0 then 0 else (if s[0] == '?' then 1 else 0) + CountPlaceholders(s[1..])
  }

  lemma {:induction false} CountPlaceholdersConcat(a: string, b: string)
    ensures CountPlaceholders(a + b) == CountPlaceholders(a) + CountPlaceholders(b)
  {
    if |a| > 0 {
      assert (a + b)[0] == a[0];
      assert (a + b)[1..] == a[1..] + b;
      CountPlaceholdersConcat(a[1..], b);
    } else {
      assert a + b == b;
    }
  }

  lemma {:induction false} NoPlaceholders(s: string)
    requires forall i :: 0 <= i < |s| ==> s[i] != '?'
    ensures CountPlaceholders(s) == 0
  {
    if |s| > 0 {
      assert forall i :: 0 <= i < |s[1..]| ==> s[1..][i] == s[i + 1];
      NoPlaceholders(s[1..]);
    }
  }

  /** A WHERE fragment binding one argument: its only `?` is its last character. */
  predicate IsCondition(cond: string)
  {
    |cond| > 0 && cond[|cond| - 1] == '?' && forall i :: 0 <= i < |cond| - 1 ==> cond[i] != '?'
  }

  lemma AppendCondition(where: string, cond: string)
    requires IsCondition(cond)
    ensures CountPlaceholders(where + cond) == CountPlaceholders(where) + 1
  {
    var head := cond[..|cond| - 1];
    assert cond == head + ['?'];
    NoPlaceholders(head);
    CountPlaceholdersConcat(head, ['?']);
    CountPlaceholdersConcat(where, cond);
  }

  /** The value of a filter key, "" when the map is nil or lacks the key. */
  function FilterValue(filter: Option<map<string, string>>, key: string): string
  {
    if filter.Some? && key in filter.value then filter.value[key] else ""
  }

  /** The filter keys, in the order GetFilteredBookings tests them. */
  const FilterKeys: seq<string> := ["passenger", "origin", "destination", "status", "date_from", "date_to"]

  /** The argument one filter key binds: none when its value is empty; passenger is wrapped for LIKE. */
  function FilterArg(filter: Option<map<string, string>>, key: string): seq<string>
  {
    var v := FilterValue(filter, key);
    if v == "" then [] else if key == "passenger" then ["%" + v + "%"] else [v]
  }

  /** The arguments bound by the first n filter keys. */
  function ArgsUpTo(filter: Option<map<string, string>>, n: nat): (args: seq<string>)
    requires n <= |FilterKeys|
    ensures |args| <= n
    ensures args == [] <==> forall k :: 0 <= k < n ==> FilterValue(filter, FilterKeys[k]) == ""
  {
    if n == 0 then [] else ArgsUpTo(filter, n - 1) + FilterArg(filter, FilterKeys[n - 1])
  }

  /** The arguments GetFilteredBookings binds, in clause order. */
  function FilterArgs(filter: Option<map<string, string>>): seq<string>
  {
    ArgsUpTo(filter, |FilterKeys|)
  }

  predicate HasSuffix(s: string, suffix: string)
  {
    |suffix| <= |s| && s[|s| - |suffix|..] == suffix
  }

  /**
   * One filter step of GetFilteredBookings: when the n-th key has a non-empty value, append its
   * condition and bind its argument. A nil filter map reads as absent keys, as in Go.
   */
  method AppendFilter(filter: Option<map<string, string>>, n: nat, where: string, args: seq<string>)
    returns (where': string, args': seq<string>)
    requires 0 < n <= |FilterKeys|
    ensures where' == where + (if FilterValue(filter, FilterKeys[n - 1]) == "" then "" else FilterConds[n - 1])
    ensures args' == args + FilterArg(filter, FilterKeys[n - 1])
    ensures where == CondsUpTo(filter, n - 1) ==> where' == CondsUpTo(filter, n)
    ensures args == ArgsUpTo(filter, n - 1) ==> args' == ArgsUpTo(filter, n)
  {
    var key := FilterKeys[n - 1];
    where', args' := where, args;
    if filter.Some? && key in filter.value && filter.value[key] != "" {
      where' := where + FilterConds[n - 1];
      if key == "passenger" {
        args' := args + ["%" + filter.value[key] + "%"];
      } else {
        args' := args + [filter.value[key]];
      }
    }
  }

  // The six WHERE fragments, each binding one argument.

  const PassengerLike: string := " AND b.passenger LIKE ?"
  const OriginIs: string := " AND t.origin = ?"
  const DestinationIs: string := " AND t.destination = ?"
  const StatusIs: string := " AND b.status = ?"
  const DateFrom: string := " AND DATE(b.booking_date) >= ?"
  const DateTo: string := " AND DATE(b.booking_date) <= ?"

  /** The WHERE fragment of each filter key, in the order of FilterKeys. */
  const FilterConds: seq<string> := [PassengerLike, OriginIs, DestinationIs, StatusIs, DateFrom, DateTo]

  lemma AllFragmentsAreConditions()
    ensures |FilterConds| == |FilterKeys|
    ensures forall k :: 0 <= k < |FilterConds| ==> IsCondition(FilterConds[k])
  {
  }

  /** The conditions added for the first n filter keys: a key's fragment exactly when its value is non-empty. */
  function CondsUpTo(filter: Option<map<string, string>>, n: nat): string
    requires n <= |FilterKeys|
  {
    if n == 0 then ""
    else CondsUpTo(filter, n - 1) + (if FilterValue(filter, FilterKeys[n - 1]) == "" then "" else FilterConds[n - 1])
  }

  /** The text GetFilteredBookings puts between its SELECT and its ORDER BY. */
  function FilterWhere(filter: Option<map<string, string>>): string
  {
    CondsUpTo(filter, |FilterKeys|)
  }

  /** Conditions and arguments stay in step: one `?` for every bound argument. */
  lemma {:induction false} CondsMatchArgs(filter: Option<map<string, string>>, n: nat)
    requires n <= |FilterKeys|
    ensures CountPlaceholders(CondsUpTo(filter, n)) == |ArgsUpTo(filter, n)|
  {
    if n > 0 {
      CondsMatchArgs(filter, n - 1);
      AllFragmentsAreConditions();
      var key := FilterKeys[n - 1];
      StepKeepsCount(CondsUpTo(filter, n - 1), FilterConds[n - 1], ArgsUpTo(filter, n - 1), FilterArg(filter, key),
                     FilterValue(filter, key) == "");
    }
  }

  /** One filter step: a condition with one argument, or nothing with nothing, keeps the count in step. */
  lemma StepKeepsCount(where: string, cond: string, args: seq<string>, arg: seq<string>, empty: bool)
    requires CountPlaceholders(where) == |args|
    requires empty ==> arg == []
    requires !empty ==> IsCondition(cond) && |arg| == 1
    ensures CountPlaceholders(where + (if empty then "" else cond)) == |args + arg|
  {
    if empty {
      assert where + "" == where;
    } else {
      AppendCondition(where, cond);
    }
  }

  /** A nil filter map, or one holding only empty values, adds no condition and binds nothing. */
  lemma {:induction false} NoFilterNoConditions(filter: Option<map<string, string>>, n: nat)
    requires n <= |FilterKeys|
    requires forall k :: 0 <= k < n ==> FilterValue(filter, FilterKeys[k]) == ""
    ensures CondsUpTo(filter, n) == "" && ArgsUpTo(filter, n) == []
  {
    if n > 0 {
      NoFilterNoConditions(filter, n - 1);
    }
  }

  /** The WHERE part of GetFilteredBookings: one `?` condition and one argument per non-empty filter. */
  method FilterConditions(filter: Option<map<string, string>>) returns (where: string, args: seq<string>)
    ensures where == FilterWhere(filter)
    ensures CountPlaceholders(where) == |args|
    ensures args == FilterArgs(filter)
  {
    where, args := FirstFilters(filter);
    where, args := LastFilters(filter, where, args);
    WhereMatchesArgs(filter, where, args);
  }

  /** The passenger, origin and destination filters. */
  method FirstFilters(filter: Option<map<string, string>>) returns (where: string, args: seq<string>)
    ensures where == CondsUpTo(filter, 3) && args == ArgsUpTo(filter, 3)
  {
    where, args := AppendFilter(filter, 1, "", []);
    where, args := AppendFilter(filter, 2, where, args);
    where, args := AppendFilter(filter, 3, where, args);
  }

  /** The status and date-range filters, continuing the first three. */
  method LastFilters(filter: Option<map<string, string>>, where0: string, args0: seq<string>)
    returns (where: string, args: seq<string>)
    requires where0 == CondsUpTo(filter, 3) && args0 == ArgsUpTo(filter, 3)
    ensures where == CondsUpTo(filter, 6) && args == ArgsUpTo(filter, 6)
  {
    where, args := AppendFilter(filter, 4, where0, args0);
    where, args := AppendFilter(filter, 5, where, args);
    where, args := AppendFilter(filter, 6, where, args);
  }

  /** Stated on the values FilterConditions built, so that the proof does not unfold them. */
  lemma WhereMatchesArgs(filter: Option<map<string, string>>, where: string, args: seq<string>)
    requires where == CondsUpTo(filter, |FilterKeys|) && args == ArgsUpTo(filter, |FilterKeys|)
    ensures CountPlaceholders(where) == |args|
  {
    CondsMatchArgs(filter, |FilterKeys|);
  }

  /** The ORDER BY text for a sort key and direction: a whitelisted column, or newest booking first. */
  function SortOrder(orderBy: string, orderDir: string): (order: string)
    ensures '?' !in order
  {
    if orderBy in SortColumns then
      SortColumnsPlain(orderBy);
      " ORDER BY " + SortColumns[orderBy] + (if orderDir == "desc" then " DESC" else " ASC")
    else " ORDER BY b.booking_date DESC"
  }

  /** The whole query GetFilteredBookings sends for a filter map and sort parameters. */
  function BookingsQuery(filter: Option<map<string, string>>, orderBy: string, orderDir: string): string
  {
    BookingsSelect + FilterWhere(filter) + SortOrder(orderBy, orderDir)
  }

  /** The ORDER BY part: a whitelisted column, DESC only for "desc"; otherwise newest booking first. */
  method OrderClause(orderBy: string, orderDir: string) returns (order: string)
    ensures '?' !in order
    ensures orderBy in SortColumns ==>
      order == " ORDER BY " + SortColumns[orderBy] + (if orderDir == "desc" then " DESC" else " ASC")
    ensures orderBy !in SortColumns ==> order == " ORDER BY b.booking_date DESC"
    ensures order == SortOrder(orderBy, orderDir)
  {
    if orderBy != "" {
      if orderBy in SortColumns {
        SortColumnsPlain(orderBy);
        order := " ORDER BY " + SortColumns[orderBy];
        if orderDir == "desc" {
          order := order + " DESC";
        } else {
          order := order + " ASC";
        }
      } else {
        order := " ORDER BY b.booking_date DESC";
      }
    } else {
      order := " ORDER BY b.booking_date DESC";
    }
  }

  /**
   * GetFilteredBookings: the fixed SELECT, then the filter conditions (exactly one `?` per bound
   * argument), then an ORDER BY whose column comes only from the whitelist.
   */
  method GetFilteredBookings(filter: Option<map<string, string>>, orderBy: string, orderDir: string)
    returns (query: string, args: seq<string>)
    ensures query == BookingsQuery(filter, orderBy, orderDir)
    ensures |BookingsSelect| <= |query| && query[..|BookingsSelect|] == BookingsSelect
    ensures CountPlaceholders(query[|BookingsSelect|..]) == |args|
    ensures args == FilterArgs(filter)
    ensures orderBy in SortColumns ==>
      HasSuffix(query, " ORDER BY " + SortColumns[orderBy] + (if orderDir == "desc" then " DESC" else " ASC"))
    ensures orderBy !in SortColumns ==> HasSuffix(query, " ORDER BY b.booking_date DESC")
  {
    var where;
    where, args := FilterConditions(filter);
    var order := OrderClause(orderBy, orderDir);
    Assembled(BookingsSelect, where, order, args);
    query := BookingsSelect + where + order;
  }

  /**
   * Every query is the fixed SELECT followed by text whose `?` count is the number of bound
   * arguments, and it ends in the ORDER BY of the sort parameters.
   */
  lemma BookingsQueryShape(filter: Option<map<string, string>>, orderBy: string, orderDir: string)
    ensures var q := BookingsQuery(filter, orderBy, orderDir);
            && |BookingsSelect| <= |q| && q[..|BookingsSelect|] == BookingsSelect
            && CountPlaceholders(q[|BookingsSelect|..]) == |FilterArgs(filter)|
            && HasSuffix(q, SortOrder(orderBy, orderDir))
  {
    CondsMatchArgs(filter, |FilterKeys|);
    Assembled(BookingsSelect, FilterWhere(filter), SortOrder(orderBy, orderDir), FilterArgs(filter));
  }

  /** The three parts joined: the prefix is kept, the order clause ends the query, and the placeholders are those of `where`. */
  lemma Assembled(select: string, where: string, order: string, args: seq<string>)
    requires CountPlaceholders(where) == |args| && '?' !in order
    ensures var q := select + where + order;
            && |select| <= |q| && q[..|select|] == select
            && CountPlaceholders(q[|select|..]) == |args|
            && HasSuffix(q, order)
  {
    assert forall i :: 0 <= i < |order| ==> order[i] != '?' by {
      forall i | 0 <= i < |order| ensures order[i] != '?' {
        assert order[i] in order;
      }
    }
    NoPlaceholders(order);
    CountPlaceholdersConcat(where, order);
    var tail := where + order;
    SuffixOfAppend(where, order);
    SuffixOfAppend(select, tail);
    SuffixTransitive(select + tail, tail, order);
    assert select + where + order == select + tail;
    assert (select + tail)[|select|..] == tail;
    assert (select + tail)[..|select|] == select;
  }

  lemma SuffixOfAppend(a: string, b: string)
    ensures HasSuffix(a + b, b)
  {
    assert (a + b)[|a|..] == b;
  }

  lemma SuffixTransitive(s: string, t: string, u: string)
    requires HasSuffix(s, t) && HasSuffix(t, u)
    ensures HasSuffix(s, u)
  {
    assert s[|s| - |u|..] == t[|t| - |u|..];
  }
}
