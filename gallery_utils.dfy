/** groupMediaByDateAndRow of utils/galleryUtils.js: the gallery's list of
    day sections.

    Items are grouped by the calendar day the date extractor gives them
    (items without a date are dropped), each day's items are cut into rows
    of three for the grid, and the days are listed newest first.

    A day is the (year, month, day) triple the source reads off a JS `Date`;
    the source keys its groups by the `YYYY-MM-DD` string of that triple,
    and `DateKeyRoundTrip` shows that this string determines the triple, so
    grouping by the triple groups exactly as the source does. */
module GalleryUtils {
  import opened Wrappers
  import opened Text

  /** A calendar day: `getFullYear()`, `getMonth() + 1`, `getDate()`. */
  datatype Date = Date(year: nat, month: nat, day: nat)

  /** A day section: its day and its rows of at most three items. The title
      shown for the day is not modelled. */
  datatype Section<T> = Section(date: Date, data: seq<seq<T>>)

  predicate ValidDate(d: Date) {
    1 <= d.month <= 12 && 1 <= d.day <= 31
  }

  // ---------------------------------------------------------------------
  // The `YYYY-MM-DD` key
  // ---------------------------------------------------------------------

  function DigitChar(n: nat): char
    requires n < 10
  {
    ('0' as int + n) as char
  }

  /** `String(n)` for a natural number. */
  function DecimalString(n: nat): (s: string)
    ensures s != [] && forall i :: 0 <= i < |s| ==> IsDigit(s[i])
  {
    if n < 10 then [DigitChar(n)] else DecimalString(n / 10) + [DigitChar(n % 10)]
  }

  /** The number a string of decimal digits denotes. */
  function DecimalValue(s: string): nat
    requires forall i :: 0 <= i < |s| ==> IsDigit(s[i])
  {
    if s == [] then 0
    else
      assert IsDigit(s[|s| - 1]);
      DecimalValue(s[..|s| - 1]) * 10 + (s[|s| - 1] as int - '0' as int)
  }

  lemma {:induction false} DecimalRoundTrip(n: nat)
    ensures DecimalValue(DecimalString(n)) == n
  {
    var s := DecimalString(n);
    if n >= 10 {
      DecimalRoundTrip(n / 10);
      assert s[..|s| - 1] == DecimalString(n / 10);
    }
  }

  /** `String(n).padStart(2, '0')`. */
  function Pad2(n: nat): (s: string)
    ensures n < 100 ==> |s| == 2
    ensures forall i :: 0 <= i < |s| ==> IsDigit(s[i])
  {
    if n < 10 then ['0'] + DecimalString(n)
    else
      assert |DecimalString(n / 10)| == 1 || n >= 100;
      DecimalString(n)
  }

  lemma Pad2RoundTrip(n: nat)
    requires n < 100
    ensures DecimalValue(Pad2(n)) == n
  {
    DecimalRoundTrip(n);
    if n < 10 {
      assert Pad2(n)[..1] == ['0'];
    }
  }

  /** The group key of the source: the year unpadded, month and day padded
      to two digits, joined by '-'. */
  function DateKey(d: Date): (key: string)
    requires ValidDate(d)
    ensures |key| >= 7
    ensures key[|key| - 6] == '-' && key[|key| - 3] == '-'
  {
    DecimalString(d.year) + "-" + Pad2(d.month) + "-" + Pad2(d.day)
  }

  /** Reads the triple back from a key of the shape `<digits>-DD-DD`. */
  function ParseKey(key: string): Option<Date> {
    if |key| < 7 || key[|key| - 6] != '-' || key[|key| - 3] != '-' then None
    else
      var y, m, d := key[..|key| - 6], key[|key| - 5..|key| - 3], key[|key| - 2..];
      if (forall i :: 0 <= i < |y| ==> IsDigit(y[i]))
         && (forall i :: 0 <= i < |m| ==> IsDigit(m[i]))
         && (forall i :: 0 <= i < |d| ==> IsDigit(d[i]))
      then Some(Date(DecimalValue(y), DecimalValue(m), DecimalValue(d)))
      else None
  }

  /** The key of a day reads back as that day. */
  lemma DateKeyRoundTrip(d: Date)
    requires ValidDate(d)
    ensures ParseKey(DateKey(d)) == Some(d)
  {
    var key := DateKey(d);
    var y, m, dd := DecimalString(d.year), Pad2(d.month), Pad2(d.day);
    assert key == y + "-" + m + "-" + dd;
    assert key[..|key| - 6] == y;
    assert key[|key| - 5..|key| - 3] == m;
    assert key[|key| - 2..] == dd;
    DecimalRoundTrip(d.year);
    Pad2RoundTrip(d.month);
    Pad2RoundTrip(d.day);
  }

  /** Two days share a group key only if they are the same day. */
  lemma DateKeyInjective(d: Date, e: Date)
    requires ValidDate(d) && ValidDate(e) && DateKey(d) == DateKey(e)
    ensures d == e
  {
    DateKeyRoundTrip(d);
    DateKeyRoundTrip(e);
  }

  // ---------------------------------------------------------------------
  // Order of days
  // ---------------------------------------------------------------------

  /** `d` is a later day than `e`; this is the order the source's sort
      compares the parsed keys by. */
  predicate Later(d: Date, e: Date) {
    d.year > e.year
    || (d.year == e.year && d.month > e.month)
    || (d.year == e.year && d.month == e.month && d.day > e.day)
  }

  predicate NewestFirst(s: seq<Date>) {
    forall i, j :: 0 <= i < j < |s| ==> Later(s[i], s[j])
  }

  function InsertNewest(d: Date, sorted: seq<Date>): (r: seq<Date>)
    requires NewestFirst(sorted) && d !in sorted
    ensures NewestFirst(r) && multiset(r) == multiset(sorted) + multiset{d}
  {
    if sorted == [] then [d]
    else if Later(d, sorted[0]) then
      LaterTransitive(d, sorted);
      [d] + sorted
    else
      var rest := InsertNewest(d, sorted[1..]);
      InsertNewestStep(d, sorted, rest);
      [sorted[0]] + rest
  }

  lemma LaterTransitive(d: Date, sorted: seq<Date>)
    requires sorted != [] && NewestFirst(sorted) && Later(d, sorted[0])
    ensures NewestFirst([d] + sorted)
  {
    forall j | 0 <= j < |sorted|
      ensures Later(d, sorted[j])
    {
      if j > 0 {
        assert Later(sorted[0], sorted[j]);
      }
    }
  }

  /** The head of a newest-first list stays in front when `d` goes into the
      rest, because distinct days are always ordered one way or the other. */
  lemma InsertNewestStep(d: Date, sorted: seq<Date>, rest: seq<Date>)
    requires sorted != [] && NewestFirst(sorted) && d !in sorted && !Later(d, sorted[0])
    requires NewestFirst(rest) && multiset(rest) == multiset(sorted[1..]) + multiset{d}
    ensures NewestFirst([sorted[0]] + rest)
    ensures multiset([sorted[0]] + rest) == multiset(sorted) + multiset{d}
  {
    assert sorted == [sorted[0]] + sorted[1..];
    forall j | 0 <= j < |rest|
      ensures Later(sorted[0], rest[j])
    {
      assert rest[j] in multiset(rest);
      if rest[j] != d {
        assert rest[j] in multiset(sorted[1..]);
        var k :| 0 <= k < |sorted[1..]| && sorted[1..][k] == rest[j];
        assert sorted[k + 1] == rest[j];
      } else {
        assert d != sorted[0];
      }
    }
  }

  predicate Distinct(s: seq<Date>) {
    forall i, j :: 0 <= i < j < |s| ==> s[i] != s[j]
  }

  /** The sort of the group keys: newest day first. */
  function SortNewestFirst(days: seq<Date>): (r: seq<Date>)
    requires Distinct(days)
    ensures NewestFirst(r) && multiset(r) == multiset(days)
  {
    if days == [] then []
    else
      var init, last := days[..|days| - 1], days[|days| - 1];
      DistinctInit(days);
      var sorted := SortNewestFirst(init);
      assert last !in multiset(sorted);
      assert days == init + [last];
      InsertNewest(last, sorted)
  }

  /** Dropping the last day keeps the days distinct, and the last day is not
      among the others. */
  lemma DistinctInit(days: seq<Date>)
    requires days != [] && Distinct(days)
    ensures Distinct(days[..|days| - 1])
    ensures days[|days| - 1] !in multiset(days[..|days| - 1])
  {
  }

  // ---------------------------------------------------------------------
  // Specification of the grouping
  // ---------------------------------------------------------------------

  /** The items of `items` dated `d`, in input order. */
  function OnDay<T>(items: seq<T>, dateOf: T -> Option<Date>, d: Date): seq<T> {
    if items == [] then []
    else
      OnDay(items[..|items| - 1], dateOf, d)
        + (if dateOf(items[|items| - 1]) == Some(d) then [items[|items| - 1]] else [])
  }

  /** The items that have a date, in input order. */
  function Dated<T>(items: seq<T>, dateOf: T -> Option<Date>): seq<T> {
    if items == [] then []
    else
      Dated(items[..|items| - 1], dateOf)
        + (if dateOf(items[|items| - 1]).Some? then [items[|items| - 1]] else [])
  }

  function Concat<T>(rows: seq<seq<T>>): seq<T> {
    if rows == [] then [] else Concat(rows[..|rows| - 1]) + rows[|rows| - 1]
  }

  /** Rows of a day: none empty, none longer than three, and only the last
      one shorter than three. */
  predicate RowsShaped<T>(rows: seq<seq<T>>) {
    forall r :: 0 <= r < |rows| ==> 1 <= |rows[r]| <= 3 && (r < |rows| - 1 ==> |rows[r]| == 3)
  }

  function SectionDates<T>(sections: seq<Section<T>>): (ds: seq<Date>)
    ensures |ds| == |sections| && forall i :: 0 <= i < |sections| ==> ds[i] == sections[i].date
  {
    seq(|sections|, i requires 0 <= i < |sections| => sections[i].date)
  }

  function SectionItems<T>(sections: seq<Section<T>>): seq<T> {
    if sections == [] then []
    else SectionItems(sections[..|sections| - 1]) + Concat(sections[|sections| - 1].data)
  }

  /** `sections` is the day-section list of `mediaList`: one section per
      day some item is dated, newest day first, each holding that day's
      items in input order cut into rows of three. */
  ghost predicate IsGrouping<T>(sections: seq<Section<T>>, mediaList: seq<T>, dateOf: T -> Option<Date>) {
    && NewestFirst(SectionDates(sections))
    && (forall i :: 0 <= i < |sections| ==>
         Concat(sections[i].data) == OnDay(mediaList, dateOf, sections[i].date)
         && RowsShaped(sections[i].data))
    && (forall d :: d in SectionDates(sections) <==> OnDay(mediaList, dateOf, d) != [])
  }

  // ---------------------------------------------------------------------
  // The algorithm
  // ---------------------------------------------------------------------

  /** The inner loop: slices of three, stepping by three; the rows give the
      items back in order. */
  method ChunkRows<T>(items: seq<T>) returns (rows: seq<seq<T>>)
    ensures Concat(rows) == items
    ensures RowsShaped(rows)
  {
    rows := [];
    var i := 0;
    while i < |items|
      invariant i == 3 * |rows|
      invariant Concat(rows) == items[..if i < |items| then i else |items|]
      invariant forall r :: 0 <= r < |rows| ==> 1 <= |rows[r]| <= 3
      invariant forall r :: 0 <= r < |rows| && (r < |rows| - 1 || i <= |items|) ==> |rows[r]| == 3
    {
      var end := if i + 3 < |items| then i + 3 else |items|;
      var row := items[i..end];
      assert (rows + [row])[..|rows|] == rows;
      assert items[..end] == items[..i] + row;
      rows := rows + [row];
      i := i + 3;
    }
  }

  /** The `reduce`: the days in order of first appearance, and for each day
      its items in input order. */
  method GroupByDay<T>(mediaList: seq<T>, dateOf: T -> Option<Date>)
    returns (days: seq<Date>, groups: map<Date, seq<T>>)
    ensures Distinct(days)
    ensures forall d :: d in groups <==> d in days
    ensures forall d :: d in groups ==> groups[d] == OnDay(mediaList, dateOf, d)
    ensures forall d :: OnDay(mediaList, dateOf, d) != [] <==> d in groups
  {
    days, groups := [], map[];
    for idx := 0 to |mediaList|
      invariant Distinct(days)
      invariant forall d :: d in groups <==> d in days
      invariant forall d :: d in groups ==> groups[d] == OnDay(mediaList[..idx], dateOf, d)
      invariant forall d :: OnDay(mediaList[..idx], dateOf, d) != [] <==> d in groups
    {
      var item := mediaList[idx];
      assert mediaList[..idx + 1][..idx] == mediaList[..idx];
      assert mediaList[..idx + 1][idx] == item;
      match dateOf(item)
      case None =>
      case Some(d) =>
        if d !in groups {
          days := days + [d];
          groups := groups[d := [item]];
        } else {
          groups := groups[d := groups[d] + [item]];
        }
    }
    assert mediaList[..|mediaList|] == mediaList;
  }

  /** The `for ... in` loop: every day's items replaced by their rows. */
  method RowsByDay<T>(days: seq<Date>, groups: map<Date, seq<T>>) returns (rowsOf: map<Date, seq<seq<T>>>)
    requires forall d :: d in days ==> d in groups
    ensures forall d :: d in rowsOf <==> d in days
    ensures forall d :: d in rowsOf ==> Concat(rowsOf[d]) == groups[d] && RowsShaped(rowsOf[d])
  {
    rowsOf := map[];
    for k := 0 to |days|
      invariant forall d :: d in rowsOf <==> d in days[..k]
      invariant forall d :: d in rowsOf ==> Concat(rowsOf[d]) == groups[d] && RowsShaped(rowsOf[d])
    {
      var rows := ChunkRows(groups[days[k]]);
      rowsOf := rowsOf[days[k] := rows];
    }
    assert days[..|days|] == days;
  }

  /** groupMediaByDateAndRow. An empty list gives no sections. Otherwise
      there is one section per day that some item is dated, newest day
      first; each section's rows hold that day's items in input order, cut
      into rows of three. */
  method GroupMediaByDateAndRow<T>(mediaList: seq<T>, dateOf: T -> Option<Date>)
    returns (sections: seq<Section<T>>)
    ensures mediaList == [] ==> sections == []
    ensures IsGrouping(sections, mediaList, dateOf)
  {
    if mediaList == [] {
      return [];
    }
    var days, groups := GroupByDay(mediaList, dateOf);
    var rowsOf := RowsByDay(days, groups);
    var sorted := SortNewestFirst(days);
    assert forall d :: d in sorted <==> d in days by {
      forall d ensures d in sorted <==> d in days {
        assert d in sorted <==> d in multiset(sorted);
      }
    }
    sections := SectionsOf(sorted, rowsOf);
    SectionsOfIsGrouping(mediaList, dateOf, sorted, rowsOf);
  }

  /** The final `map`: one section per sorted day, holding that day's rows. */
  function SectionsOf<T>(sorted: seq<Date>, rowsOf: map<Date, seq<seq<T>>>): (sections: seq<Section<T>>)
    requires forall d :: d in sorted ==> d in rowsOf
    ensures SectionDates(sections) == sorted
    ensures forall i :: 0 <= i < |sections| ==> sections[i].data == rowsOf[sorted[i]]
  {
    seq(|sorted|, i requires 0 <= i < |sorted| => Section(sorted[i], rowsOf[sorted[i]]))
  }

  lemma SectionsOfIsGrouping<T>(mediaList: seq<T>, dateOf: T -> Option<Date>,
                                sorted: seq<Date>, rowsOf: map<Date, seq<seq<T>>>)
    requires NewestFirst(sorted)
    requires forall d :: d in sorted <==> OnDay(mediaList, dateOf, d) != []
    requires forall d :: d in sorted ==> d in rowsOf
    requires forall d :: d in rowsOf ==> Concat(rowsOf[d]) == OnDay(mediaList, dateOf, d) && RowsShaped(rowsOf[d])
    ensures IsGrouping(SectionsOf(sorted, rowsOf), mediaList, dateOf)
  {
    var sections := SectionsOf(sorted, rowsOf);
    forall i | 0 <= i < |sections|
      ensures Concat(sections[i].data) == OnDay(mediaList, dateOf, sections[i].date)
      ensures RowsShaped(sections[i].data)
    {
      assert sections[i].date == sorted[i] && sorted[i] in sorted;
    }
  }

  // ---------------------------------------------------------------------
  // Counting
  // ---------------------------------------------------------------------

  /** How many of `items` fall on one of the days `ds`. */
  function CountOn<T>(ds: seq<Date>, items: seq<T>, dateOf: T -> Option<Date>): nat {
    if ds == [] then 0
    else CountOn(ds[..|ds| - 1], items, dateOf) + |OnDay(items, dateOf, ds[|ds| - 1])|
  }

  lemma {:induction false} CountOnStep<T>(ds: seq<Date>, items: seq<T>, x: T, dateOf: T -> Option<Date>)
    requires Distinct(ds)
    ensures CountOn(ds, items + [x], dateOf) ==
      CountOn(ds, items, dateOf) + (if dateOf(x).Some? && dateOf(x).value in ds then 1 else 0)
  {
    if ds != [] {
      var init, last := ds[..|ds| - 1], ds[|ds| - 1];
      assert (items + [x])[..|items|] == items;
      CountOnStep(init, items, x, dateOf);
      if dateOf(x).Some? && dateOf(x).value in ds {
        if dateOf(x).value != last {
          assert dateOf(x).value in init by {
            var j :| 0 <= j < |ds| && ds[j] == dateOf(x).value;
            assert j < |ds| - 1;
            assert init[j] == ds[j];
          }
        }
      }
    }
  }

  /** Every dated item falls in exactly one section of a distinct list of
      days that includes every dated day. */
  lemma {:induction false} CountOnAll<T>(ds: seq<Date>, items: seq<T>, dateOf: T -> Option<Date>)
    requires Distinct(ds)
    requires forall x :: x in items && dateOf(x).Some? ==> dateOf(x).value in ds
    ensures CountOn(ds, items, dateOf) == |Dated(items, dateOf)|
  {
    if items == [] {
      CountOnEmpty(ds, dateOf);
    } else {
      var init, x := items[..|items| - 1], items[|items| - 1];
      assert items == init + [x];
      CountOnAll(ds, init, dateOf);
      CountOnStep(ds, init, x, dateOf);
    }
  }

  lemma {:induction false} CountOnEmpty<T>(ds: seq<Date>, dateOf: T -> Option<Date>)
    ensures CountOn(ds, [], dateOf) == 0
  {
    if ds != [] {
      CountOnEmpty(ds[..|ds| - 1], dateOf);
    }
  }

  /** Grouping loses no dated item and duplicates none: the sections hold
      as many items as there are dated items. */
  lemma SectionsPreserveCount<T>(mediaList: seq<T>, dateOf: T -> Option<Date>, sections: seq<Section<T>>)
    requires IsGrouping(sections, mediaList, dateOf)
    ensures |SectionItems(sections)| == |Dated(mediaList, dateOf)|
  {
    var ds := SectionDates(sections);
    assert Distinct(ds);
    forall x | x in mediaList && dateOf(x).Some?
      ensures dateOf(x).value in ds
    {
      OnDayHas(mediaList, dateOf, x);
    }
    CountOnAll(ds, mediaList, dateOf);
    SectionItemsCount(sections, mediaList, dateOf);
  }

  lemma {:induction false} OnDayHas<T>(items: seq<T>, dateOf: T -> Option<Date>, x: T)
    requires x in items && dateOf(x).Some?
    ensures x in OnDay(items, dateOf, dateOf(x).value)
  {
    var init := items[..|items| - 1];
    if x != items[|items| - 1] {
      assert items == init + [items[|items| - 1]];
      OnDayHas(init, dateOf, x);
    }
  }

  lemma {:induction false} SectionItemsCount<T>(sections: seq<Section<T>>, items: seq<T>, dateOf: T -> Option<Date>)
    requires forall i :: 0 <= i < |sections| ==>
      Concat(sections[i].data) == OnDay(items, dateOf, sections[i].date)
    ensures |SectionItems(sections)| == CountOn(SectionDates(sections), items, dateOf)
  {
    if sections != [] {
      var init := sections[..|sections| - 1];
      SectionItemsCount(init, items, dateOf);
      assert SectionDates(sections)[..|sections| - 1] == SectionDates(init);
    }
  }
}
