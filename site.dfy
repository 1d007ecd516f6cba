/** Model of the index logic of fbs/commands/build_site.py: grouping the
    bills by month, the recent/archive split of the main index, the sitemap
    entry list, the stripped index.json records and robots.txt. The
    templates, markdown rendering, get_bill_slug and the clock are
    parameters; the file writes are left out. */
module Site {
  import opened Wrappers
  import opened Json
  import opened Strings
  import opened Sorting

  const BaseDomain: string := "https://usbills.ai/"

  /** KeyError on `bill[key]`; a date that `strptime(date, "%Y-%m-%d")`
      rejects (or that is not text at all); a section that has no `pop`
      (not a dictionary); a `sections` value that cannot be iterated; an
      element text that ElementTree cannot write. */
  datatype SiteError =
    | MissingKey(key: string)
    | BadDate(value: Json)
    | NotADict(value: Json)
    | NotIterable(value: Json)
    | CannotSerialize(value: Json)

  // ---------------------------------------------------------------------
  // Dates

  predicate IsDigit(c: char)
  {
    '0' <= c <= '9'
  }

  function DigitValue(c: char): nat
    requires IsDigit(c)
  {
    c as int - '0' as int
  }

  predicate DateShape(s: string)
  {
    && |s| == 10 && s[4] == '-' && s[7] == '-'
    && IsDigit(s[0]) && IsDigit(s[1]) && IsDigit(s[2]) && IsDigit(s[3])
    && IsDigit(s[5]) && IsDigit(s[6]) && IsDigit(s[8]) && IsDigit(s[9])
  }

  function Year(s: string): nat
    requires DateShape(s)
  {
    1000 * DigitValue(s[0]) + 100 * DigitValue(s[1]) + 10 * DigitValue(s[2]) + DigitValue(s[3])
  }

  function Month(s: string): nat
    requires DateShape(s)
  {
    10 * DigitValue(s[5]) + DigitValue(s[6])
  }

  function Day(s: string): nat
    requires DateShape(s)
  {
    10 * DigitValue(s[8]) + DigitValue(s[9])
  }

  predicate LeapYear(y: nat)
  {
    y % 4 == 0 && (y % 100 != 0 || y % 400 == 0)
  }

  function DaysInMonth(y: nat, m: nat): nat
  {
    if m == 2 then (if LeapYear(y) then 29 else 28)
    else if m == 4 || m == 6 || m == 9 || m == 11 then 30
    else 31
  }

  /** A zero-padded `YYYY-MM-DD` date of the years 1000-9999 that exists in
      the Gregorian calendar; strptime accepts these, and for them strftime
      reproduces the digits. */
  predicate CanonicalDate(s: string)
  {
    DateShape(s) && Year(s) >= 1000 && 1 <= Month(s) <= 12 && 1 <= Day(s) <= DaysInMonth(Year(s), Month(s))
  }

  const MonthNames: seq<string> := [
    "January", "February", "March", "April", "May", "June", "July",
    "August", "September", "October", "November", "December"
  ]

  /** `strftime("%Y-%m")`: the first seven characters of a canonical date. */
  function YearMonth(date: string): string
  {
    if |date| < 7 then date else date[..7]
  }

  /** `strftime("%B %Y")` in the C locale. */
  function MonthName(date: string): string
    requires CanonicalDate(date)
  {
    MonthNames[Month(date) - 1] + " " + date[..4]
  }

  /** Dates of the same month share their month name. */
  lemma MonthNameOfYearMonth(a: string, b: string)
    requires CanonicalDate(a) && CanonicalDate(b) && YearMonth(a) == YearMonth(b)
    ensures MonthName(a) == MonthName(b)
  {
    assert a[5] == YearMonth(a)[5] && a[6] == YearMonth(a)[6];
    assert b[5] == YearMonth(b)[5] && b[6] == YearMonth(b)[6];
    assert a[..4] == YearMonth(a)[..4] && b[..4] == YearMonth(b)[..4];
  }

  /** No two months of the C locale share a name. */
  lemma MonthNamesDistinct(i: int, j: int)
    requires 0 <= i < 12 && 0 <= j < 12 && MonthNames[i] == MonthNames[j]
    ensures i == j
  {
  }

  /** A month name and a four-digit year can be read back from `%B %Y`. */
  lemma NameParts(n1: string, y1: string, n2: string, y2: string)
    requires |y1| == 4 && |y2| == 4 && n1 + " " + y1 == n2 + " " + y2
    ensures n1 == n2 && y1 == y2
  {
    var s := n1 + " " + y1;
    assert |n1| == |n2|;
    assert n1 == s[..|n1|] && n2 == s[..|n2|];
    assert y1 == s[|n1| + 1..] && y2 == s[|n2| + 1..];
  }

  /** Zero-padded dates of the same month number have the same month digits. */
  lemma MonthDigits(a: string, b: string)
    requires DateShape(a) && DateShape(b) && Month(a) == Month(b)
    ensures a[5] == b[5] && a[6] == b[6]
  {
  }

  /** Conversely, dates with the same month name are of the same month, so
      the year-month keys and the month names determine each other. */
  lemma YearMonthOfMonthName(a: string, b: string)
    requires CanonicalDate(a) && CanonicalDate(b) && MonthName(a) == MonthName(b)
    ensures YearMonth(a) == YearMonth(b)
  {
    NameParts(MonthNames[Month(a) - 1], a[..4], MonthNames[Month(b) - 1], b[..4]);
    MonthNamesDistinct(Month(a) - 1, Month(b) - 1);
    MonthDigits(a, b);
    assert a[..7] == a[..4] + [a[4], a[5], a[6]] && b[..7] == b[..4] + [b[4], b[5], b[6]];
  }

  lemma DateExample()
    ensures CanonicalDate("2024-01-05")
    ensures YearMonth("2024-01-05") == "2024-01"
    ensures MonthName("2024-01-05") == "January 2024"
  {
  }

  // ---------------------------------------------------------------------
  // group_bills_by_month (lines 107-148)

  /** The summary dictionary appended to a month group (lines 130-141). */
  datatype BillEntry = BillEntry(
    legisNum: Json, title: Json, date: string,
    numPages: Json, numSections: Json, numTokens: Json,
    eli5: string, slug: string)

  datatype BillGroup = BillGroup(yearMonth: string, monthName: string, bills: seq<BillEntry>)

  /** The summary entry for one bill, with the KeyError or ValueError it
      raises first. `markdown` stands for markdown.markdown and `slugOf` for
      get_bill_slug. */
  function Entry(bill: Record, markdown: Json -> string, slugOf: (Json, Json, Json) -> string)
    : (r: Result<BillEntry, SiteError>)
    ensures r.Ok? <==> && "date" in bill && bill["date"].JStr? && CanonicalDate(bill["date"].s)
                        && "legis_num" in bill && "title" in bill && "bill_version" in bill
    ensures r.Ok? ==> r.value.date == bill["date"].s && CanonicalDate(r.value.date)
  {
    if "date" !in bill then Err(MissingKey("date"))
    else if !bill["date"].JStr? || !CanonicalDate(bill["date"].s) then Err(BadDate(bill["date"]))
    else if "legis_num" !in bill then Err(MissingKey("legis_num"))
    else if "title" !in bill then Err(MissingKey("title"))
    else if "bill_version" !in bill then Err(MissingKey("bill_version"))
    else Ok(BillEntry(
      bill["legis_num"], bill["title"], bill["date"].s,
      Get(bill, "num_pages", JNum(0.0)), Get(bill, "num_sections", JNum(0.0)), Get(bill, "num_tokens", JNum(0.0)),
      markdown(Get(bill, "eli5", JStr(""))),
      slugOf(bill["legis_num"], bill["title"], bill["bill_version"])))
  }

  /** The entry's fields: the date as text, `bill.get(key, 0)` for the three
      counts and `bill.get("eli5", "")` before rendering. */
  lemma EntryFields(bill: Record, markdown: Json -> string, slugOf: (Json, Json, Json) -> string)
    requires Entry(bill, markdown, slugOf).Ok?
    ensures var e := Entry(bill, markdown, slugOf).value;
            && e.date == bill["date"].s && CanonicalDate(e.date)
            && e.legisNum == bill["legis_num"] && e.title == bill["title"]
            && e.numPages == (if "num_pages" in bill then bill["num_pages"] else JNum(0.0))
            && e.numSections == (if "num_sections" in bill then bill["num_sections"] else JNum(0.0))
            && e.numTokens == (if "num_tokens" in bill then bill["num_tokens"] else JNum(0.0))
            && e.eli5 == markdown(if "eli5" in bill then bill["eli5"] else JStr(""))
            && e.slug == slugOf(bill["legis_num"], bill["title"], bill["bill_version"])
  {
  }

  /** A bill without a date fails on it before anything else. */
  lemma EntryDateFirst(bill: Record, markdown: Json -> string, slugOf: (Json, Json, Json) -> string)
    ensures "date" !in bill ==> Entry(bill, markdown, slugOf) == Err(MissingKey("date"))
    ensures "date" in bill && !(bill["date"].JStr? && CanonicalDate(bill["date"].s)) ==>
              Entry(bill, markdown, slugOf) == Err(BadDate(bill["date"]))
  {
  }

  function DateKey(e: BillEntry): string
  {
    e.date
  }

  function MonthKey(e: BillEntry): string
  {
    YearMonth(e.date)
  }

  predicate AllCanonical(entries: seq<BillEntry>)
  {
    forall i :: 0 <= i < |entries| ==> CanonicalDate(entries[i].date)
  }

  /** The year-month keys of the groups, in dictionary order. */
  function Keys(groups: seq<BillGroup>): (ks: seq<string>)
    ensures |ks| == |groups|
    ensures forall i :: 0 <= i < |groups| ==> ks[i] == groups[i].yearMonth
  {
    seq(|groups|, i requires 0 <= i < |groups| => groups[i].yearMonth)
  }

  predicate DistinctKeys(groups: seq<BillGroup>)
  {
    forall i, j :: 0 <= i < j < |groups| ==> groups[i].yearMonth != groups[j].yearMonth
  }

  /** `groups[key]` on the dictionary: the position of the group with that key, or |groups|. */
  function GroupIndex(groups: seq<BillGroup>, key: string): (i: nat)
    ensures i <= |groups|
    ensures i < |groups| ==> groups[i].yearMonth == key
    ensures forall j :: 0 <= j < i ==> groups[j].yearMonth != key
    decreases |groups|
  {
    if groups == [] then 0
    else if groups[0].yearMonth == key then 0
    else 1 + GroupIndex(groups[1..], key)
  }

  /** Lines 124-142 for one entry: append it to its month's group, creating
      the group (with this entry's month name) on first sight. */
  function AddEntry(groups: seq<BillGroup>, e: BillEntry): seq<BillGroup>
    requires CanonicalDate(e.date)
  {
    var i := GroupIndex(groups, MonthKey(e));
    if i < |groups| then groups[i := groups[i].(bills := groups[i].bills + [e])]
    else groups + [BillGroup(MonthKey(e), MonthName(e.date), [e])]
  }

  /** The groups after the first loop, before sorting. */
  function Collect(entries: seq<BillEntry>): seq<BillGroup>
    requires AllCanonical(entries)
    decreases |entries|
  {
    if entries == [] then []
    else AddEntry(Collect(entries[..|entries| - 1]), entries[|entries| - 1])
  }

  /** Lines 145-146: each group's bills sorted by date, newest first, stably. */
  function SortGroups(groups: seq<BillGroup>): (r: seq<BillGroup>)
    ensures |r| == |groups|
    ensures forall i :: 0 <= i < |r| ==> r[i] == groups[i].(bills := SortDescendingBy(groups[i].bills, DateKey))
  {
    seq(|groups|, i requires 0 <= i < |groups| => groups[i].(bills := SortDescendingBy(groups[i].bills, DateKey)))
  }

  /** Each group's bills are re-ordered, newest first, and none is lost. */
  lemma SortGroupsSorted(groups: seq<BillGroup>)
    ensures forall i :: 0 <= i < |groups| ==> DescendingBy(SortGroups(groups)[i].bills, DateKey)
    ensures forall i :: 0 <= i < |groups| ==> multiset(SortGroups(groups)[i].bills) == multiset(groups[i].bills)
  {
    forall i | 0 <= i < |groups|
      ensures DescendingBy(SortGroups(groups)[i].bills, DateKey)
      ensures multiset(SortGroups(groups)[i].bills) == multiset(groups[i].bills)
    {
      SortDescendingSorted(groups[i].bills, DateKey);
    }
  }

  /** The summary entries of all bills, when every bill has one. */
  function Entries(bills: seq<Record>, markdown: Json -> string, slugOf: (Json, Json, Json) -> string)
    : (r: seq<BillEntry>)
    requires forall i :: 0 <= i < |bills| ==> Entry(bills[i], markdown, slugOf).Ok?
    ensures |r| == |bills| && AllCanonical(r)
    ensures forall i :: 0 <= i < |bills| ==> r[i] == Entry(bills[i], markdown, slugOf).value
  {
    seq(|bills|, i requires 0 <= i < |bills| => Entry(bills[i], markdown, slugOf).value)
  }

  lemma CollectSnoc(entries: seq<BillEntry>, e: BillEntry)
    requires AllCanonical(entries) && CanonicalDate(e.date)
    ensures AllCanonical(entries + [e])
    ensures Collect(entries + [e]) == AddEntry(Collect(entries), e)
  {
    assert (entries + [e])[..|entries|] == entries;
  }

  /** `entries` are the entries of the first bills. */
  predicate EntriesOf(bills: seq<Record>, markdown: Json -> string, slugOf: (Json, Json, Json) -> string,
                      entries: seq<BillEntry>)
  {
    |entries| <= |bills| &&
    forall k :: 0 <= k < |entries| ==> Entry(bills[k], markdown, slugOf) == Ok(entries[k])
  }

  lemma EntriesOfSnoc(bills: seq<Record>, markdown: Json -> string, slugOf: (Json, Json, Json) -> string,
                      entries: seq<BillEntry>)
    requires EntriesOf(bills, markdown, slugOf, entries) && |entries| < |bills|
    requires Entry(bills[|entries|], markdown, slugOf).Ok?
    ensures EntriesOf(bills, markdown, slugOf, entries + [Entry(bills[|entries|], markdown, slugOf).value])
  {
    var e := Entry(bills[|entries|], markdown, slugOf).value;
    forall k | 0 <= k < |entries| + 1 ensures Entry(bills[k], markdown, slugOf) == Ok((entries + [e])[k]) {
      if k < |entries| { assert (entries + [e])[k] == entries[k]; }
    }
  }

  /** The bill after the entries is the first that fails. */
  lemma FirstFailure(bills: seq<Record>, markdown: Json -> string, slugOf: (Json, Json, Json) -> string,
                     entries: seq<BillEntry>)
    requires EntriesOf(bills, markdown, slugOf, entries) && |entries| < |bills|
    requires Entry(bills[|entries|], markdown, slugOf).Err?
    ensures exists i :: 0 <= i < |bills| && Entry(bills[i], markdown, slugOf) == Err(Entry(bills[|entries|], markdown, slugOf).error)
                        && forall k :: 0 <= k < i ==> Entry(bills[k], markdown, slugOf).Ok?
  {
    var i := |entries|;
    assert forall k :: 0 <= k < i ==> Entry(bills[k], markdown, slugOf).Ok?;
  }

  lemma EntriesAre(bills: seq<Record>, markdown: Json -> string, slugOf: (Json, Json, Json) -> string, entries: seq<BillEntry>)
    requires EntriesOf(bills, markdown, slugOf, entries) && |entries| == |bills|
    ensures forall i :: 0 <= i < |bills| ==> Entry(bills[i], markdown, slugOf).Ok?
    ensures entries == Entries(bills, markdown, slugOf)
  {
  }

  /** Lines 124-142 for one bill, on the dictionary. */
  method InsertEntry(groups: seq<BillGroup>, e: BillEntry) returns (r: seq<BillGroup>)
    requires CanonicalDate(e.date)
    ensures r == AddEntry(groups, e)
  {
    var g := GroupIndex(groups, MonthKey(e));
    if g < |groups| {
      r := groups[g := groups[g].(bills := groups[g].bills + [e])];
    } else {
      r := groups + [BillGroup(MonthKey(e), MonthName(e.date), [e])];
    }
  }

  /** Lines 145-146. */
  method SortEachGroup(groups: seq<BillGroup>) returns (sorted: seq<BillGroup>)
    ensures sorted == SortGroups(groups)
  {
    sorted := groups;
    var k := 0;
    while k < |sorted|
      invariant 0 <= k <= |sorted| && |sorted| == |groups|
      invariant forall j :: 0 <= j < k ==> sorted[j] == groups[j].(bills := SortDescendingBy(groups[j].bills, DateKey))
      invariant forall j :: k <= j < |sorted| ==> sorted[j] == groups[j]
    {
      sorted := sorted[k := sorted[k].(bills := SortDescendingBy(sorted[k].bills, DateKey))];
      k := k + 1;
    }
  }

  method GroupBillsByMonth(bills: seq<Record>, markdown: Json -> string, slugOf: (Json, Json, Json) -> string)
    returns (r: Result<seq<BillGroup>, SiteError>)
    ensures r.Ok? <==> forall i :: 0 <= i < |bills| ==> Entry(bills[i], markdown, slugOf).Ok?
    ensures r.Err? ==> exists i :: 0 <= i < |bills| && Entry(bills[i], markdown, slugOf) == Err(r.error)
                        && forall k :: 0 <= k < i ==> Entry(bills[k], markdown, slugOf).Ok?
    ensures r.Ok? ==> r.value == SortGroups(Collect(Entries(bills, markdown, slugOf)))
  {
    var groups: seq<BillGroup> := [];
    ghost var entries: seq<BillEntry> := [];
    var i := 0;
    while i < |bills|
      invariant 0 <= i <= |bills|
      invariant |entries| == i && AllCanonical(entries)
      invariant EntriesOf(bills, markdown, slugOf, entries)
      invariant groups == Collect(entries)
    {
      var entry := Entry(bills[i], markdown, slugOf);
      if entry.Err? {
        FirstFailure(bills, markdown, slugOf, entries);
        return Err(entry.error);
      }
      var e := entry.value;
      EntriesOfSnoc(bills, markdown, slugOf, entries);
      CollectSnoc(entries, e);
      groups := InsertEntry(groups, e);
      entries := entries + [e];
      i := i + 1;
    }
    EntriesAre(bills, markdown, slugOf, entries);
    groups := SortEachGroup(groups);
    return Ok(groups);
  }

  // ---------------------------------------------------------------------
  // What the grouping promises

  /** The distinct elements of `s` in order of first occurrence: the key
      order of a dictionary filled from `s`. */
  function FirstSeen(s: seq<string>): (r: seq<string>)
    ensures forall x :: x in r <==> x in s
    ensures forall i, j :: 0 <= i < j < |r| ==> r[i] != r[j]
    decreases |s|
  {
    if s == [] then []
    else
      var f := FirstSeen(s[..|s| - 1]);
      assert forall x :: x in s <==> x in s[..|s| - 1] || x == s[|s| - 1];
      if s[|s| - 1] in f then f else f + [s[|s| - 1]]
  }

  function MonthKeys(entries: seq<BillEntry>): (r: seq<string>)
    ensures |r| == |entries|
    ensures forall i :: 0 <= i < |entries| ==> r[i] == MonthKey(entries[i])
  {
    seq(|entries|, i requires 0 <= i < |entries| => MonthKey(entries[i]))
  }

  /** The number of bills over all groups. */
  function TotalSize(groups: seq<BillGroup>): nat
    decreases |groups|
  {
    if groups == [] then 0 else TotalSize(groups[..|groups| - 1]) + |groups[|groups| - 1].bills|
  }

  lemma {:induction false} TotalSizeUpdate(groups: seq<BillGroup>, i: nat, bills: seq<BillEntry>)
    requires i < |groups|
    ensures TotalSize(groups[i := groups[i].(bills := bills)]) == TotalSize(groups) - |groups[i].bills| + |bills|
    decreases |groups|
  {
    var n := |groups| - 1;
    var u := groups[i := groups[i].(bills := bills)];
    assert u[..n] == if i < n then groups[..n][i := groups[i].(bills := bills)] else groups[..n];
    if i < n {
      TotalSizeUpdate(groups[..n], i, bills);
    }
  }

  lemma TotalSizeSnoc(groups: seq<BillGroup>, g: BillGroup)
    ensures TotalSize(groups + [g]) == TotalSize(groups) + |g.bills|
  {
    assert (groups + [g])[..|groups|] == groups;
  }

  lemma AddEntryShape(groups: seq<BillGroup>, e: BillEntry)
    requires CanonicalDate(e.date)
    ensures Keys(AddEntry(groups, e)) == if MonthKey(e) in Keys(groups) then Keys(groups) else Keys(groups) + [MonthKey(e)]
    ensures TotalSize(AddEntry(groups, e)) == TotalSize(groups) + 1
  {
    var i := GroupIndex(groups, MonthKey(e));
    if i < |groups| {
      TotalSizeUpdate(groups, i, groups[i].bills + [e]);
    } else {
      assert MonthKey(e) !in Keys(groups);
      TotalSizeSnoc(groups, BillGroup(MonthKey(e), MonthName(e.date), [e]));
    }
  }

  /** Group keys appear in first-seen order, and the groups hold every bill. */
  lemma {:induction false} CollectKeys(entries: seq<BillEntry>)
    requires AllCanonical(entries)
    ensures Keys(Collect(entries)) == FirstSeen(MonthKeys(entries))
    ensures TotalSize(Collect(entries)) == |entries|
    decreases |entries|
  {
    if entries != [] {
      var n := |entries| - 1;
      var init, e := entries[..n], entries[n];
      assert entries == init + [e];
      CollectKeys(init);
      CollectSnoc(init, e);
      AddEntryShape(Collect(init), e);
      MonthKeysSnoc(init, e);
      FirstSeenSnoc(MonthKeys(init), MonthKey(e));
    }
  }

  lemma MonthKeysSnoc(entries: seq<BillEntry>, e: BillEntry)
    ensures MonthKeys(entries + [e]) == MonthKeys(entries) + [MonthKey(e)]
  {
  }

  lemma FirstSeenSnoc(s: seq<string>, x: string)
    ensures FirstSeen(s + [x]) == if x in FirstSeen(s) then FirstSeen(s) else FirstSeen(s) + [x]
  {
    assert (s + [x])[..|s|] == s;
  }

  /** Every group holds exactly the entries of its month, in input order. */
  predicate Holds(groups: seq<BillGroup>, entries: seq<BillEntry>)
  {
    forall i :: 0 <= i < |groups| ==> groups[i].bills == WithKey(entries, MonthKey, groups[i].yearMonth)
  }

  /** Every group is non-empty and carries the month name of its first bill. */
  predicate Named(groups: seq<BillGroup>)
  {
    forall i :: 0 <= i < |groups| ==>
      groups[i].bills != [] && CanonicalDate(groups[i].bills[0].date)
      && groups[i].monthName == MonthName(groups[i].bills[0].date)
  }

  lemma AddEntryHolds(groups: seq<BillGroup>, entries: seq<BillEntry>, e: BillEntry)
    requires CanonicalDate(e.date) && Holds(groups, entries) && DistinctKeys(groups)
    requires MonthKey(e) in Keys(groups) <==> MonthKey(e) in MonthKeys(entries)
    ensures Holds(AddEntry(groups, e), entries + [e])
  {
    var g' := AddEntry(groups, e);
    forall k ensures WithKey(entries + [e], MonthKey, k) == WithKey(entries, MonthKey, k) + (if MonthKey(e) == k then [e] else []) {
      WithKeySnoc(entries, e, MonthKey, k);
    }
    var j := GroupIndex(groups, MonthKey(e));
    if j == |groups| {
      assert MonthKey(e) !in Keys(groups);
      forall i | 0 <= i < |entries| ensures MonthKey(entries[i]) != MonthKey(e) {
        assert MonthKeys(entries)[i] == MonthKey(entries[i]);
      }
      WithKeyNone(entries, MonthKey, MonthKey(e));
      assert g'[|groups|].bills == [e];
    }
  }

  lemma AddEntryNamed(groups: seq<BillGroup>, e: BillEntry)
    requires CanonicalDate(e.date) && Named(groups)
    ensures Named(AddEntry(groups, e))
  {
  }

  lemma DistinctOfFirstSeen(groups: seq<BillGroup>, s: seq<string>)
    requires Keys(groups) == FirstSeen(s)
    ensures DistinctKeys(groups)
  {
    forall i, j | 0 <= i < j < |groups| ensures groups[i].yearMonth != groups[j].yearMonth {
      assert Keys(groups)[i] == groups[i].yearMonth && Keys(groups)[j] == groups[j].yearMonth;
    }
  }

  /** Each group holds exactly the bills of its month, in input order, and
      carries the month name of its first bill. */
  lemma {:induction false} CollectBills(entries: seq<BillEntry>)
    requires AllCanonical(entries)
    ensures Holds(Collect(entries), entries)
    ensures Named(Collect(entries))
    decreases |entries|
  {
    if entries != [] {
      var n := |entries| - 1;
      var init, e := entries[..n], entries[n];
      assert entries == init + [e];
      CollectBills(init);
      CollectKeys(init);
      CollectSnoc(init, e);
      DistinctOfFirstSeen(Collect(init), MonthKeys(init));
      AddEntryHolds(Collect(init), init, e);
      AddEntryNamed(Collect(init), e);
    }
  }

  predicate InMonthGroup(groups: seq<BillGroup>, e: BillEntry)
  {
    exists i :: 0 <= i < |groups| && groups[i].yearMonth == MonthKey(e) && e in groups[i].bills
  }

  // The four lemmas below state what group_bills_by_month returns, for bills
  // that all have an entry.

  /** Distinct month keys in first-seen order, and as many bills in the
      groups as there were bills. */
  lemma GroupKeys(entries: seq<BillEntry>)
    requires AllCanonical(entries)
    ensures Keys(SortGroups(Collect(entries))) == FirstSeen(MonthKeys(entries))
    ensures DistinctKeys(SortGroups(Collect(entries)))
    ensures TotalSize(SortGroups(Collect(entries))) == |entries|
  {
    var c := Collect(entries);
    CollectKeys(entries);
    assert Keys(SortGroups(c)) == Keys(c);
    DistinctOfFirstSeen(SortGroups(c), MonthKeys(entries));
    SortedSizes(c);
  }

  /** A group holds only bills of its own month, and all of them. */
  ghost predicate OwnMonthOnly(groups: seq<BillGroup>, entries: seq<BillEntry>)
  {
    forall i, e :: 0 <= i < |groups| ==> (e in groups[i].bills <==> e in entries && MonthKey(e) == groups[i].yearMonth)
  }

  /** Every bill is in some group of its own month. */
  ghost predicate EveryBillPlaced(groups: seq<BillGroup>, entries: seq<BillEntry>)
  {
    forall e :: e in entries ==> InMonthGroup(groups, e)
  }

  /** Every bill lands in the group of its own month, and a group holds
      only bills of its month; with DistinctKeys, each bill is in exactly
      one group. */
  lemma GroupMembers(entries: seq<BillEntry>)
    requires AllCanonical(entries)
    ensures OwnMonthOnly(SortGroups(Collect(entries)), entries)
    ensures EveryBillPlaced(SortGroups(Collect(entries)), entries)
  {
    CollectBills(entries);
    CollectKeys(entries);
    SortedOwnMonth(Collect(entries), entries);
    SortedEveryPlaced(Collect(entries), entries);
  }

  lemma SortedOwnMonth(c: seq<BillGroup>, entries: seq<BillEntry>)
    requires Holds(c, entries)
    ensures OwnMonthOnly(SortGroups(c), entries)
  {
    var g := SortGroups(c);
    SortGroupsSorted(c);
    forall i | 0 <= i < |g|
      ensures forall e :: e in g[i].bills <==> e in entries && MonthKey(e) == g[i].yearMonth
    {
      WithKeyMembers(entries, MonthKey, g[i].yearMonth);
      assert forall e :: e in g[i].bills <==> e in multiset(g[i].bills);
      assert forall e :: e in c[i].bills <==> e in multiset(c[i].bills);
    }
  }

  lemma SortedEveryPlaced(c: seq<BillGroup>, entries: seq<BillEntry>)
    requires Holds(c, entries) && Keys(c) == FirstSeen(MonthKeys(entries))
    ensures EveryBillPlaced(SortGroups(c), entries)
  {
    var g := SortGroups(c);
    SortGroupsSorted(c);
    forall e | e in entries ensures InMonthGroup(g, e) {
      var k :| 0 <= k < |entries| && entries[k] == e;
      assert MonthKeys(entries)[k] == MonthKey(e);
      assert MonthKey(e) in Keys(c);
      var i :| 0 <= i < |c| && Keys(c)[i] == MonthKey(e);
      WithKeyMembers(entries, MonthKey, MonthKey(e));
      assert e in multiset(g[i].bills);
    }
  }

  /** Each group's bills are its month's bills, newest first, and bills of
      the same date keep their input order. */
  lemma GroupOrder(entries: seq<BillEntry>)
    requires AllCanonical(entries)
    ensures var g := SortGroups(Collect(entries));
      && (forall i :: 0 <= i < |g| ==> DescendingBy(g[i].bills, DateKey))
      && (forall i :: 0 <= i < |g| ==> multiset(g[i].bills) == multiset(WithKey(entries, MonthKey, g[i].yearMonth)))
      && (forall i, d :: 0 <= i < |g| ==>
            WithKey(g[i].bills, DateKey, d) == WithKey(WithKey(entries, MonthKey, g[i].yearMonth), DateKey, d))
  {
    var c := Collect(entries);
    CollectBills(entries);
    SortGroupsSorted(c);
    forall i, d | 0 <= i < |c|
      ensures WithKey(SortGroups(c)[i].bills, DateKey, d) == WithKey(c[i].bills, DateKey, d)
    {
      SortDescendingStable(c[i].bills, DateKey, d);
    }
  }

  /** Every bill of a group carries the group's month name. */
  lemma GroupNames(entries: seq<BillEntry>)
    requires AllCanonical(entries)
    ensures var g := SortGroups(Collect(entries));
      forall i, e :: 0 <= i < |g| && e in g[i].bills ==> CanonicalDate(e.date) && MonthName(e.date) == g[i].monthName
  {
    CollectBills(entries);
    SortedNames(Collect(entries), entries);
  }

  lemma SortedNames(c: seq<BillGroup>, entries: seq<BillEntry>)
    requires AllCanonical(entries) && Holds(c, entries) && Named(c)
    ensures var g := SortGroups(c);
      forall i, e :: 0 <= i < |g| && e in g[i].bills ==> CanonicalDate(e.date) && MonthName(e.date) == g[i].monthName
  {
    var g := SortGroups(c);
    SortGroupsSorted(c);
    forall i, e | 0 <= i < |g| && e in g[i].bills ensures CanonicalDate(e.date) && MonthName(e.date) == g[i].monthName {
      var first := c[i].bills[0];
      WithKeyMembers(entries, MonthKey, c[i].yearMonth);
      assert first in c[i].bills;
      assert e in multiset(g[i].bills);
      assert e in c[i].bills;
      var k :| 0 <= k < |entries| && entries[k] == e;
      MonthNameOfYearMonth(e.date, first.date);
    }
  }

  lemma {:induction false} SortedSizes(groups: seq<BillGroup>)
    ensures TotalSize(SortGroups(groups)) == TotalSize(groups)
    decreases |groups|
  {
    if groups != [] {
      var n := |groups| - 1;
      SortedSizes(groups[..n]);
      assert SortGroups(groups)[..n] == SortGroups(groups[..n]);
    }
  }

  // ---------------------------------------------------------------------
  // generate_main_index (lines 191-213)

  function Identity(s: string): string
  {
    s
  }

  /** `sorted(bill_groups.keys(), reverse=True)`. */
  function SortedMonths(groups: seq<BillGroup>): (months: seq<string>)
    ensures |months| == |groups|
  {
    SortDescendingBy(Keys(groups), Identity)
  }

  /** `bill_groups[month]` for a month that is a key. */
  function Lookup(groups: seq<BillGroup>, month: string): (g: BillGroup)
    requires month in Keys(groups)
    ensures g in groups && g.yearMonth == month
  {
    groups[GroupIndex(groups, month)]
  }

  /** The number of months shown in full on the main page. */
  const RecentCount: nat := 3

  function Min(a: nat, b: nat): nat
  {
    if a <= b then a else b
  }

  /** One entry of `recent_bills`: a month name and that month's bills. */
  datatype RecentMonth = RecentMonth(monthName: string, bills: seq<BillEntry>)

  /** One entry of `archives`. */
  datatype Archive = Archive(yearMonth: string, monthName: string, count: nat)

  /** What the main template is rendered with, apart from the timestamp. */
  datatype MainIndex = MainIndex(recent: seq<RecentMonth>, archives: seq<Archive>, totalBills: nat)

  function BillCount(recent: seq<RecentMonth>): nat
    decreases |recent|
  {
    if recent == [] then 0 else BillCount(recent[..|recent| - 1]) + |recent[|recent| - 1].bills|
  }

  lemma BillCountSnoc(recent: seq<RecentMonth>, m: RecentMonth)
    ensures BillCount(recent + [m]) == BillCount(recent) + |m.bills|
  {
    assert (recent + [m])[..|recent|] == recent;
  }

  lemma SortedMonthsAreKeys(groups: seq<BillGroup>)
    ensures forall m :: m in SortedMonths(groups) <==> m in Keys(groups)
  {
    var months := SortedMonths(groups);
    SortDescendingSorted(Keys(groups), Identity);
    assert forall m :: m in months <==> m in multiset(months);
    assert forall m :: m in Keys(groups) <==> m in multiset(Keys(groups));
  }

  /** The first months of `months`, each with its group's name and bills. */
  predicate Shows(recent: seq<RecentMonth>, groups: seq<BillGroup>, months: seq<string>)
  {
    |recent| <= |months| &&
    forall k :: 0 <= k < |recent| ==> (months[k] in Keys(groups) &&
      recent[k] == RecentMonth(Lookup(groups, months[k]).monthName, Lookup(groups, months[k]).bills))
  }

  lemma ShowsSnoc(recent: seq<RecentMonth>, groups: seq<BillGroup>, months: seq<string>)
    requires Shows(recent, groups, months) && |recent| < |months| && months[|recent|] in Keys(groups)
    ensures var g := Lookup(groups, months[|recent|]);
      Shows(recent + [RecentMonth(g.monthName, g.bills)], groups, months)
  {
    var g := Lookup(groups, months[|recent|]);
    var r := recent + [RecentMonth(g.monthName, g.bills)];
    forall k | 0 <= k < |r| ensures months[k] in Keys(groups) &&
      r[k] == RecentMonth(Lookup(groups, months[k]).monthName, Lookup(groups, months[k]).bills)
    {
      if k < |recent| { assert r[k] == recent[k]; }
    }
  }

  method GenerateMainIndex(groups: seq<BillGroup>) returns (index: MainIndex)
    ensures var months := SortedMonths(groups);
      var n := Min(RecentCount, |months|);
      && |index.recent| == n
      && (forall i :: 0 <= i < n ==> (months[i] in Keys(groups) &&
            index.recent[i] == RecentMonth(Lookup(groups, months[i]).monthName, Lookup(groups, months[i]).bills)))
      && |index.archives| == |months| - n
      && (forall i :: 0 <= i < |months| - n ==> (months[n + i] in Keys(groups) &&
            index.archives[i] == Archive(months[n + i], Lookup(groups, months[n + i]).monthName, |Lookup(groups, months[n + i]).bills|)))
      && index.totalBills == BillCount(index.recent)
  {
    var months := SortDescendingBy(Keys(groups), Identity);
    SortedMonthsAreKeys(groups);
    var n := Min(RecentCount, |months|);
    var recentMonths, archiveMonths := months[..n], months[n..];
    var recent: seq<RecentMonth> := [];
    var total := 0;
    for i := 0 to |recentMonths|
      invariant |recent| == i
      invariant Shows(recent, groups, months)
      invariant total == BillCount(recent)
    {
      assert recentMonths[i] == months[i];
      var group := Lookup(groups, recentMonths[i]);
      BillCountSnoc(recent, RecentMonth(group.monthName, group.bills));
      ShowsSnoc(recent, groups, months);
      recent := recent + [RecentMonth(group.monthName, group.bills)];
      total := total + |group.bills|;
    }
    var archives := seq(|archiveMonths|, k requires 0 <= k < |archiveMonths| =>
      Archive(archiveMonths[k], Lookup(groups, archiveMonths[k]).monthName, |Lookup(groups, archiveMonths[k]).bills|));
    index := MainIndex(recent, archives, total);
  }

  /** The split of the months: recent and archive together are the sorted
      month list, hence exactly the group keys; recent holds min(3, k) of
      them; every recent month is at least every archive month; and, the
      keys of a dictionary being distinct, no month is in both. */
  lemma MonthSplit(groups: seq<BillGroup>)
    requires DistinctKeys(groups)
    ensures var months := SortedMonths(groups);
      var n := Min(RecentCount, |months|);
      && months[..n] + months[n..] == months
      && multiset(months) == multiset(Keys(groups))
      && (forall m :: m in Keys(groups) <==> m in months[..n] || m in months[n..])
      && (forall m :: m in months[..n] ==> m !in months[n..])
      && (forall i, j :: 0 <= i < n <= j < |months| ==> LessEq(months[j], months[i]))
  {
    var months := SortedMonths(groups);
    var n := Min(RecentCount, |months|);
    SortedMonthsAreKeys(groups);
    SortDescendingSorted(Keys(groups), Identity);
    assert Distinct(Keys(groups));
    DistinctPermutation(Keys(groups), months);
    Halves(months, n);
  }

  /** Cutting a list of distinct months in two. */
  lemma Halves(months: seq<string>, n: nat)
    requires n <= |months| && Distinct(months)
    ensures months[..n] + months[n..] == months
    ensures forall m :: m in months <==> m in months[..n] || m in months[n..]
    ensures forall m :: m in months[..n] ==> m !in months[n..]
  {
    assert months[..n] + months[n..] == months;
    forall m | m in months[..n] ensures m !in months[n..] {
      var i :| 0 <= i < n && months[..n][i] == m;
      forall j | 0 <= j < |months| - n ensures months[n..][j] != m {
        assert months[n..][j] == months[n + j] && months[..n][i] == months[i];
      }
    }
  }

  // ---------------------------------------------------------------------
  // generate_sitemap (lines 75-104)

  /** One `<url>` element: loc, lastmod, changefreq and priority. The
      lastmod text is whatever was assigned to it, which is written only
      when it is text. */
  datatype UrlEntry = UrlEntry(loc: string, lastmod: Json, changefreq: string, priority: string)

  function HomeUrl(today: string): UrlEntry
  {
    UrlEntry(BaseDomain, JStr(today), "daily", "1.0")
  }

  function MonthUrl(yearMonth: string, today: string): UrlEntry
  {
    UrlEntry(BaseDomain + "index-" + yearMonth + ".html", JStr(today), "weekly", "0.9")
  }

  /** The `<url>` element of one bill (lines 94-101): the slug needs
      legis_num, title and bill_version, in that order, and then the date is
      read; each missing key raises KeyError. */
  function BillUrl(bill: Record, slugOf: (Json, Json, Json) -> string): (r: Result<UrlEntry, SiteError>)
    ensures r.Ok? <==> "legis_num" in bill && "title" in bill && "bill_version" in bill && "date" in bill
    ensures r.Ok? ==> r.value.lastmod == bill["date"] && r.value.priority == "0.8"
                      && r.value.loc == BaseDomain + slugOf(bill["legis_num"], bill["title"], bill["bill_version"]) + ".html"
  {
    if "legis_num" !in bill then Err(MissingKey("legis_num"))
    else if "title" !in bill then Err(MissingKey("title"))
    else if "bill_version" !in bill then Err(MissingKey("bill_version"))
    else if "date" !in bill then Err(MissingKey("date"))
    else
      var slug := slugOf(bill["legis_num"], bill["title"], bill["bill_version"]);
      Ok(UrlEntry(BaseDomain + slug + ".html", bill["date"], "weekly", "0.8"))
  }

  /** ElementTree writes an element's text only when it is truthy, and a
      truthy text must be a string; a falsy one gives an empty element. */
  predicate Writable(u: UrlEntry)
  {
    u.lastmod.JStr? || Falsy(u.lastmod)
  }

  /** Builds the url elements in order (home page, month pages in
      dictionary order, bill pages in input order) and then writes them:
      a KeyError stops the build at the first bill that lacks a key, and a
      lastmod that is truthy but not text stops the write. `today` stands for
      `datetime.now().strftime("%Y-%m-%d")`. */
  method GenerateSitemap(bills: seq<Record>, groups: seq<BillGroup>, today: string, slugOf: (Json, Json, Json) -> string)
    returns (r: Result<seq<UrlEntry>, SiteError>)
    ensures r.Ok? <==> forall i :: 0 <= i < |bills| ==> BillUrl(bills[i], slugOf).Ok? && Writable(BillUrl(bills[i], slugOf).value)
    ensures (exists i :: 0 <= i < |bills| && BillUrl(bills[i], slugOf).Err?) ==>
              exists i :: 0 <= i < |bills| && BillUrl(bills[i], slugOf) == Err(r.error)
                          && forall k :: 0 <= k < i ==> BillUrl(bills[k], slugOf).Ok?
    ensures (forall i :: 0 <= i < |bills| ==> BillUrl(bills[i], slugOf).Ok?) && r.Err? ==>
              exists i :: 0 <= i < |bills| && r.error == CannotSerialize(bills[i]["date"])
                          && !bills[i]["date"].JStr? && !Falsy(bills[i]["date"])
    ensures r.Ok? ==> && |r.value| == 1 + |groups| + |bills|
                      && r.value[0] == HomeUrl(today)
                      && (forall i :: 0 <= i < |groups| ==> r.value[1 + i] == MonthUrl(groups[i].yearMonth, today))
                      && (forall i :: 0 <= i < |bills| ==> r.value[1 + |groups| + i] == BillUrl(bills[i], slugOf).value)
  {
    var urls := [HomeUrl(today)];
    for i := 0 to |groups|
      invariant |urls| == 1 + i && urls[0] == HomeUrl(today)
      invariant forall k :: 0 <= k < i ==> urls[1 + k] == MonthUrl(groups[k].yearMonth, today)
    {
      urls := urls + [MonthUrl(groups[i].yearMonth, today)];
    }
    for i := 0 to |bills|
      invariant |urls| == 1 + |groups| + i && urls[0] == HomeUrl(today)
      invariant forall k :: 0 <= k < |groups| ==> urls[1 + k] == MonthUrl(groups[k].yearMonth, today)
      invariant forall k :: 0 <= k < i ==> BillUrl(bills[k], slugOf).Ok? && urls[1 + |groups| + k] == BillUrl(bills[k], slugOf).value
    {
      var u := BillUrl(bills[i], slugOf);
      if u.Err? {
        return Err(u.error);
      }
      urls := urls + [u.value];
    }
    for i := 0 to |urls|
      invariant forall k :: 0 <= k < i ==> Writable(urls[k])
    {
      if i > 0 && i < 1 + |groups| {
        assert urls[1 + (i - 1)] == MonthUrl(groups[i - 1].yearMonth, today);
      }
      if !Writable(urls[i]) {
        var j := i - 1 - |groups|;
        assert urls[1 + |groups| + j] == BillUrl(bills[j], slugOf).value;
        return Err(CannotSerialize(urls[i].lastmod));
      }
    }
    forall j | 0 <= j < |bills| ensures Writable(BillUrl(bills[j], slugOf).value) {
      assert urls[1 + |groups| + j] == BillUrl(bills[j], slugOf).value;
    }
    r := Ok(urls);
  }

  /** A bill whose date is null still gets a url element, written with an
      empty lastmod; a date of 1 cannot be written. */
  lemma NullDateWritten(bill: Record, slugOf: (Json, Json, Json) -> string)
    requires "legis_num" in bill && "title" in bill && "bill_version" in bill && "date" in bill
    ensures bill["date"] == JNull ==> BillUrl(bill, slugOf).Ok? && Writable(BillUrl(bill, slugOf).value)
    ensures bill["date"] == JNum(1.0) ==> BillUrl(bill, slugOf).Ok? && !Writable(BillUrl(bill, slugOf).value)
  {
  }

  /** The month page locations are distinct when the month keys are, and
      none of them is the home page. */
  lemma MonthUrlsDistinct(groups: seq<BillGroup>, today: string)
    requires DistinctKeys(groups)
    ensures forall i, j :: 0 <= i < j < |groups| ==> MonthUrl(groups[i].yearMonth, today).loc != MonthUrl(groups[j].yearMonth, today).loc
    ensures forall i :: 0 <= i < |groups| ==> MonthUrl(groups[i].yearMonth, today).loc != HomeUrl(today).loc
  {
    forall i, j | 0 <= i < j < |groups|
      ensures MonthUrl(groups[i].yearMonth, today).loc != MonthUrl(groups[j].yearMonth, today).loc
    {
      var a, b := groups[i].yearMonth, groups[j].yearMonth;
      var p := BaseDomain + "index-";
      var la, lb := p + a + ".html", p + b + ".html";
      assert MonthUrl(a, today).loc == la && MonthUrl(b, today).loc == lb;
      assert la[|p|..|la| - 5] == a && lb[|p|..|lb| - 5] == b;
    }
  }

  // ---------------------------------------------------------------------
  // generate_index_json (lines 267-282)

  /** The keys popped from every bill and every section. */
  const TextFields: set<string> := {"text", "html", "markdown"}

  function JsonUrl(slug: string): string
  {
    BaseDomain + slug + ".json"
  }

  /** The three `pop(key, None)` calls on one dictionary. */
  function WithoutText(d: Record): (r: Record)
    ensures r.Keys == d.Keys - TextFields
    ensures forall k :: k in r ==> r[k] == d[k]
  {
    d - TextFields
  }

  /** Lines 279-282 on the value of `bill.get("sections", [])`: a list of
      dictionaries loses the text fields of each; iterating an empty
      dictionary or string does nothing; the elements of a non-empty
      dictionary or string are strings, which have no `pop`; other values
      cannot be iterated. */
  function StripSections(v: Json): (r: Result<Json, SiteError>)
    ensures r.Ok? <==> (v.JArr? && forall i :: 0 <= i < |v.items| ==> v.items[i].JObj?)
                       || v == JObj(map[]) || v == JStr("")
    ensures r.Ok? && v.JArr? ==> (r.value.JArr? && |r.value.items| == |v.items|
              && forall i :: 0 <= i < |v.items| ==> r.value.items[i] == JObj(WithoutText(v.items[i].fields)))
    ensures r.Ok? && !v.JArr? ==> r.value == v
    ensures v.JArr? && r.Err? ==> exists i :: 0 <= i < |v.items| && !v.items[i].JObj? && r.error == NotADict(v.items[i])
                                    && forall k :: 0 <= k < i ==> v.items[k].JObj?
  {
    match v
    case JArr(items) => StripItemsResult(items); StripItems(items)
    case JObj(m) => if m == map[] then Ok(v) else Err(NotADict(v))
    case JStr(str) => if str == "" then Ok(v) else Err(NotADict(v))
    case _ => Err(NotIterable(v))
  }

  function StripItems(items: seq<Json>): Result<Json, SiteError>
    decreases |items|
  {
    if items == [] then Ok(JArr([]))
    else
      var n := |items| - 1;
      match StripItems(items[..n])
      case Err(e) => Err(e)
      case Ok(done) =>
        if items[n].JObj? then Ok(JArr(done.items + [JObj(WithoutText(items[n].fields))]))
        else Err(NotADict(items[n]))
  }

  /** The list succeeds exactly when every section is a dictionary, each
      then losing its text fields; otherwise the first section that is not
      a dictionary is reported. */
  lemma {:induction false} StripItemsResult(items: seq<Json>)
    ensures var r := StripItems(items);
      && (r.Ok? <==> forall i :: 0 <= i < |items| ==> items[i].JObj?)
      && (r.Ok? ==> (r.value.JArr? && |r.value.items| == |items|
            && forall i :: 0 <= i < |items| ==> r.value.items[i] == JObj(WithoutText(items[i].fields))))
      && (r.Err? ==> exists i :: (0 <= i < |items| && !items[i].JObj? && r.error == NotADict(items[i])
            && forall k :: 0 <= k < i ==> items[k].JObj?))
    decreases |items|
  {
    if items != [] {
      var n := |items| - 1;
      var init := items[..n];
      StripItemsResult(init);
      assert forall i :: 0 <= i < n ==> items[i] == init[i];
      if StripItems(init).Err? {
        var i :| 0 <= i < n && !init[i].JObj? && StripItems(init).error == NotADict(init[i])
            && forall k :: 0 <= k < i ==> init[k].JObj?;
        assert !items[i].JObj?;
      } else if !items[n].JObj? {
        assert StripItems(items).error == NotADict(items[n]);
      }
    }
  }

  /** One record of index.json: the slug and json_url added, the text
      fields removed from the bill and from its sections. */
  function IndexRecord(bill: Record, slugOf: (Json, Json, Json) -> string): (r: Result<Record, SiteError>)
    ensures r.Ok? <==> "legis_num" in bill && "title" in bill && "bill_version" in bill
                       && ("sections" in bill ==> StripSections(bill["sections"]).Ok?)
  {
    if "legis_num" !in bill then Err(MissingKey("legis_num"))
    else if "title" !in bill then Err(MissingKey("title"))
    else if "bill_version" !in bill then Err(MissingKey("bill_version"))
    else
      var slug := slugOf(bill["legis_num"], bill["title"], bill["bill_version"]);
      var b := WithoutText(bill["slug" := JStr(slug)]["json_url" := JStr(JsonUrl(slug))]);
      if "sections" !in bill then Ok(b)
      else
        match StripSections(bill["sections"])
        case Err(e) => Err(e)
        case Ok(v) => Ok(b["sections" := v])
  }

  /** The slug and json_url are there, no text field is left, and every
      other key keeps its value. */
  lemma IndexRecordFields(bill: Record, slugOf: (Json, Json, Json) -> string)
    requires IndexRecord(bill, slugOf).Ok?
    ensures var r := IndexRecord(bill, slugOf).value;
      var slug := slugOf(bill["legis_num"], bill["title"], bill["bill_version"]);
      && r.Keys == (bill.Keys - TextFields) + {"slug", "json_url"}
      && r["slug"] == JStr(slug) && r["json_url"] == JStr(JsonUrl(slug))
      && (forall k :: k in r && k !in {"slug", "json_url", "sections"} ==> r[k] == bill[k])
  {
  }

  /** No section keeps a text field, and the other keys of each section keep
      their values. */
  lemma IndexRecordSections(bill: Record, slugOf: (Json, Json, Json) -> string)
    requires IndexRecord(bill, slugOf).Ok? && "sections" in bill
    ensures var r := IndexRecord(bill, slugOf).value;
      && "sections" in r
      && (bill["sections"].JArr? ==>
            && r["sections"].JArr? && |r["sections"].items| == |bill["sections"].items|
            && forall i :: 0 <= i < |bill["sections"].items| ==>
                 && r["sections"].items[i].JObj?
                 && r["sections"].items[i].fields.Keys == bill["sections"].items[i].fields.Keys - TextFields
                 && forall k :: k in r["sections"].items[i].fields ==>
                      r["sections"].items[i].fields[k] == bill["sections"].items[i].fields[k])
      && (!bill["sections"].JArr? ==> r["sections"] == bill["sections"])
  {
  }

  /** Stripping a stripped record again changes nothing. */
  lemma IndexRecordIdempotent(bill: Record, slugOf: (Json, Json, Json) -> string)
    requires IndexRecord(bill, slugOf).Ok?
    ensures IndexRecord(IndexRecord(bill, slugOf).value, slugOf) == IndexRecord(bill, slugOf)
  {
    var r := IndexRecord(bill, slugOf).value;
    var slug := slugOf(bill["legis_num"], bill["title"], bill["bill_version"]);
    assert r["legis_num"] == bill["legis_num"] && r["title"] == bill["title"] && r["bill_version"] == bill["bill_version"];
    var b := WithoutText(r["slug" := JStr(slug)]["json_url" := JStr(JsonUrl(slug))]);
    if "sections" in bill {
      var v := StripSections(bill["sections"]).value;
      assert r["sections"] == v;
      StripSectionsIdempotent(bill["sections"]);
      assert b["sections" := v] == r;
    } else {
      assert b == r;
    }
  }

  lemma StripSectionsIdempotent(v: Json)
    requires StripSections(v).Ok?
    ensures StripSections(StripSections(v).value) == StripSections(v)
  {
    var u := StripSections(v).value;
    if v.JArr? {
      var w := StripSections(u).value;
      forall i | 0 <= i < |u.items| ensures w.items[i] == u.items[i] {
        var m := v.items[i].fields;
        assert WithoutText(WithoutText(m)) == WithoutText(m);
      }
      assert w.items == u.items;
    }
  }

  /** The loop of lines 279-282 over a list of sections. */
  method StripSectionList(items: seq<Json>) returns (r: Result<Json, SiteError>)
    ensures r == StripItems(items)
  {
    var done: seq<Json> := [];
    for i := 0 to |items|
      invariant StripItems(items[..i]) == Ok(JArr(done))
    {
      assert items[..i + 1][..i] == items[..i];
      if !items[i].JObj? {
        assert StripItems(items[..i + 1]).Err?;
        StripItemsPrefix(items, i + 1);
        return Err(NotADict(items[i]));
      }
      done := done + [JObj(WithoutText(items[i].fields))];
    }
    assert items[..|items|] == items;
    r := Ok(JArr(done));
  }

  /** A failure in a prefix of the sections is the failure of the whole list. */
  lemma {:induction false} StripItemsPrefix(items: seq<Json>, n: nat)
    requires n <= |items| && StripItems(items[..n]).Err?
    ensures StripItems(items) == StripItems(items[..n])
    decreases |items| - n
  {
    if n < |items| {
      var m := |items| - 1;
      assert items[..m][..n] == items[..n];
      StripItemsPrefix(items[..m], n);
      assert StripItems(items[..m]).Err?;
      assert StripItems(items) == StripItems(items[..m]);
    } else {
      assert items[..n] == items;
    }
  }

  /** Lines 270-282 for one bill. */
  method StripRecord(bill: Record, slugOf: (Json, Json, Json) -> string) returns (r: Result<Record, SiteError>)
    ensures r == IndexRecord(bill, slugOf)
  {
    if "legis_num" !in bill { return Err(MissingKey("legis_num")); }
    if "title" !in bill { return Err(MissingKey("title")); }
    if "bill_version" !in bill { return Err(MissingKey("bill_version")); }
    var record := bill;
    var slug := slugOf(bill["legis_num"], bill["title"], bill["bill_version"]);
    record := record["slug" := JStr(slug)];
    record := record["json_url" := JStr(JsonUrl(slug))];
    record := record - {"text"};
    record := record - {"html"};
    record := record - {"markdown"};
    assert record == WithoutText(bill["slug" := JStr(slug)]["json_url" := JStr(JsonUrl(slug))]);
    var sections := Get(bill, "sections", JArr([]));
    if sections.JArr? {
      var stripped := StripSectionList(sections.items);
      if stripped.Err? { return Err(stripped.error); }
      if "sections" in bill { record := record["sections" := stripped.value]; }
    } else {
      var outcome := StripSections(sections);
      if outcome.Err? { return Err(outcome.error); }
      assert record["sections" := sections] == record;
    }
    r := Ok(record);
  }

  /** The loop of lines 268-282: the records of index.json, or the error of
      the first bill that raises. */
  method GenerateIndexJson(bills: seq<Record>, slugOf: (Json, Json, Json) -> string)
    returns (r: Result<seq<Record>, SiteError>)
    ensures r.Ok? <==> forall i :: 0 <= i < |bills| ==> IndexRecord(bills[i], slugOf).Ok?
    ensures r.Ok? ==> |r.value| == |bills| && forall i :: 0 <= i < |bills| ==> r.value[i] == IndexRecord(bills[i], slugOf).value
    ensures r.Err? ==> exists i :: 0 <= i < |bills| && IndexRecord(bills[i], slugOf) == Err(r.error)
                        && forall k :: 0 <= k < i ==> IndexRecord(bills[k], slugOf).Ok?
  {
    var output: seq<Record> := [];
    for i := 0 to |bills|
      invariant |output| == i
      invariant forall k :: 0 <= k < i ==> IndexRecord(bills[k], slugOf) == Ok(output[k])
    {
      var record := StripRecord(bills[i], slugOf);
      if record.Err? { return Err(record.error); }
      output := output + [record.value];
    }
    r := Ok(output);
  }

  // ---------------------------------------------------------------------
  // generate_robots_txt (lines 288-306)

  /** robots.txt line by line: every agent, the sitemap address, and an
      empty Disallow that allows everything. */
  const RobotsLines: seq<string> := ["User-Agent: *", "Sitemap: " + BaseDomain + "sitemap.xml", "Disallow:"]

  /** The buffer grown by lines 296-302. */
  method RobotsTxt() returns (buffer: string)
    ensures buffer == Join(RobotsLines, "\n")
  {
    buffer := "User-Agent: *";
    buffer := buffer + "\nSitemap: " + BaseDomain + "sitemap.xml";
    buffer := buffer + "\nDisallow:";
    assert Join(RobotsLines[1..], "\n") == RobotsLines[1] + "\n" + RobotsLines[2] by {
      assert RobotsLines[1..][1..] == [RobotsLines[2]];
    }
  }

  /** Read back line by line, the file gives the three lines. */
  lemma RobotsLinesRoundTrip()
    ensures Split(Join(RobotsLines, "\n"), "\n") == RobotsLines
  {
    RobotsLinesAreLines();
    SplitJoinChar(RobotsLines, '\n');
  }

  lemma RobotsLinesAreLines()
    ensures forall i :: 0 <= i < |RobotsLines| ==> '\n' !in RobotsLines[i]
  {
    var host := "https://usbills.ai/";
    assert '\n' !in host;
    assert '\n' !in "Sitemap: " + host + "sitemap.xml";
    assert '\n' !in RobotsLines[0] && '\n' !in RobotsLines[2];
  }
}
