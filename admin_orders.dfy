/** The dashboard's order list: the order in which `fetchOrders` sorts the rows (fulfilment date,
    then time window), the status filter, the manual total override and the local removal after
    a delete (app/admin/page.tsx). */
module AdminOrders {
  import opened Wrappers
  import opened Text
  import opened Seqs
  import opened OrderRecords

  // ---------------------------------------------------------------------------------------
  // `getTimeVal`: the first `(\d{1,2})(?::(\d{2}))?\s*(am|pm|AM|PM)?` match, in minutes
  // ---------------------------------------------------------------------------------------

  /** What `getTimeVal` returns when the window is empty or holds no digit. */
  const NoTime: int := 9999

  datatype Meridiem = Am | Pm | NoMeridiem

  /** Where the leftmost match starts: the first digit, or `|t|` when there is none. */
  function FirstDigit(t: string): (p: nat)
    ensures p <= |t|
    ensures p < |t| ==> IsDigit(t[p])
    ensures forall i :: 0 <= i < p ==> !IsDigit(t[i])
  {
    if t == [] then 0
    else if IsDigit(t[0]) then 0
    else 1 + FirstDigit(t[1..])
  }

  /** The end of `\d{1,2}` starting at digit `p` (greedy: two digits when there are two). */
  function HourEnd(t: string, p: nat): (q: nat)
    requires p < |t| && IsDigit(t[p])
    ensures p < q <= p + 2 && q <= |t| && AllDigits(t[p..q])
  {
    if p + 1 < |t| && IsDigit(t[p + 1]) then p + 2 else p + 1
  }

  /** The optional `:\d{2}` at `q`: it is taken when it is there. */
  predicate HasMinutes(t: string, q: nat) {
    q + 3 <= |t| && t[q] == ':' && IsDigit(t[q + 1]) && IsDigit(t[q + 2])
  }

  /** The two digits of a `:\d{2}` at `q`, read as a number. */
  function Minutes(t: string, q: nat): (m: nat)
    requires HasMinutes(t, q)
    ensures m < 100
  {
    assert AllDigits(t[q + 1..q + 3]);
    ParseDigitsShort(t[q + 1..q + 3]);
    ParseDigits(t[q + 1..q + 3])
  }

  /** The end of `\s*` starting at `r`. */
  function SkipSpaces(t: string, r: nat): (e: nat)
    requires r <= |t|
    ensures r <= e <= |t|
    ensures forall i :: r <= i < e ==> IsSpace(t[i])
    ensures e < |t| ==> !IsSpace(t[e])
    decreases |t| - r
  {
    if r < |t| && IsSpace(t[r]) then SkipSpaces(t, r + 1) else r
  }

  /** The optional `(am|pm|AM|PM)` at `e` (case-sensitive: `Am` or `pM` is no meridiem). */
  function MeridiemAt(t: string, e: nat): Meridiem
    requires e <= |t|
  {
    if e + 2 <= |t| && (t[e..e + 2] == "am" || t[e..e + 2] == "AM") then Am
    else if e + 2 <= |t| && (t[e..e + 2] == "pm" || t[e..e + 2] == "PM") then Pm
    else NoMeridiem
  }

  /** The hour `h` read under meridiem `mer`: pm adds 12 below 12, 12 am is hour 0. */
  function AdjustHour(h: nat, mer: Meridiem): nat {
    if mer == Pm && h < 12 then h + 12
    else if mer == Am && h == 12 then 0
    else h
  }

  /** `getTimeVal(t)`: minutes since midnight of the first time written in `t`, or 9999 when
      `t` is empty or holds no digit, so that windows without a time sort last. */
  function TimeValue(t: string): (v: int)
    ensures v == NoTime <==> forall i :: 0 <= i < |t| ==> !IsDigit(t[i])
    ensures v != NoTime ==> 0 <= v <= 99 * 60 + 99
  {
    var p := FirstDigit(t);
    if p == |t| then NoTime else ClockValue(t, p)
  }

  /** The match that starts at digit `p`: the hour adjusted by the meridiem after the spaces,
      times 60, plus the minutes (0 when there are none). */
  function ClockValue(t: string, p: nat): (v: int)
    requires p < |t| && IsDigit(t[p])
    ensures 0 <= v <= 99 * 60 + 99
  {
    var q := HourEnd(t, p);
    ParseDigitsShort(t[p..q]);
    AdjustHour(ParseDigits(t[p..q]), MeridiemAt(t, SkipSpaces(t, MinutesEnd(t, q)))) * 60
    + MinutesValue(t, q)
  }

  /** Where the optional `:\d{2}` after the hour ends. */
  function MinutesEnd(t: string, q: nat): (r: nat)
    requires q <= |t|
    ensures r <= |t|
  {
    if HasMinutes(t, q) then q + 3 else q
  }

  /** The minutes after the hour, 0 when they are not written. */
  function MinutesValue(t: string, q: nat): (m: nat)
    ensures m < 100
  {
    if HasMinutes(t, q) then Minutes(t, q) else 0
  }

  /** The usual twelve-hour reading of `h` o'clock: 12 am is 0, 12 pm is 12. */
  function TwentyFourHour(h: nat, pm: bool): nat
    requires 1 <= h <= 12
  {
    (h % 12) + (if pm then 12 else 0)
  }

  /** The parts `getTimeVal`'s pattern picks out of a string: text without digits, one or two
      hour digits (a single one not followed by another digit), optionally a colon and two
      minute digits, a run of spaces, and the rest, which does not start with a space. */
  predicate TimeParts(pre: string, hs: string, mins: string, ws: string, rest: string) {
    && (forall i :: 0 <= i < |pre| ==> !IsDigit(pre[i]))
    && AllDigits(hs) && 1 <= |hs| <= 2
    && (mins == [] || (|mins| == 3 && mins[0] == ':' && AllDigits(mins[1..])))
    && (forall i :: 0 <= i < |ws| ==> IsSpace(ws[i]))
    && (rest == [] || !IsSpace(rest[0]))
    && (|hs| == 1 && mins == [] && ws == [] && rest != [] ==> !IsDigit(rest[0]))
    && (mins == [] && ws == [] ==> !HasMinutes(rest, 0))
  }

  /** `t` is `pre + hs + mins + ws + rest`, stated slice by slice. */
  predicate SlicesOf(t: string, pre: string, hs: string, mins: string, ws: string, rest: string) {
    && |t| == |pre| + |hs| + |mins| + |ws| + |rest|
    && t[..|pre|] == pre
    && t[|pre|..|pre| + |hs|] == hs
    && t[|pre| + |hs|..] == mins + ws + rest
    && t[|pre| + |hs| + |mins|..] == ws + rest
    && t[|pre| + |hs| + |mins| + |ws|..] == rest
  }

  /** Where each part sits inside `pre + hs + mins + ws + rest`. */
  lemma PartsAt(t: string, pre: string, hs: string, mins: string, ws: string, rest: string)
    requires t == pre + hs + mins + ws + rest
    ensures SlicesOf(t, pre, hs, mins, ws, rest)
  {
    assert t == pre + (hs + (mins + (ws + rest)));
  }

  /** `TimeValue` read part by part: the hour adjusted by the meridiem that `rest` starts with,
      if any, times 60, plus the minutes when they are there. */
  lemma TimeValueOfParts(t: string, pre: string, hs: string, mins: string, ws: string, rest: string)
    requires TimeParts(pre, hs, mins, ws, rest)
    requires t == pre + hs + mins + ws + rest
    ensures TimeValue(t) == AdjustHour(ParseDigits(hs), MeridiemAt(rest, 0)) * 60
                            + (if mins == [] then 0 else ParseDigits(mins[1..]))
  {
    PartsAt(t, pre, hs, mins, ws, rest);
    var p, q, e, m, r, mer := StepsOfSlices(t, pre, hs, mins, ws, rest);
    TimeValueAt(t, p, q, e, hs, m, r, mer);
  }

  /** What each step of `TimeValue` finds: the first digit at `p`, the hour digits `hs` ending
      at `q`, the minutes `m` (0 when none) ending at `r`, the spaces ending at `e` and the
      meridiem `mer` there. */
  predicate StepsAt(t: string, p: nat, q: nat, e: nat, hs: string, m: nat, r: nat, mer: Meridiem) {
    && p < q <= |t| && FirstDigit(t) == p && HourEnd(t, p) == q && t[p..q] == hs
    && MinutesEnd(t, q) == r && MinutesValue(t, q) == m
    && SkipSpaces(t, r) == e && MeridiemAt(t, e) == mer
  }

  /** Each step of `TimeValue` stops where the parts say it does. */
  lemma StepsOfSlices(t: string, pre: string, hs: string, mins: string, ws: string, rest: string)
    returns (p: nat, q: nat, e: nat, m: nat, r: nat, mer: Meridiem)
    requires TimeParts(pre, hs, mins, ws, rest) && SlicesOf(t, pre, hs, mins, ws, rest)
    ensures m == if mins == [] then 0 else ParseDigits(mins[1..])
    ensures mer == MeridiemAt(rest, 0)
    ensures StepsAt(t, p, q, e, hs, m, r, mer)
  {
    p, q := HourAt(t, pre, hs, mins, ws, rest);
    r, e, mer := q + |mins|, q + |mins| + |ws|, MeridiemAt(rest, 0);
    m := TailAt(t, pre, hs, mins, ws, rest);
    MeridiemShift(t, e, rest);
  }

  /** The hour digits are the first digits of `t`, and the hour ends where they do. */
  lemma HourAt(t: string, pre: string, hs: string, mins: string, ws: string, rest: string)
    returns (p: nat, q: nat)
    requires TimeParts(pre, hs, mins, ws, rest) && SlicesOf(t, pre, hs, mins, ws, rest)
    ensures p == |pre| && q == |pre| + |hs| && p < q <= |t| && t[p..q] == hs
    ensures FirstDigit(t) == p && HourEnd(t, p) == q
  {
    p, q := |pre|, |pre| + |hs|;
    var after := mins + ws + rest;
    FirstDigitAt(t, |pre|, pre, hs);
    if after != [] {
      if mins != [] {
        assert after[0] == mins[0];
      } else if ws != [] {
        assert after[0] == ws[0];
      } else {
        assert after[0] == rest[0];
      }
    }
    HourEndAt(t, |pre|, hs, after);
  }

  /** After the hour: the minutes when they are there, then the run of spaces. */
  lemma TailAt(t: string, pre: string, hs: string, mins: string, ws: string, rest: string)
    returns (m: nat)
    requires TimeParts(pre, hs, mins, ws, rest) && SlicesOf(t, pre, hs, mins, ws, rest)
    ensures m == if mins == [] then 0 else ParseDigits(mins[1..])
    ensures MinutesEnd(t, |pre| + |hs|) == |pre| + |hs| + |mins|
    ensures MinutesValue(t, |pre| + |hs|) == m
    ensures SkipSpaces(t, |pre| + |hs| + |mins|) == |pre| + |hs| + |mins| + |ws|
  {
    m := if mins == [] then 0 else ParseDigits(mins[1..]);
    var q := |pre| + |hs|;
    MinutesAt(t, q, mins, ws, rest);
    SkipSpacesAt(t, q + |mins|, ws, rest);
  }

  /** The first digit is the one after a digit-free prefix. */
  lemma FirstDigitAt(t: string, p: nat, pre: string, hs: string)
    requires forall i :: 0 <= i < |pre| ==> !IsDigit(pre[i])
    requires AllDigits(hs) && 1 <= |hs|
    requires p == |pre| && p + |hs| <= |t| && t[..p] == pre && t[p..p + |hs|] == hs
    ensures FirstDigit(t) == p
  {
    assert t[p] == hs[0];
    assert forall i :: 0 <= i < p ==> t[i] == pre[i];
  }

  /** The hour ends after `hs` when what follows it does not begin with a further digit. */
  lemma HourEndAt(t: string, p: nat, hs: string, after: string)
    requires AllDigits(hs) && 1 <= |hs| <= 2
    requires p + |hs| <= |t| && t[p..p + |hs|] == hs && t[p + |hs|..] == after
    requires |hs| == 1 && after != [] ==> !IsDigit(after[0])
    ensures HourEnd(t, p) == p + |hs|
  {
    assert t[p] == hs[0];
    if |hs| == 2 {
      assert t[p + 1] == hs[1];
    } else if p + 1 < |t| {
      assert t[p + 1] == after[0];
    }
  }

  /** Minutes are read exactly when the colon and two digits are there. */
  lemma MinutesAt(t: string, q: nat, mins: string, ws: string, rest: string)
    requires mins == [] || (|mins| == 3 && mins[0] == ':' && AllDigits(mins[1..]))
    requires forall i :: 0 <= i < |ws| ==> IsSpace(ws[i])
    requires mins == [] && ws == [] ==> !HasMinutes(rest, 0)
    requires q <= |t| && t[q..] == mins + ws + rest
    ensures HasMinutes(t, q) <==> mins != []
    ensures mins != [] ==> Minutes(t, q) == ParseDigits(mins[1..])
  {
    var after := mins + ws + rest;
    if mins != [] {
      assert mins[1] == mins[1..][0] && mins[2] == mins[1..][1];
      assert t[q..q + 3] == after[0..3] == mins;
      assert t[q + 1..q + 3] == mins[1..];
    } else if ws != [] {
      assert t[q] == after[0] == ws[0];
    } else if q + 3 <= |t| {
      assert t[q..q + 3] == rest[0..3];
    }
  }

  /** The spaces skipped are exactly the run that a non-space, or the end, closes. */
  lemma SkipSpacesAt(t: string, r: nat, ws: string, rest: string)
    requires forall i :: 0 <= i < |ws| ==> IsSpace(ws[i])
    requires rest == [] || !IsSpace(rest[0])
    requires r <= |t| && t[r..] == ws + rest
    ensures SkipSpaces(t, r) == r + |ws|
  {
    var after := ws + rest;
    assert forall i :: r <= i < r + |ws| ==> t[i] == after[i - r] == ws[i - r];
    assert r + |ws| < |t| ==> t[r + |ws|] == after[|ws|] == rest[0];
  }

  /** `TimeValue` once the position of each of its steps is known. */
  lemma TimeValueAt(t: string, p: nat, q: nat, e: nat, hs: string, m: nat, r: nat, mer: Meridiem)
    requires StepsAt(t, p, q, e, hs, m, r, mer)
    ensures TimeValue(t) == AdjustHour(ParseDigits(hs), mer) * 60 + m
  {
    ClockValueAt(t, p, q, e, hs, m, r, mer);
  }

  /** `ClockValue` once the position of each of its steps is known. */
  lemma ClockValueAt(t: string, p: nat, q: nat, e: nat, hs: string, m: nat, r: nat, mer: Meridiem)
    requires p < q <= |t| && IsDigit(t[p]) && HourEnd(t, p) == q && t[p..q] == hs
    requires MinutesEnd(t, q) == r && MinutesValue(t, q) == m
    requires SkipSpaces(t, r) == e && MeridiemAt(t, e) == mer
    ensures ClockValue(t, p) == AdjustHour(ParseDigits(hs), mer) * 60 + m
  {
  }

  /** The meridiem looked up at position `e` is the one at the start of what follows `e`. */
  lemma MeridiemShift(t: string, e: nat, rest: string)
    requires e <= |t| && t[e..] == rest
    ensures MeridiemAt(t, e) == MeridiemAt(rest, 0)
  {
    if e + 2 <= |t| {
      assert t[e..e + 2] == rest[0..2];
    }
  }

  /** A string laid out as hour digits, a colon, two minute digits, one space and a two-letter
      suffix reads as the hour adjusted by the suffix, plus the minutes. */
  lemma TimeValueOfLayout(t: string, hs: string, ms: string, suffix: string)
    requires AllDigits(hs) && 1 <= |hs| <= 2 && AllDigits(ms) && |ms| == 2
    requires |suffix| == 2 && !IsSpace(suffix[0])
    requires t == hs + ":" + ms + " " + suffix
    ensures TimeValue(t) == AdjustHour(ParseDigits(hs), MeridiemAt(suffix, 0)) * 60 + ParseDigits(ms)
  {
    var mins := ":" + ms;
    assert mins[1..] == ms;
    assert TimeParts([], hs, mins, " ", suffix);
    LayoutRegrouped(hs, ms, suffix);
    TimeValueOfParts(t, [], hs, mins, " ", suffix);
  }

  /** `hs:ms suffix` regrouped into the parts of `TimeValueOfParts`. */
  lemma LayoutRegrouped(hs: string, ms: string, suffix: string)
    ensures hs + ":" + ms + " " + suffix == [] + hs + (":" + ms) + " " + suffix
  {
    assert hs + ":" + ms == hs + (":" + ms);
  }

  /** A time written `h:mm am` or `h:mm pm` reads as its minutes since midnight. */
  lemma TimeValueOfClockTime(h: nat, m: nat, pm: bool)
    requires 1 <= h <= 12 && m < 60
    ensures TimeValue(Decimal(h) + ":" + Pad2(m) + " " + (if pm then "pm" else "am"))
            == TwentyFourHour(h, pm) * 60 + m
  {
    var hs, ms := Decimal(h), Pad2(m);
    var suffix := if pm then "pm" else "am";
    DigitCountRanges(h);
    TimeValueOfLayout(hs + ":" + ms + " " + suffix, hs, ms, suffix);
    SuffixMeridiem(pm);
    AdjustHourTwelve(h, pm);
  }

  /** `AdjustHour` agrees with the usual twelve-hour reading on hours 1 to 12. */
  lemma AdjustHourTwelve(h: nat, pm: bool)
    requires 1 <= h <= 12
    ensures AdjustHour(h, if pm then Pm else Am) == TwentyFourHour(h, pm)
  {
  }

  lemma SuffixMeridiem(pm: bool)
    ensures MeridiemAt(if pm then "pm" else "am", 0) == (if pm then Pm else Am)
  {
    var suffix := if pm then "pm" else "am";
    assert suffix[0..2] == suffix;
  }

  /** The checkout's morning window "10AM - 12PM" reads as 10:00. */
  lemma MorningWindow()
    ensures TimeValue("10AM - 12PM") == 600
  {
    var a := "10AM - 12PM";
    assert FirstDigit(a) == 0 && HourEnd(a, 0) == 2 && a[0..2] == "10";
    assert ParseDigits("10") == 10 by { assert "10"[..1] == "1"; }
    assert !HasMinutes(a, 2) && SkipSpaces(a, 2) == 2 && a[2..4] == "AM";
  }

  /** The checkout's afternoon window "1PM - 4PM" reads as 13:00. */
  lemma AfternoonWindow()
    ensures TimeValue("1PM - 4PM") == 780
  {
    var b := "1PM - 4PM";
    assert FirstDigit(b) == 0 && HourEnd(b, 0) == 1 && b[0..1] == "1";
    assert !HasMinutes(b, 1) && SkipSpaces(b, 1) == 1 && b[1..3] == "PM";
  }

  // ---------------------------------------------------------------------------------------
  // The sort comparator of `fetchOrders` and the stable sort it drives
  // ---------------------------------------------------------------------------------------

  /** The date an order sorts under: its fulfilment date, or "9999-12-31" when it has none. */
  function DateKey(o: Order): string {
    if o.customer.date == "" then "9999-12-31" else o.customer.date
  }

  function TimeKey(o: Order): int {
    TimeValue(o.customer.timeWindow)
  }

  /** The comparator: earlier date first (`localeCompare`), then earlier time window. */
  function Compare(a: Order, b: Order): int {
    if DateKey(a) != DateKey(b) then (if StrLess(DateKey(a), DateKey(b)) then -1 else 1)
    else TimeKey(a) - TimeKey(b)
  }

  /** `a` strictly precedes `b`: earlier date, or the same date and an earlier window. */
  predicate Before(a: Order, b: Order) {
    StrLess(DateKey(a), DateKey(b)) || (DateKey(a) == DateKey(b) && TimeKey(a) < TimeKey(b))
  }

  predicate SameKey(a: Order, b: Order) {
    DateKey(a) == DateKey(b) && TimeKey(a) == TimeKey(b)
  }

  /** The comparator's sign is the order `Before`: negative when `a` goes first, zero exactly
      when the two share date and window, positive when `b` goes first. */
  lemma CompareSign(a: Order, b: Order)
    ensures Compare(a, b) < 0 <==> Before(a, b)
    ensures Compare(a, b) == 0 <==> SameKey(a, b)
    ensures Compare(a, b) > 0 <==> Before(b, a)
  {
    StrLessAsymmetric(DateKey(a), DateKey(b));
    StrLessTotal(DateKey(a), DateKey(b));
  }

  lemma BeforeTransitive(a: Order, b: Order, c: Order)
    requires !Before(b, a) && !Before(c, b)
    ensures !Before(c, a)
  {
    StrLessTotal(DateKey(a), DateKey(b));
    StrLessTotal(DateKey(b), DateKey(c));
    StrLessIrreflexive(DateKey(a));
    if StrLess(DateKey(c), DateKey(a)) {
      if StrLess(DateKey(a), DateKey(b)) {
        StrLessTransitive(DateKey(c), DateKey(a), DateKey(b));
        if StrLess(DateKey(b), DateKey(c)) {
          StrLessTransitive(DateKey(c), DateKey(b), DateKey(c));
          StrLessIrreflexive(DateKey(c));
        }
      } else if StrLess(DateKey(b), DateKey(c)) {
        StrLessTransitive(DateKey(b), DateKey(c), DateKey(a));
      }
    }
  }

  /** Inserting `x` into a sorted list the way a stable sort does: before the first element
      it does not come after. */
  function Insert(x: Order, t: seq<Order>): (r: seq<Order>)
    ensures multiset(r) == multiset(t) + multiset{x}
  {
    if t == [] || Compare(x, t[0]) <= 0 then [x] + t
    else
      assert t == [t[0]] + t[1..];
      [t[0]] + Insert(x, t[1..])
  }

  /** `Array.prototype.sort` with the comparator: stable, so orders that compare equal keep the
      order the database returned them in (newest `createdAt` first). */
  function SortOrders(s: seq<Order>): (r: seq<Order>)
    ensures multiset(r) == multiset(s)
  {
    if s == [] then []
    else
      assert s == [s[0]] + s[1..];
      Insert(s[0], SortOrders(s[1..]))
  }

  predicate Sorted(s: seq<Order>) {
    forall i, j :: 0 <= i < j < |s| ==> !Before(s[j], s[i])
  }

  lemma {:induction false} InsertSorted(x: Order, t: seq<Order>)
    requires Sorted(t)
    ensures Sorted(Insert(x, t))
  {
    if t == [] || Compare(x, t[0]) <= 0 {
      InsertFrontSorted(x, t);
    } else {
      InsertSorted(x, t[1..]);
      InsertLaterSorted(x, t);
    }
  }

  /** An order that does not compare after the head goes in front and keeps the list sorted. */
  lemma InsertFrontSorted(x: Order, t: seq<Order>)
    requires Sorted(t)
    requires t == [] || Compare(x, t[0]) <= 0
    ensures Sorted([x] + t)
  {
    var r := [x] + t;
    CompareSign(x, if t == [] then x else t[0]);
    forall j | 0 < j < |r| ensures !Before(r[j], r[0]) {
      assert r[j] == t[j - 1];
      if j > 1 { BeforeTransitive(x, t[0], t[j - 1]); }
    }
  }

  /** An order that compares after the head goes behind it, into the sorted tail. */
  lemma InsertLaterSorted(x: Order, t: seq<Order>)
    requires Sorted(t) && t != [] && Compare(x, t[0]) > 0
    requires Sorted(Insert(x, t[1..]))
    ensures Sorted([t[0]] + Insert(x, t[1..]))
  {
    var rest := Insert(x, t[1..]);
    var r := [t[0]] + rest;
    CompareSign(x, t[0]);
    forall j | 0 < j < |r| ensures !Before(r[j], r[0]) {
      assert r[j] == rest[j - 1];
      assert r[j] in multiset(rest);
      assert r[j] in multiset(t[1..]) + multiset{x};
      if r[j] != x {
        assert r[j] in t[1..];
        var k :| 1 <= k < |t| && t[k] == r[j];
      } else {
        StrLessAsymmetric(DateKey(t[0]), DateKey(x));
      }
    }
  }

  /** The sorted list is in comparator order. */
  lemma {:induction false} SortOrdersSorted(s: seq<Order>)
    ensures Sorted(SortOrders(s))
  {
    if s != [] {
      SortOrdersSorted(s[1..]);
      InsertSorted(s[0], SortOrders(s[1..]));
    }
  }

  /** The orders that share one date and window, in list order. */
  function WithKey(s: seq<Order>, date: string, time: int): seq<Order> {
    if s == [] then []
    else (if DateKey(s[0]) == date && TimeKey(s[0]) == time then [s[0]] else []) + WithKey(s[1..], date, time)
  }

  lemma {:induction false} WithKeyCons(x: Order, t: seq<Order>, date: string, time: int)
    ensures WithKey([x] + t, date, time)
            == (if DateKey(x) == date && TimeKey(x) == time then [x] else []) + WithKey(t, date, time)
  {
    assert ([x] + t)[0] == x && ([x] + t)[1..] == t;
  }

  lemma {:induction false} InsertStable(x: Order, t: seq<Order>, date: string, time: int)
    ensures WithKey(Insert(x, t), date, time)
            == (if DateKey(x) == date && TimeKey(x) == time then [x] else []) + WithKey(t, date, time)
  {
    if t == [] || Compare(x, t[0]) <= 0 {
      WithKeyCons(x, t, date, time);
    } else {
      CompareSign(x, t[0]);
      StrLessIrreflexive(DateKey(x));
      InsertStable(x, t[1..], date, time);
      WithKeyCons(t[0], Insert(x, t[1..]), date, time);
      WithKeyCons(t[0], t[1..], date, time);
      assert t == [t[0]] + t[1..];
    }
  }

  /** Stability: the orders sharing a date and window come out in the order they went in. */
  lemma {:induction false} SortOrdersStable(s: seq<Order>, date: string, time: int)
    ensures WithKey(SortOrders(s), date, time) == WithKey(s, date, time)
  {
    if s != [] {
      SortOrdersStable(s[1..], date, time);
      InsertStable(s[0], SortOrders(s[1..]), date, time);
      WithKeyCons(s[0], s[1..], date, time);
      assert s == [s[0]] + s[1..];
    }
  }

  // ---------------------------------------------------------------------------------------
  // `filteredOrders`
  // ---------------------------------------------------------------------------------------

  /** `orders.filter(order => orderFilter === 'All' || order.status === orderFilter)`. */
  function FilterByStatus(orders: seq<Order>, filter: string): (r: seq<Order>)
    ensures filter == "All" ==> r == orders
    ensures forall o: Order :: multiset(r)[o] == if filter == "All" || o.status == filter then multiset(orders)[o] else 0
    ensures forall i :: 0 <= i < |r| ==> filter == "All" || r[i].status == filter
    ensures IsSubsequence(r, orders)
  {
    var keep := (o: Order) => filter == "All" || o.status == filter;
    if filter == "All" then
      FilterKeepsAll(keep, orders);
      Filter(keep, orders)
    else
      var r := Filter(keep, orders);
      assert forall i :: 0 <= i < |r| ==> r[i] in r;
      r
  }

  // ---------------------------------------------------------------------------------------
  // `deleteOrder`, after the delete succeeded
  // ---------------------------------------------------------------------------------------

  /** `prev.filter(order => order.id !== id)`: every order with that id is gone, every other
      order stays, in the same order. */
  function RemoveOrder(orders: seq<Order>, id: int): (r: seq<Order>)
    ensures forall i :: 0 <= i < |r| ==> r[i].id != id
    ensures forall o: Order :: o.id != id ==> multiset(r)[o] == multiset(orders)[o]
    ensures IsSubsequence(r, orders)
  {
    var r := Filter((o: Order) => o.id != id, orders);
    assert forall i :: 0 <= i < |r| ==> r[i] in r;
    r
  }

  // ---------------------------------------------------------------------------------------
  // `updateOrderTotal`: the bookkeeping of a manually set total
  // ---------------------------------------------------------------------------------------

  /** The total an override is measured against: the recorded original, or, on the first
      override of an order not yet marked manual, its current total. */
  function Baseline(c: Customer, currentTotal: real): Option<real> {
    if c.originalTotal.Some? then c.originalTotal
    else if !c.isManualDiscount then Some(currentTotal)
    else None
  }

  /** The stored customer record shows an override consistently: an original total is only
      kept while the total is marked manual, and it differs from the total in force. */
  predicate OverrideConsistent(finalTotal: real, c: Customer) {
    c.originalTotal.Some? ==> c.isManualDiscount && c.originalTotal.value != finalTotal
  }

  /** The update `updateOrderTotal` writes: the new final total and the customer record with
      `isManualDiscount` and `originalTotal` adjusted. Setting the total back to its baseline
      clears the override; any other total marks it manual and keeps the baseline as the
      original. Nothing else in the customer record changes. */
  function UpdateOrderTotal(newTotal: real, c: Customer, currentTotal: real): (r: (real, Customer))
    ensures r.0 == newTotal
    ensures r.1 == c.(isManualDiscount := r.1.isManualDiscount, originalTotal := r.1.originalTotal)
    ensures Baseline(c, currentTotal) == Some(newTotal) ==> !r.1.isManualDiscount && r.1.originalTotal == None
    ensures Baseline(c, currentTotal) != Some(newTotal) ==>
              r.1.isManualDiscount && r.1.originalTotal == Baseline(c, currentTotal)
    ensures OverrideConsistent(r.0, r.1)
  {
    var original := Baseline(c, currentTotal);
    if original.Some? && newTotal == original.value then
      (newTotal, c.(isManualDiscount := false, originalTotal := None))
    else
      (newTotal, c.(isManualDiscount := true, originalTotal := original))
  }

  /** Overriding a total and then setting it back to what it was restores the record, now
      explicitly marked as not manual. */
  lemma OverrideThenRevert(c: Customer, total: real, x: real)
    requires !c.isManualDiscount && c.originalTotal == None
    ensures var (t1, c1) := UpdateOrderTotal(x, c, total);
            UpdateOrderTotal(total, c1, t1) == (total, c)
  {
  }

  /** Successive overrides keep the total from before the first one as the original. */
  lemma OriginalSurvivesOverrides(c: Customer, total: real, x: real, y: real)
    requires !c.isManualDiscount && c.originalTotal == None
    requires x != total && y != total
    ensures var (t1, c1) := UpdateOrderTotal(x, c, total);
            var (t2, c2) := UpdateOrderTotal(y, c1, t1);
            t2 == y && c2.isManualDiscount && c2.originalTotal == Some(total)
  {
  }
}
