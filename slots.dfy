/** The slot pipeline of `loadSlots` in frontend/src/components/Calendar.jsx:
    field resolution through alias lists, defaulting and numeric coercion,
    grouping by weekday, sorting each group by start time, and the count. */
module Slots {
  import opened Text
  import opened JsValue
  import opened Weekday
  import opened Wrappers

  /** A normalised slot, with the fields `loadSlots` builds. */
  datatype Slot = Slot(
    id: Scalar,
    dayOfWeek: string,
    groupType: Scalar,
    startTime: Scalar,
    endTime: Scalar,
    priceCents: int,
    capacity: int)

  // ---------------------------------------------------------------------
  // Field resolution

  /** Alias `names[i]` is the first one under which `obj` holds a value that
      is neither `null` nor `undefined`. */
  ghost predicate FirstPresentAt(obj: Element, names: seq<string>, i: int) {
    0 <= i < |names| && Present(Prop(obj, names[i]))
    && forall j :: 0 <= j < i ==> !Present(Prop(obj, names[j]))
  }

  /** `getField(obj, names, fallback)`: the value under the first alias that
      is present, or the fallback when none is. (A falsy `obj` has no
      properties, so the `obj &&` guard needs no case of its own.) */
  function GetField(obj: Element, names: seq<string>, fallback: Scalar): (r: Scalar)
    ensures (forall i :: 0 <= i < |names| ==> !Present(Prop(obj, names[i]))) ==> r == fallback
    ensures forall i :: FirstPresentAt(obj, names, i) ==> r == Prop(obj, names[i])
    ensures Present(fallback) ==> Present(r)
  {
    if names == [] then fallback
    else if Present(Prop(obj, names[0])) then Prop(obj, names[0])
    else
      assert forall i :: FirstPresentAt(obj, names, i) ==> FirstPresentAt(obj, names[1..], i - 1);
      GetField(obj, names[1..], fallback)
  }

  const IdAliases: seq<string> := ["id", "slot_id", "slotId"]
  const DayAliases: seq<string> := ["day_of_week", "dayOfWeek", "weekday"]
  const GroupTypeAliases: seq<string> := ["group_type", "groupType"]
  const StartAliases: seq<string> := ["start_time", "startTime"]
  const EndAliases: seq<string> := ["end_time", "endTime"]
  const PriceAliases: seq<string> := ["price_cents", "price"]
  const CapacityAliases: seq<string> := ["capacity"]

  /** The per-record normalisation inside `loadSlots`. The text fields are
      never `null` or `undefined`, and the weekday is already in the normal
      form `normalizeDay` gives. */
  function NormalizeSlot(e: Element): (r: Slot)
    ensures Present(r.groupType) && Present(r.startTime) && Present(r.endTime)
    ensures NormalizeDay(Str(r.dayOfWeek)) == r.dayOfWeek
  {
    NormalizeDayIdempotent(GetField(e, DayAliases, Str("")));
    Slot(
      GetField(e, IdAliases, Undefined),
      NormalizeDay(GetField(e, DayAliases, Str(""))),
      GetField(e, GroupTypeAliases, Str("")),
      GetField(e, StartAliases, Str("")),
      GetField(e, EndAliases, Str("")),
      NumberOrZero(GetField(e, PriceAliases, Num(0))),
      NumberOrZero(GetField(e, CapacityAliases, Num(0))))
  }

  /** `(Array.isArray(data) ? data : []).map(...)`. */
  function NormalizeSlots(body: Body): (r: seq<Slot>)
    ensures !body.ArrayBody? ==> r == []
    ensures body.ArrayBody? ==> |r| == |body.elems| && forall i :: 0 <= i < |r| ==> r[i] == NormalizeSlot(body.elems[i])
  {
    var items := if body.ArrayBody? then body.elems else [];
    seq(|items|, i requires 0 <= i < |items| => NormalizeSlot(items[i]))
  }

  /** `price_cents` comes from `price_cents`, else from `price`. It is 0 when
      neither alias holds a value or the value read is not a number; a
      number, negative ones included, is kept as it is, and a numeric string
      gives its value. */
  lemma NormalizeSlotPrice(e: Element)
    ensures !Present(Prop(e, "price_cents")) && !Present(Prop(e, "price")) ==> NormalizeSlot(e).priceCents == 0
    ensures Prop(e, "price_cents").Num? ==> NormalizeSlot(e).priceCents == Prop(e, "price_cents").n
    ensures !Present(Prop(e, "price_cents")) && Prop(e, "price").Num? ==> NormalizeSlot(e).priceCents == Prop(e, "price").n
    ensures Prop(e, "price_cents").Str? ==>
      NormalizeSlot(e).priceCents == match ParseNumber(Prop(e, "price_cents").s) { case Some(n) => n case None => 0 }
    ensures !Present(Prop(e, "price_cents")) && Prop(e, "price").Str? ==>
      NormalizeSlot(e).priceCents == match ParseNumber(Prop(e, "price").s) { case Some(n) => n case None => 0 }
  {
    assert PriceAliases[0] == "price_cents" && PriceAliases[1] == "price";
    var v := GetField(e, PriceAliases, Num(0));
    assert NormalizeSlot(e).priceCents == NumberOrZero(v);
    if Present(Prop(e, "price_cents")) {
      assert FirstPresentAt(e, PriceAliases, 0);
      assert v == Prop(e, "price_cents");
    } else if Present(Prop(e, "price")) {
      assert FirstPresentAt(e, PriceAliases, 1);
      assert v == Prop(e, "price");
    } else {
      assert v == Num(0);
    }
  }

  /** `capacity` is 0 when absent or not a number, and otherwise kept. */
  lemma NormalizeSlotCapacity(e: Element)
    ensures !Present(Prop(e, "capacity")) ==> NormalizeSlot(e).capacity == 0
    ensures Prop(e, "capacity").Num? ==> NormalizeSlot(e).capacity == Prop(e, "capacity").n
    ensures Prop(e, "capacity").Str? ==> NormalizeSlot(e).capacity == match ParseNumber(Prop(e, "capacity").s) { case Some(n) => n case None => 0 }
  {
    if Present(Prop(e, "capacity")) {
      assert FirstPresentAt(e, CapacityAliases, 0);
    }
  }

  /** The record `{day: "Tues", startTime: "09:00", price: 1500}`. */
  function DayAliasRecord(): Element {
    Record(map["day" := Str("Tues"), "startTime" := Str("09:00"), "price" := Num(1500)])
  }

  lemma DayAliasRecordKeys()
    ensures GetField(DayAliasRecord(), IdAliases, Undefined) == Undefined
    ensures GetField(DayAliasRecord(), DayAliases, Str("")) == Str("")
  {
  }

  lemma DayAliasRecordText()
    ensures GetField(DayAliasRecord(), GroupTypeAliases, Str("")) == Str("")
    ensures GetField(DayAliasRecord(), StartAliases, Str("")) == Str("09:00")
  {
  }

  lemma DayAliasRecordNumbers()
    ensures GetField(DayAliasRecord(), EndAliases, Str("")) == Str("")
    ensures GetField(DayAliasRecord(), PriceAliases, Num(0)) == Num(1500)
    ensures GetField(DayAliasRecord(), CapacityAliases, Num(0)) == Num(0)
  {
  }

  /** `day` is not one of the day aliases, so this record has no weekday and
      lands in the "(unknown)" group; the camel-case start time and the
      `price` alias are picked up, and the missing capacity becomes 0. */
  lemma DayAliasExample()
    ensures NormalizeSlot(DayAliasRecord()) == Slot(Undefined, "", Str(""), Str("09:00"), Str(""), 1500, 0)
    ensures GroupKey(NormalizeSlot(DayAliasRecord())) == "(unknown)"
  {
    DayAliasRecordKeys();
    DayAliasRecordText();
    DayAliasRecordNumbers();
  }

  /** The record `{dayOfWeek: " TUES ", start_time: "09:00", price_cents: "1500"}`. */
  function DayOfWeekRecord(): Element {
    Record(map["dayOfWeek" := Str(" TUES "), "start_time" := Str("09:00"), "price_cents" := Str("1500")])
  }

  lemma DayOfWeekRecordKeys()
    ensures GetField(DayOfWeekRecord(), IdAliases, Undefined) == Undefined
    ensures GetField(DayOfWeekRecord(), DayAliases, Str("")) == Str(" TUES ")
  {
  }

  lemma DayOfWeekRecordText()
    ensures GetField(DayOfWeekRecord(), GroupTypeAliases, Str("")) == Str("")
    ensures GetField(DayOfWeekRecord(), StartAliases, Str("")) == Str("09:00")
  {
  }

  lemma DayOfWeekRecordNumbers()
    ensures GetField(DayOfWeekRecord(), EndAliases, Str("")) == Str("")
    ensures GetField(DayOfWeekRecord(), PriceAliases, Num(0)) == Str("1500")
    ensures GetField(DayOfWeekRecord(), CapacityAliases, Num(0)) == Num(0)
  {
  }

  lemma TuesKey()
    ensures NormalizeDay(Str(" TUES ")) == "Tuesday"
  {
    assert TrimStart(" TUES ") == "TUES ";
    assert TrimEnd("TUES ") == "TUES";
    assert ToLower("TUES") == "tues";
  }

  lemma DecimalFifteenHundred()
    ensures Decimal(1500) == "1500"
  {
    assert Digits(1) == "1";
    assert Digits(15) == "15";
    assert Digits(150) == "150";
  }

  lemma ParseFifteenHundred()
    ensures ParseNumber("1500") == Some(1500)
  {
    DecimalFifteenHundred();
    ParseNumberOfDecimal(1500);
  }

  /** Through the `dayOfWeek` alias a padded, upper-case abbreviation is
      canonicalised, and a numeric string price is read as a number. */
  lemma DayOfWeekExample()
    ensures NormalizeSlot(DayOfWeekRecord()) == Slot(Undefined, "Tuesday", Str(""), Str("09:00"), Str(""), 1500, 0)
  {
    DayOfWeekRecordKeys();
    DayOfWeekRecordText();
    DayOfWeekRecordNumbers();
    TuesKey();
    ParseFifteenHundred();
  }

  // ---------------------------------------------------------------------
  // Grouping

  /** `s.day_of_week || "(unknown)"`. */
  function GroupKey(s: Slot): (r: string)
    ensures r != ""
    ensures s.dayOfWeek != "" ==> r == s.dayOfWeek
    ensures s.dayOfWeek == "" ==> r == "(unknown)"
  {
    if s.dayOfWeek != "" then s.dayOfWeek else "(unknown)"
  }

  /** The sort key `String(s.start_time || "")`: a string start time is its
      own key, and a missing one sorts as "". */
  function StartKey(s: Slot): (r: string)
    ensures s.startTime.Str? ==> r == s.startTime.s
    ensures !Present(s.startTime) ==> r == ""
  {
    if Truthy(s.startTime) then ToJsString(s.startTime) else ""
  }

  /** The elements of `s` whose `key` is `t`, in their order in `s`. */
  function Having(s: seq<Slot>, key: Slot -> string, t: string): (r: seq<Slot>)
    ensures |r| <= |s|
  {
    if s == [] then [] else (if key(s[0]) == t then [s[0]] else []) + Having(s[1..], key, t)
  }

  lemma {:induction false} HavingAppend(a: seq<Slot>, b: seq<Slot>, key: Slot -> string, t: string)
    ensures Having(a + b, key, t) == Having(a, key, t) + Having(b, key, t)
  {
    if a != [] {
      var head := if key(a[0]) == t then [a[0]] else [];
      assert (a + b)[0] == a[0];
      assert (a + b)[1..] == a[1..] + b;
      HavingAppend(a[1..], b, key, t);
      calc {
        Having(a + b, key, t);
        head + Having(a[1..] + b, key, t);
        head + (Having(a[1..], key, t) + Having(b, key, t));
        (head + Having(a[1..], key, t)) + Having(b, key, t);
        Having(a, key, t) + Having(b, key, t);
      }
    } else {
      assert a + b == b;
    }
  }

  /** `Having` keeps exactly the elements with the key asked for. */
  lemma {:induction false} HavingMembers(s: seq<Slot>, key: Slot -> string, t: string)
    ensures forall x :: x in Having(s, key, t) <==> x in s && key(x) == t
  {
    if s != [] {
      HavingMembers(s[1..], key, t);
      assert s == [s[0]] + s[1..];
    }
  }

  /** The group keys that occur in `ss`: `Object.keys(grouped)` as a set. */
  function KeysOf(ss: seq<Slot>): set<string> {
    set x | x in ss :: GroupKey(x)
  }

  // ---------------------------------------------------------------------
  // Sorting

  predicate SortedByStart(s: seq<Slot>) {
    forall i, j :: 0 <= i < j < |s| ==> LexLe(StartKey(s[i]), StartKey(s[j]))
  }

  /** Puts `x` after every element of `s` whose key is not greater. */
  function InsertByStart(x: Slot, s: seq<Slot>): seq<Slot> {
    if s == [] then [x]
    else if !LexLe(StartKey(s[0]), StartKey(x)) then [x] + s
    else [s[0]] + InsertByStart(x, s[1..])
  }

  /** The order `Array.prototype.sort` gives with the `localeCompare` comparator
      on start keys: sorted, and stable. It rearranges the slots, losing and
      adding none. */
  function SortByStart(s: seq<Slot>): (r: seq<Slot>)
    ensures |r| == |s|
  {
    if s == [] then []
    else
      InsertByStartMultiset(s[|s| - 1], SortByStart(s[..|s| - 1]));
      assert |multiset(InsertByStart(s[|s| - 1], SortByStart(s[..|s| - 1])))| == |s|;
      InsertByStart(s[|s| - 1], SortByStart(s[..|s| - 1]))
  }

  lemma {:induction false} InsertByStartMultiset(x: Slot, s: seq<Slot>)
    ensures multiset(InsertByStart(x, s)) == multiset(s) + multiset{x}
  {
    if s != [] && LexLe(StartKey(s[0]), StartKey(x)) {
      var r := InsertByStart(x, s[1..]);
      assert InsertByStart(x, s) == [s[0]] + r;
      assert multiset(r) == multiset(s[1..]) + multiset{x} by {
        InsertByStartMultiset(x, s[1..]);
      }
      assert multiset(s) == multiset{s[0]} + multiset(s[1..]) by {
        assert s == [s[0]] + s[1..];
      }
    }
  }

  /** A key no greater than every key of a sorted sequence can go in front. */
  lemma SortedCons(x: Slot, s: seq<Slot>)
    requires SortedByStart(s)
    requires forall j :: 0 <= j < |s| ==> LexLe(StartKey(x), StartKey(s[j]))
    ensures SortedByStart([x] + s)
  {
    var r := [x] + s;
    forall a, b | 0 <= a < b < |r|
      ensures LexLe(StartKey(r[a]), StartKey(r[b]))
    {
      assert r[b] == s[b - 1];
      if a > 0 {
        assert r[a] == s[a - 1];
      }
    }
  }

  lemma {:induction false} InsertByStartMembers(x: Slot, s: seq<Slot>)
    ensures forall y :: y in InsertByStart(x, s) <==> y in s || y == x
  {
    if s != [] && LexLe(StartKey(s[0]), StartKey(x)) {
      InsertByStartMembers(x, s[1..]);
      assert s == [s[0]] + s[1..];
    }
  }

  lemma {:induction false} InsertByStartSorted(x: Slot, s: seq<Slot>)
    requires SortedByStart(s)
    ensures SortedByStart(InsertByStart(x, s))
  {
    if s == [] {
    } else if !LexLe(StartKey(s[0]), StartKey(x)) {
      LexLeTotal(StartKey(s[0]), StartKey(x));
      forall j | 0 <= j < |s|
        ensures LexLe(StartKey(x), StartKey(s[j]))
      {
        if j > 0 {
          LexLeTrans(StartKey(x), StartKey(s[0]), StartKey(s[j]));
        }
      }
      SortedCons(x, s);
    } else {
      var rest := InsertByStart(x, s[1..]);
      assert SortedByStart(s[1..]);
      InsertByStartSorted(x, s[1..]);
      InsertByStartMembers(x, s[1..]);
      forall j | 0 <= j < |rest|
        ensures LexLe(StartKey(s[0]), StartKey(rest[j]))
      {
        assert rest[j] in rest;
        if rest[j] != x {
          var k :| 0 <= k < |s[1..]| && s[1..][k] == rest[j];
          assert s[k + 1] == rest[j];
        }
      }
      SortedCons(s[0], rest);
    }
  }

  /** In a sorted sequence whose first key is greater than `t`, no key is `t`. */
  lemma AllAbove(s: seq<Slot>, t: string)
    requires SortedByStart(s) && s != [] && !LexLe(StartKey(s[0]), t)
    ensures forall j :: 0 <= j < |s| ==> StartKey(s[j]) != t
  {
    LexLeRefl(t);
    forall j | 0 <= j < |s|
      ensures StartKey(s[j]) != t
    {
      if j > 0 {
        assert LexLe(StartKey(s[0]), StartKey(s[j]));
      }
    }
  }

  /** Inserting `x` into a sorted sequence adds it after every element with
      the same key. */
  lemma {:induction false} InsertByStartStable(x: Slot, s: seq<Slot>, t: string)
    requires SortedByStart(s)
    ensures Having(InsertByStart(x, s), StartKey, t) == Having(s, StartKey, t) + (if StartKey(x) == t then [x] else [])
  {
    var own := if StartKey(x) == t then [x] else [];
    if s == [] {
    } else if !LexLe(StartKey(s[0]), StartKey(x)) {
      assert InsertByStart(x, s) == [x] + s;
      HavingCons(x, s, StartKey, t);
      if StartKey(x) == t {
        AllAbove(s, t);
        NoneHaving(s, t);
      }
    } else {
      var rest := InsertByStart(x, s[1..]);
      var head := if StartKey(s[0]) == t then [s[0]] else [];
      assert InsertByStart(x, s) == [s[0]] + rest;
      assert Having(rest, StartKey, t) == Having(s[1..], StartKey, t) + own by {
        assert SortedByStart(s[1..]);
        InsertByStartStable(x, s[1..], t);
      }
      assert Having([s[0]] + rest, StartKey, t) == head + Having(rest, StartKey, t) by {
        HavingCons(s[0], rest, StartKey, t);
      }
      assert Having(s, StartKey, t) == head + Having(s[1..], StartKey, t) by {
        HavingCons(s[0], s[1..], StartKey, t);
        assert [s[0]] + s[1..] == s;
      }
    }
  }

  lemma HavingCons(y: Slot, r: seq<Slot>, key: Slot -> string, t: string)
    ensures Having([y] + r, key, t) == (if key(y) == t then [y] else []) + Having(r, key, t)
  {
    assert ([y] + r)[0] == y;
    assert ([y] + r)[1..] == r;
  }

  lemma {:induction false} NoneHaving(s: seq<Slot>, t: string)
    requires forall j :: 0 <= j < |s| ==> StartKey(s[j]) != t
    ensures Having(s, StartKey, t) == []
  {
    if s != [] {
      NoneHaving(s[1..], t);
    }
  }

  /** The sort returns a sorted permutation of its input in which slots with
      equal start keys keep their input order. */
  lemma {:induction false} SortByStartCorrect(s: seq<Slot>)
    ensures SortedByStart(SortByStart(s))
    ensures multiset(SortByStart(s)) == multiset(s)
    ensures forall t :: Having(SortByStart(s), StartKey, t) == Having(s, StartKey, t)
  {
    SortByStartSorted(s);
    SortByStartPermutes(s);
    forall t
      ensures Having(SortByStart(s), StartKey, t) == Having(s, StartKey, t)
    {
      SortByStartStable(s, t);
    }
  }

  lemma {:induction false} SortByStartSorted(s: seq<Slot>)
    ensures SortedByStart(SortByStart(s))
  {
    if s != [] {
      SortByStartSorted(s[..|s| - 1]);
      InsertByStartSorted(s[|s| - 1], SortByStart(s[..|s| - 1]));
    }
  }

  lemma {:induction false} SortByStartPermutes(s: seq<Slot>)
    ensures multiset(SortByStart(s)) == multiset(s)
  {
    if s != [] {
      var init, x := s[..|s| - 1], s[|s| - 1];
      var r := SortByStart(init);
      assert multiset(r) == multiset(init) by {
        SortByStartPermutes(init);
      }
      assert multiset(InsertByStart(x, r)) == multiset(r) + multiset{x} by {
        InsertByStartMultiset(x, r);
      }
      assert multiset(s) == multiset(init) + multiset{x} by {
        assert s == init + [x];
      }
    }
  }

  lemma {:induction false} SortByStartStable(s: seq<Slot>, t: string)
    ensures Having(SortByStart(s), StartKey, t) == Having(s, StartKey, t)
  {
    if s != [] {
      var init, x := s[..|s| - 1], s[|s| - 1];
      SortByStartStable(init, t);
      SortByStartSorted(init);
      InsertByStartStable(x, SortByStart(init), t);
      HavingAppend(init, [x], StartKey, t);
      assert s == init + [x];
    }
  }

  // ---------------------------------------------------------------------
  // The grouped result

  /** `slotsByWeekday` as the loops leave it: one entry per group key that
      occurs, holding that group's slots sorted by start key. */
  function GroupedSpec(ss: seq<Slot>): (r: map<string, seq<Slot>>)
    ensures r.Keys == KeysOf(ss)
    ensures forall k :: k in r ==> |r[k]| == |Having(ss, GroupKey, k)|
  {
    map k | k in KeysOf(ss) :: SortByStart(Having(ss, GroupKey, k))
  }

  /** Grouping is a partition: every slot lands in the group keyed by its
      weekday (or "(unknown)"), and a group holds only slots with its key. */
  lemma GroupedPartition(ss: seq<Slot>)
    ensures forall i :: 0 <= i < |ss| ==> GroupKey(ss[i]) in GroupedSpec(ss) && ss[i] in GroupedSpec(ss)[GroupKey(ss[i])]
    ensures forall k, x :: k in GroupedSpec(ss) && x in GroupedSpec(ss)[k] ==> GroupKey(x) == k
    ensures forall k :: k in GroupedSpec(ss) ==> |GroupedSpec(ss)[k]| > 0
  {
    var g := GroupedSpec(ss);
    forall k | k in g
      ensures multiset(g[k]) == multiset(Having(ss, GroupKey, k))
      ensures forall x :: x in g[k] <==> x in ss && GroupKey(x) == k
    {
      SortByStartCorrect(Having(ss, GroupKey, k));
      HavingMembers(ss, GroupKey, k);
      forall x
        ensures x in g[k] <==> x in Having(ss, GroupKey, k)
      {
        assert x in g[k] <==> x in multiset(g[k]);
        assert x in Having(ss, GroupKey, k) <==> x in multiset(Having(ss, GroupKey, k));
      }
    }
    forall i | 0 <= i < |ss|
      ensures GroupKey(ss[i]) in g && ss[i] in g[GroupKey(ss[i])]
    {
      assert GroupKey(ss[i]) in KeysOf(ss);
    }
    forall k | k in g
      ensures |g[k]| > 0
    {
      var x :| x in ss && GroupKey(x) == k;
      assert x in g[k];
    }
  }

  /** Each group is non-decreasing in start time and keeps input order among
      equal start times. */
  lemma GroupedSortedStable(ss: seq<Slot>, k: string)
    requires k in GroupedSpec(ss)
    ensures SortedByStart(GroupedSpec(ss)[k])
    ensures forall t :: Having(GroupedSpec(ss)[k], StartKey, t) == Having(Having(ss, GroupKey, k), StartKey, t)
  {
    SortByStartCorrect(Having(ss, GroupKey, k));
  }

  // ---------------------------------------------------------------------
  // The loops of loadSlots

  predicate Distinct(order: seq<string>) {
    forall a, b :: 0 <= a < b < |order| ==> order[a] != order[b]
  }

  /** `Object.values(grouped).reduce((n, arr) => n + arr.length, 0)`, over the
      keys in `order`. */
  function SumSizes(order: seq<string>, g: map<string, seq<Slot>>): nat {
    if order == [] then 0 else SumSizes(order[..|order| - 1], g) + Size(g, order[|order| - 1])
  }

  /** The length of group `k`, 0 when there is none. */
  function Size(g: map<string, seq<Slot>>, k: string): nat {
    if k in g then |g[k]| else 0
  }

  lemma {:induction false} SumSizesUpdate(order: seq<string>, g: map<string, seq<Slot>>, k: string, v: seq<Slot>)
    requires Distinct(order)
    ensures SumSizes(order, g[k := v]) == SumSizes(order, g) + (if k in order then |v| - Size(g, k) else 0)
  {
    if order != [] {
      var init := order[..|order| - 1];
      SumSizesUpdate(init, g, k, v);
      assert k in order <==> k in init || k == order[|order| - 1];
    }
  }


  /** `g` holds the groups of `prefix`: one per key that occurs, with that
      key's slots in order. */
  ghost predicate GroupsOf(prefix: seq<Slot>, g: map<string, seq<Slot>>) {
    forall k :: (k in g <==> Having(prefix, GroupKey, k) != []) && (k in g ==> g[k] == Having(prefix, GroupKey, k))
  }

  /** A key occurs exactly when some slot has it. */
  lemma KeysOfHaving(ss: seq<Slot>, k: string)
    ensures k in KeysOf(ss) <==> Having(ss, GroupKey, k) != []
  {
    HavingMembers(ss, GroupKey, k);
    if Having(ss, GroupKey, k) != [] {
      assert Having(ss, GroupKey, k)[0] in Having(ss, GroupKey, k);
    }
  }

  /** `order` lists the keys of `g`, each once. */
  ghost predicate KeyOrder(order: seq<string>, g: map<string, seq<Slot>>) {
    Distinct(order) && forall k :: k in g <==> k in order
  }

  /** One step of the first loop: pushing `s` onto the groups of `prefix`
      gives the groups of `prefix + [s]`. */
  lemma PushStep(prefix: seq<Slot>, s: Slot, g: map<string, seq<Slot>>)
    requires GroupsOf(prefix, g)
    ensures var key := GroupKey(s);
      GroupsOf(prefix + [s], g[key := (if key in g then g[key] else []) + [s]])
  {
    var key := GroupKey(s);
    var g' := g[key := (if key in g then g[key] else []) + [s]];
    forall k
      ensures (k in g' <==> Having(prefix + [s], GroupKey, k) != [])
      ensures k in g' ==> g'[k] == Having(prefix + [s], GroupKey, k)
    {
      assert Having(prefix + [s], GroupKey, k) == Having(prefix, GroupKey, k) + (if key == k then [s] else []) by {
        HavingAppend(prefix, [s], GroupKey, k);
      }
    }
  }

  /** One step of the first loop on the key order and the running total:
      a new key is appended, and the total grows by one. */
  lemma OrderStep(order: seq<string>, g: map<string, seq<Slot>>, s: Slot)
    requires KeyOrder(order, g)
    ensures var key := GroupKey(s);
      var g' := g[key := (if key in g then g[key] else []) + [s]];
      var order' := if key in g then order else order + [key];
      KeyOrder(order', g') && SumSizes(order', g') == SumSizes(order, g) + 1
  {
    var key := GroupKey(s);
    var v := (if key in g then g[key] else []) + [s];
    SumSizesUpdate(order, g, key, v);
    if key !in g {
      var order' := order + [key];
      assert order'[..|order'| - 1] == order;
    }
  }

  /** What the first loop keeps after `i` slots. */
  ghost predicate PushInv(ss: seq<Slot>, i: nat, g: map<string, seq<Slot>>, order: seq<string>)
    requires i <= |ss|
  {
    KeyOrder(order, g) && GroupsOf(ss[..i], g) && SumSizes(order, g) == i
  }

  lemma PushInvStep(ss: seq<Slot>, i: nat, g: map<string, seq<Slot>>, order: seq<string>)
    requires i < |ss| && PushInv(ss, i, g, order)
    ensures var key := GroupKey(ss[i]);
      PushInv(ss, i + 1,
        g[key := (if key in g then g[key] else []) + [ss[i]]],
        if key in g then order else order + [key])
  {
    assert ss[..i + 1] == ss[..i] + [ss[i]];
    PushStep(ss[..i], ss[i], g);
    OrderStep(order, g, ss[i]);
  }

  lemma PushInvDone(ss: seq<Slot>, g: map<string, seq<Slot>>, order: seq<string>)
    requires PushInv(ss, |ss|, g, order)
    ensures Distinct(order)
    ensures forall k :: k in g <==> k in order
    ensures g.Keys == KeysOf(ss)
    ensures forall k :: k in g ==> g[k] == Having(ss, GroupKey, k)
    ensures SumSizes(order, g) == |ss|
  {
    assert ss[..|ss|] == ss;
    forall k
      ensures k in g <==> k in KeysOf(ss)
    {
      KeysOfHaving(ss, k);
    }
  }

  /** The first loop of `loadSlots`: push each slot onto the group of its
      key, creating the group on first use. `order` lists the keys in the
      order they were created. */
  method PushIntoGroups(ss: seq<Slot>) returns (grouped: map<string, seq<Slot>>, order: seq<string>)
    ensures Distinct(order)
    ensures forall k :: k in grouped <==> k in order
    ensures grouped.Keys == KeysOf(ss)
    ensures forall k :: k in grouped ==> grouped[k] == Having(ss, GroupKey, k)
    ensures SumSizes(order, grouped) == |ss|
  {
    grouped := map[];
    order := [];
    for i := 0 to |ss|
      invariant PushInv(ss, i, grouped, order)
    {
      var s := ss[i];
      var key := GroupKey(s);
      PushInvStep(ss, i, grouped, order);
      var group := if key in grouped then grouped[key] else [];
      if key !in grouped {
        order := order + [key];
      }
      grouped := grouped[key := group + [s]];
    }
    PushInvDone(ss, grouped, order);
  }

  /** What the second loop keeps after sorting the first `j` groups. */
  ghost predicate SortInv(unsorted: map<string, seq<Slot>>, order: seq<string>, g: map<string, seq<Slot>>, j: nat)
    requires j <= |order|
  {
    (forall k :: k in unsorted <==> k in order)
    && (forall k :: k in g <==> k in order)
    && (forall a :: 0 <= a < j ==> g[order[a]] == SortByStart(unsorted[order[a]]))
    && (forall a :: j <= a < |order| ==> g[order[a]] == unsorted[order[a]])
    && SumSizes(order, g) == SumSizes(order, unsorted)
  }

  lemma SortInvStep(unsorted: map<string, seq<Slot>>, order: seq<string>, g: map<string, seq<Slot>>, j: nat)
    requires Distinct(order) && j < |order|
    requires SortInv(unsorted, order, g, j)
    ensures SortInv(unsorted, order, g[order[j] := SortByStart(g[order[j]])], j + 1)
  {
    var k := order[j];
    var sorted := SortByStart(g[k]);
    assert k in g && |sorted| == |g[k]|;
    SumSizesReplace(order, g, k, sorted);
    UpdateOthers(order, g, j, sorted);
    assert g[k] == unsorted[k];
  }

  /** Replacing a group by one of the same length keeps the total. */
  lemma SumSizesReplace(order: seq<string>, g: map<string, seq<Slot>>, k: string, v: seq<Slot>)
    requires Distinct(order) && k in g && |v| == |g[k]|
    ensures SumSizes(order, g[k := v]) == SumSizes(order, g)
  {
    SumSizesUpdate(order, g, k, v);
  }

  /** Updating the group of `order[j]` leaves the groups of the other keys. */
  lemma UpdateOthers(order: seq<string>, g: map<string, seq<Slot>>, j: nat, v: seq<Slot>)
    requires Distinct(order) && j < |order|
    ensures forall a :: 0 <= a < |order| && a != j && order[a] in g ==> g[order[j] := v][order[a]] == g[order[a]]
  {
    forall a | 0 <= a < |order| && a != j && order[a] in g
      ensures g[order[j] := v][order[a]] == g[order[a]]
    {
      if a < j {
        assert order[a] != order[j];
      } else {
        assert order[j] != order[a];
      }
    }
  }

  lemma SortInvDone(unsorted: map<string, seq<Slot>>, order: seq<string>, g: map<string, seq<Slot>>)
    requires SortInv(unsorted, order, g, |order|)
    ensures g.Keys == unsorted.Keys
    ensures forall k :: k in g ==> g[k] == SortByStart(unsorted[k])
    ensures SumSizes(order, g) == SumSizes(order, unsorted)
  {
    forall k | k in g
      ensures g[k] == SortByStart(unsorted[k])
    {
      var a :| 0 <= a < |order| && order[a] == k;
    }
  }

  /** The second loop: sort every group by start key. */
  method SortGroups(unsorted: map<string, seq<Slot>>, order: seq<string>) returns (grouped: map<string, seq<Slot>>)
    requires Distinct(order)
    requires forall k :: k in unsorted <==> k in order
    ensures grouped.Keys == unsorted.Keys
    ensures forall k :: k in grouped ==> grouped[k] == SortByStart(unsorted[k])
    ensures SumSizes(order, grouped) == SumSizes(order, unsorted)
  {
    grouped := unsorted;
    for j := 0 to |order|
      invariant SortInv(unsorted, order, grouped, j)
    {
      SortInvStep(unsorted, order, grouped, j);
      var k := order[j];
      grouped := grouped[k := SortByStart(grouped[k])];
    }
    SortInvDone(unsorted, order, grouped);
  }

  /** The total: the group sizes added up over the keys. */
  method CountSlots(order: seq<string>, grouped: map<string, seq<Slot>>) returns (total: nat)
    requires forall k :: k in order ==> k in grouped
    ensures total == SumSizes(order, grouped)
  {
    total := 0;
    for j := 0 to |order|
      invariant total == SumSizes(order[..j], grouped)
    {
      assert order[..j + 1][..j] == order[..j];
      total := total + |grouped[order[j]]|;
    }
    assert order[..|order|] == order;
  }

  /** The loops of `loadSlots`: group, sort each group, count. The result is
      `GroupedSpec(ss)` and the count is the number of slots. */
  method GroupSlots(ss: seq<Slot>) returns (grouped: map<string, seq<Slot>>, total: nat)
    ensures grouped == GroupedSpec(ss)
    ensures total == |ss|
  {
    var unsorted, order := PushIntoGroups(ss);
    grouped := SortGroups(unsorted, order);
    total := CountSlots(order, grouped);
  }
}
