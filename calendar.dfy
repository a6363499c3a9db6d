/** The state of the `Calendar` component of frontend/src/components/Calendar.jsx:
    the month shown, its grid, the slots grouped by weekday, the selected
    day and slot, and the notification; with the handlers that change
    them and the `class_date` sent when a class is added to the cart. */
module CalendarState {
  import opened Wrappers
  import opened Text
  import opened JsValue
  import opened Weekday
  import opened Gregorian
  import opened Grid
  import opened Slots
  import opened Cart

  // ---------------------------------------------------------------------
  // Month navigation

  /** The month `handleMonthChange(dir)` moves to: back one month for
      "prev", forward one month for any other direction. */
  function MonthStep(y: int, m: int, dir: string): (r: (int, int))
    requires 0 <= m < 12
    ensures 0 <= r.1 < 12
    ensures dir == "prev" ==> 12 * r.0 + r.1 == 12 * y + m - 1
    ensures dir != "prev" ==> 12 * r.0 + r.1 == 12 * y + m + 1
  {
    if dir == "prev" then MonthBefore(y, m) else MonthAfter(y, m)
  }

  /** Only January going back and December going forward change the year. */
  lemma MonthStepWraps(y: int, m: int, dir: string)
    requires 0 <= m < 12
    ensures dir == "prev" && m == 0 ==> MonthStep(y, m, dir) == (y - 1, 11)
    ensures dir != "prev" && m == 11 ==> MonthStep(y, m, dir) == (y + 1, 0)
    ensures dir == "prev" && m != 0 ==> MonthStep(y, m, dir) == (y, m - 1)
    ensures dir != "prev" && m != 11 ==> MonthStep(y, m, dir) == (y, m + 1)
  {
  }

  /** "next" then "prev", and "prev" then "next", come back to the month
      they started from. */
  lemma MonthStepRoundTrip(y: int, m: int)
    requires 0 <= m < 12
    ensures var (ny, nm) := MonthStep(y, m, "next"); MonthStep(ny, nm, "prev") == (y, m)
    ensures var (py, pm) := MonthStep(y, m, "prev"); MonthStep(py, pm, "next") == (y, m)
  {
  }

  // ---------------------------------------------------------------------
  // class_date

  /** The year field of `Date.prototype.toISOString`: four digits for years
      0 to 9999, otherwise a sign and six digits. */
  function IsoYear(y: int): (r: string)
    ensures |r| >= 4
  {
    if 0 <= y <= 9999 then PadZero(y, 4)
    else (if y < 0 then "-" else "+") + PadZero(if y < 0 then -y else y, 6)
  }

  lemma PadZeroWidth(n: nat, width: nat)
    ensures |PadZero(n, width)| >= width
  {
  }

  /** `class_date`: the first ten characters of the ISO string of UTC
      midnight on the cell's own year, month and day. */
  function FormatClassDate(d: Date): (r: string)
    requires ValidDate(d)
    ensures |r| == 10
  {
    PadZeroWidth(d.month + 1, 2);
    PadZeroWidth(d.day, 2);
    var iso := IsoYear(d.year) + "-" + PadZero(d.month + 1, 2) + "-" + PadZero(d.day, 2);
    iso[..10]
  }

  /** Reads a `YYYY-MM-DD` date back; None for anything else. */
  function ParseIsoDate(s: string): (r: Option<Date>)
    ensures r.Some? ==> ValidDate(r.value) && 0 <= r.value.year <= 9999
  {
    if |s| == 10 && s[4] == '-' && s[7] == '-'
      && AllDigits(s[..4]) && AllDigits(s[5..7]) && AllDigits(s[8..])
    then
      var d := Date(DigitsValue(s[..4]), DigitsValue(s[5..7]) - 1, DigitsValue(s[8..]));
      if ValidDate(d) && d.year <= 9999 then Some(d) else None
    else None
  }

  /** The padded fields of a date with a four-digit year have their widths
      and read back as the year, the month number and the day. */
  lemma DateFieldsPadded(d: Date)
    requires ValidDate(d) && 0 <= d.year <= 9999
    ensures |PadZero(d.year, 4)| == 4 && |PadZero(d.month + 1, 2)| == 2 && |PadZero(d.day, 2)| == 2
    ensures DigitsValue(PadZero(d.year, 4)) == d.year
    ensures DigitsValue(PadZero(d.month + 1, 2)) == d.month + 1
    ensures DigitsValue(PadZero(d.day, 2)) == d.day
  {
    assert Pow10(2) == 100;
    assert Pow10(4) == 10000;
    PadZeroFacts(d.year, 4);
    PadZeroFacts(d.month + 1, 2);
    PadZeroFacts(d.day, 2);
  }

  /** For a four-digit year the ISO string is exactly ten characters long,
      so nothing is cut off. */
  lemma FormatClassDateParts(d: Date)
    requires ValidDate(d) && 0 <= d.year <= 9999
    ensures FormatClassDate(d) == PadZero(d.year, 4) + "-" + PadZero(d.month + 1, 2) + "-" + PadZero(d.day, 2)
  {
    DateFieldsPadded(d);
    var iso := PadZero(d.year, 4) + "-" + PadZero(d.month + 1, 2) + "-" + PadZero(d.day, 2);
    assert IsoYear(d.year) == PadZero(d.year, 4);
    assert iso[..10] == iso;
  }

  /** For a four-digit year `class_date` is `YYYY-MM-DD` with zero padding,
      and it names exactly the cell's date: no time-zone shift. */
  lemma FormatClassDateRoundTrip(d: Date)
    requires ValidDate(d) && 0 <= d.year <= 9999
    ensures FormatClassDate(d)[4] == '-' && FormatClassDate(d)[7] == '-'
    ensures ParseIsoDate(FormatClassDate(d)) == Some(d)
  {
    DateFieldsPadded(d);
    FormatClassDateParts(d);
    var y, mo, da := PadZero(d.year, 4), PadZero(d.month + 1, 2), PadZero(d.day, 2);
    var s := FormatClassDate(d);
    assert s[..4] == y && s[5..7] == mo && s[8..] == da;
  }

  /** For a six-digit year the padded year and month have their widths and
      read back as the year and the month number. */
  lemma SixDigitYearFields(d: Date)
    requires ValidDate(d) && 9999 < d.year < 1000000
    ensures |PadZero(d.year, 6)| == 6 && DigitsValue(PadZero(d.year, 6)) == d.year
    ensures |PadZero(d.month + 1, 2)| == 2 && DigitsValue(PadZero(d.month + 1, 2)) == d.month + 1
  {
    assert Pow10(2) == 100;
    assert Pow10(6) == 1000000;
    PadZeroFacts(d.year, 6);
    PadZeroFacts(d.month + 1, 2);
  }

  /** For a six-digit year the ten characters kept are "+", the year, "-"
      and the month: the day is cut off. */
  lemma FormatClassDateSixDigitYear(d: Date)
    requires ValidDate(d) && 9999 < d.year < 1000000
    ensures FormatClassDate(d) == "+" + PadZero(d.year, 6) + "-" + PadZero(d.month + 1, 2)
  {
    SixDigitYearFields(d);
    var y, mo := PadZero(d.year, 6), PadZero(d.month + 1, 2);
    var iso := "+" + y + "-" + mo + "-" + PadZero(d.day, 2);
    assert IsoYear(d.year) == "+" + y;
    assert iso[..10] == "+" + y + "-" + mo;
  }

  /** From year 10000 on, the ten characters kept start with "+", which is
      not a date. Up to year 999999 they are "+", the zero-padded year, "-"
      and the month number, and the year and the month read back. */
  lemma FormatClassDateBeyond9999(d: Date)
    requires ValidDate(d) && d.year > 9999
    ensures FormatClassDate(d)[0] == '+'
    ensures ParseIsoDate(FormatClassDate(d)).None?
    ensures d.year < 1000000 ==>
      FormatClassDate(d) == "+" + PadZero(d.year, 6) + "-" + PadZero(d.month + 1, 2) &&
      DigitsValue(PadZero(d.year, 6)) == d.year && DigitsValue(PadZero(d.month + 1, 2)) == d.month + 1
  {
    if d.year < 1000000 {
      SixDigitYearFields(d);
      FormatClassDateSixDigitYear(d);
    }
  }

  // ---------------------------------------------------------------------
  // Auto-selection

  /** `d.inMonth && grouped[d.dayOfWeek]?.length > 0`. */
  predicate Qualifies(c: Cell, grouped: map<string, seq<Slot>>) {
    c.inMonth && c.dayOfWeek in grouped && |grouped[c.dayOfWeek]| > 0
  }

  /** `calendarDays.find(...)`, as an index: the first cell that qualifies. */
  function FirstHit(days: seq<Cell>, grouped: map<string, seq<Slot>>): (r: Option<nat>)
    ensures r.Some? ==> r.value < |days| && Qualifies(days[r.value], grouped)
    ensures r.Some? ==> forall j :: 0 <= j < r.value ==> !Qualifies(days[j], grouped)
    ensures r.None? ==> forall j :: 0 <= j < |days| ==> !Qualifies(days[j], grouped)
  {
    if days == [] then None
    else if Qualifies(days[0], grouped) then Some(0)
    else
      match FirstHit(days[1..], grouped)
      case None => None
      case Some(i) => Some(i + 1)
  }

  /** `(startDow + k) % 7` runs through every weekday as `k` runs to 6. */
  lemma WeekdayOffset(f: int, w: int)
    requires 0 <= f < 7 && 0 <= w < 7
    ensures 0 <= (w - f) % 7 < 7 && (f + (w - f) % 7) % 7 == w
  {
    if w >= f {
      assert (w - f) % 7 == w - f;
    } else {
      assert (w - f) % 7 == w - f + 7;
    }
  }

  /** On a month's grid, as soon as one weekday has slots the search finds
      a day, and it finds one in the month's first seven days. */
  lemma FirstHitInMonthGrid(y: int, m: int, days: seq<Cell>, grouped: map<string, seq<Slot>>, w: nat)
    requires 0 <= m < 12
    requires |days| == GridSize(y, m) && forall i :: 0 <= i < |days| ==> days[i] == GridCell(y, m, i)
    requires w < 7 && Weekdays[w] in grouped && |grouped[Weekdays[w]]| > 0
    ensures FirstHit(days, grouped).Some?
    ensures FirstWeekday(y, m) <= FirstHit(days, grouped).value < FirstWeekday(y, m) + 7
  {
    var f := FirstWeekday(y, m);
    GridShape(y, m);
    WeekdayOffset(f, w);
    var i := f + (w - f) % 7;
    GridCellWeekday(y, m, i);
    GridCellInMonth(y, m, i);
    assert Qualifies(days[i], grouped);
    var h := FirstHit(days, grouped).value;
    GridCellInMonth(y, m, h);
  }

  // ---------------------------------------------------------------------
  // The component

  /** The notification colours: green for success, red for an error. */
  datatype Severity = Success | Failure

  /** `snack`: whether it is open, its message and its colour. */
  datatype Snack = Snack(open: bool, message: string, severity: Severity)

  const LoadFailedPrefix: string := "Failed to load class slots: "
  const SignInMessage: string := "Please sign in to add to cart."
  const AddedMessage: string := "Class added to cart!"
  const AddFailedMessage: string := "Add to cart failed"

  /** `accessToken || localStorage.getItem("access_token") || null` is truthy. */
  predicate CalendarToken(accessToken: Option<string>, stored: Option<string>)
    ensures CalendarToken(accessToken, stored) <==>
      Truthy(Or(Or(TokenValue(accessToken), TokenValue(stored)), Null))
  {
    HasToken(accessToken) || HasToken(stored)
  }

  class Calendar {
    var currentMonth: int
    var currentYear: int
    var calendarDays: seq<Cell>
    var selectedDate: Option<Cell>
    var slotsByWeekday: map<string, seq<Slot>>
    var selectedSlotId: Scalar
    var totalSlots: nat
    var snack: Snack

    /** The month is a `Date` month, the grid's days and the selected day
        are real dates, and every group holds only slots of its own key. */
    predicate Valid()
      reads this
    {
      0 <= currentMonth < 12
      && (forall c :: c in calendarDays ==> ValidDate(c.date))
      && (selectedDate.Some? ==> ValidDate(selectedDate.value.date))
      && GroupsWellFormed()
    }

    /** Every group holds only slots of its own key. */
    predicate GroupsWellFormed()
      reads this
    {
      forall k, s :: k in slotsByWeekday && s in slotsByWeekday[k] ==> GroupKey(s) == k
    }

    /** `slotsForSelectedDay`: the group of the selected day's weekday, or
        nothing. It lists exactly the loaded slots of that weekday. */
    function SlotsForSelectedDay(): (r: seq<Slot>)
      reads this
      ensures selectedDate.None? ==> r == []
      ensures Valid() && selectedDate.Some? ==>
        forall s :: s in r ==> GroupKey(s) == selectedDate.value.dayOfWeek
      ensures Valid() && selectedDate.Some? ==>
        forall k, s :: k in slotsByWeekday && s in slotsByWeekday[k] && GroupKey(s) == selectedDate.value.dayOfWeek ==> s in r
    {
      if selectedDate.None? then []
      else if selectedDate.value.dayOfWeek in slotsByWeekday then slotsByWeekday[selectedDate.value.dayOfWeek]
      else []
    }

    /** A selected slot (anything but `null`) is one of the slots shown for
        the selected day. */
    predicate SelectionConsistent()
      reads this
    {
      !selectedSlotId.Null? ==> exists s :: s in SlotsForSelectedDay() && s.id == selectedSlotId
    }

    /** The initial state, in the month of `today`. */
    constructor(today: Date)
      requires ValidDate(today)
      ensures Valid() && SelectionConsistent()
      ensures currentMonth == today.month && currentYear == today.year
      ensures calendarDays == [] && selectedDate == None && slotsByWeekday == map[]
      ensures selectedSlotId == Null && totalSlots == 0 && snack == Snack(false, "", Success)
    {
      currentMonth := today.month;
      currentYear := today.year;
      calendarDays := [];
      selectedDate := None;
      slotsByWeekday := map[];
      selectedSlotId := Null;
      totalSlots := 0;
      snack := Snack(false, "", Success);
    }

    /** The grid effect: lay out the weeks of the current month. */
    method RebuildGrid()
      requires Valid()
      modifies this`calendarDays
      ensures Valid()
      ensures |calendarDays| == GridSize(currentYear, currentMonth)
      ensures forall i :: 0 <= i < |calendarDays| ==> calendarDays[i] == GridCell(currentYear, currentMonth, i)
    {
      calendarDays := BuildMonth(currentYear, currentMonth);
      forall c | c in calendarDays
        ensures ValidDate(c.date)
      {
        var i :| 0 <= i < |calendarDays| && calendarDays[i] == c;
        GridCellOffset(currentYear, currentMonth, i);
      }
    }

    /** The auto-selection at the end of `loadSlots`: when no day is
        selected, select the first in-month day whose weekday has slots,
        and that group's first slot. */
    method AutoSelect()
      requires Valid()
      modifies this`selectedDate, this`selectedSlotId
      ensures Valid()
      ensures old(selectedDate).Some? || FirstHit(calendarDays, slotsByWeekday).None? ==>
        selectedDate == old(selectedDate) && selectedSlotId == old(selectedSlotId)
      ensures old(selectedDate).None? && FirstHit(calendarDays, slotsByWeekday).Some? ==>
        var hit := calendarDays[FirstHit(calendarDays, slotsByWeekday).value];
        selectedDate == Some(hit) &&
        selectedSlotId == Coalesce(slotsByWeekday[hit.dayOfWeek][0].id, Null) &&
        SelectionConsistent()
    {
      if selectedDate.None? && |calendarDays| > 0 {
        var hit := FirstHit(calendarDays, slotsByWeekday);
        if hit.Some? {
          var day := calendarDays[hit.value];
          assert day in calendarDays;
          selectedDate := Some(day);
          selectedSlotId := Coalesce(slotsByWeekday[day.dayOfWeek][0].id, Null);
          assert slotsByWeekday[day.dayOfWeek][0] in SlotsForSelectedDay();
        }
      }
    }

    /** `loadSlots` with `reply` to its GET of `/slots`. A failure only opens
        the error notification. Otherwise the groups and the total are
        replaced by the grouping of the normalised slots, and then
        `AutoSelect` runs. */
    method LoadSlots(reply: Response)
      requires Valid()
      modifies this`slotsByWeekday, this`totalSlots, this`selectedDate, this`selectedSlotId, this`snack
      ensures Valid()
      ensures reply.Failed? ==>
        snack == Snack(true, LoadFailedPrefix + reply.message, Failure) &&
        slotsByWeekday == old(slotsByWeekday) && totalSlots == old(totalSlots) &&
        selectedDate == old(selectedDate) && selectedSlotId == old(selectedSlotId)
      ensures reply.Ok? ==>
        slotsByWeekday == GroupedSpec(NormalizeSlots(reply.body)) &&
        totalSlots == |NormalizeSlots(reply.body)| && snack == old(snack)
      ensures reply.Ok? && (old(selectedDate).Some? || FirstHit(calendarDays, slotsByWeekday).None?) ==>
        selectedDate == old(selectedDate) && selectedSlotId == old(selectedSlotId)
      ensures reply.Ok? && old(selectedDate).None? && FirstHit(calendarDays, slotsByWeekday).Some? ==>
        var hit := calendarDays[FirstHit(calendarDays, slotsByWeekday).value];
        selectedDate == Some(hit) &&
        selectedSlotId == Coalesce(slotsByWeekday[hit.dayOfWeek][0].id, Null) &&
        SelectionConsistent()
    {
      if reply.Failed? {
        snack := Snack(true, LoadFailedPrefix + reply.message, Failure);
        return;
      }
      var normalized := NormalizeSlots(reply.body);
      var grouped, total := GroupSlots(normalized);
      slotsByWeekday := grouped;
      assert GroupsWellFormed() by {
        GroupedPartition(normalized);
      }
      totalSlots := total;
      AutoSelect();
    }

    /** `handleDayClick(day)`: select the day and the first slot of its
        weekday, or no slot when that weekday has none. */
    method HandleDayClick(day: Cell)
      requires Valid() && ValidDate(day.date)
      modifies this`selectedDate, this`selectedSlotId
      ensures Valid() && selectedDate == Some(day)
      ensures |SlotsForSelectedDay()| > 0 ==> selectedSlotId == SlotsForSelectedDay()[0].id
      ensures |SlotsForSelectedDay()| == 0 ==> selectedSlotId == Null
      ensures SelectionConsistent()
    {
      selectedDate := Some(day);
      var slots := if day.dayOfWeek in slotsByWeekday then slotsByWeekday[day.dayOfWeek] else [];
      selectedSlotId := if |slots| > 0 then slots[0].id else Null;
      if |slots| > 0 {
        assert slots[0] in SlotsForSelectedDay();
      }
    }

    /** The radio button of row `k` of the day's slot table. */
    method SelectSlot(k: nat)
      requires k < |SlotsForSelectedDay()|
      modifies this`selectedSlotId
      ensures selectedSlotId == SlotsForSelectedDay()[k].id
      ensures SelectionConsistent()
    {
      selectedSlotId := SlotsForSelectedDay()[k].id;
      assert SlotsForSelectedDay()[k] in SlotsForSelectedDay();
    }

    /** `handleMonthChange(dir)`: move one month back or forward. */
    method HandleMonthChange(dir: string)
      requires Valid()
      modifies this`currentMonth, this`currentYear
      ensures Valid()
      ensures (currentYear, currentMonth) == MonthStep(old(currentYear), old(currentMonth), dir)
    {
      if dir == "prev" {
        if currentMonth == 0 {
          currentYear := currentYear - 1;
          currentMonth := 11;
        } else {
          currentMonth := currentMonth - 1;
        }
      } else {
        if currentMonth == 11 {
          currentYear := currentYear + 1;
          currentMonth := 0;
        } else {
          currentMonth := currentMonth + 1;
        }
      }
    }

    /** The notification's close handler. */
    method CloseSnack()
      modifies this`snack
      ensures snack == old(snack).(open := false)
    {
      snack := snack.(open := false);
    }

    /** `addToCartHandler` as written. Without a token it only asks the user
        to sign in; without a selected day or a truthy slot id it does
        nothing; otherwise it asks the cart to add the slot for the day's
        `class_date` and then announces success, whatever the cart did. */
    method AddToCartHandler(accessToken: Option<string>, stored: Option<string>, store: CartStore,
                            postReply: Response, getReply: Response)
      returns (sent: seq<Request>)
      requires Valid()
      modifies this`snack, store
      ensures !CalendarToken(accessToken, stored) ==>
        snack == Snack(true, SignInMessage, Failure) && sent == [] && store.cart == old(store.cart)
      ensures CalendarToken(accessToken, stored) && (selectedDate.None? || !Truthy(selectedSlotId)) ==>
        snack == old(snack) && sent == [] && store.cart == old(store.cart)
      ensures CalendarToken(accessToken, stored) && selectedDate.Some? && Truthy(selectedSlotId) ==>
        var item := CartPost(selectedSlotId, FormatClassDate(selectedDate.value.date));
        snack == Snack(true, AddedMessage, Success) &&
        (!HasToken(stored) ==> sent == [] && store.cart == old(store.cart)) &&
        (HasToken(stored) && postReply.Failed? ==> sent == [PostCart(item)] && store.cart == old(store.cart)) &&
        (HasToken(stored) && postReply.Ok? ==>
          sent == [PostCart(item), GetCart] && store.cart == CartAfterGet(old(store.cart), getReply))
    {
      if !CalendarToken(accessToken, stored) {
        snack := Snack(true, SignInMessage, Failure);
        return [];
      }
      if selectedDate.None? || !Truthy(selectedSlotId) {
        return [];
      }
      var classDate := FormatClassDate(selectedDate.value.date);
      sent := store.AddToCart(stored, CartPost(selectedSlotId, classDate), postReply, getReply);
      snack := Snack(true, AddedMessage, Success);
    }

    /** `addToCartHandler` as its error branch means it: success is announced
        exactly when the item was added, and a failed add says so. */
    method AddToCartHandlerReported(accessToken: Option<string>, stored: Option<string>, store: CartStore,
                                    postReply: Response, getReply: Response)
      returns (sent: seq<Request>)
      requires Valid()
      modifies this`snack, store
      ensures !CalendarToken(accessToken, stored) ==>
        snack == Snack(true, SignInMessage, Failure) && sent == [] && store.cart == old(store.cart)
      ensures CalendarToken(accessToken, stored) && (selectedDate.None? || !Truthy(selectedSlotId)) ==>
        snack == old(snack) && sent == [] && store.cart == old(store.cart)
      ensures CalendarToken(accessToken, stored) && selectedDate.Some? && Truthy(selectedSlotId) ==>
        var item := CartPost(selectedSlotId, FormatClassDate(selectedDate.value.date));
        (snack == Snack(true, AddedMessage, Success) <==> HasToken(stored) && postReply.Ok?) &&
        (!(HasToken(stored) && postReply.Ok?) ==> snack == Snack(true, AddFailedMessage, Failure)) &&
        (!HasToken(stored) ==> sent == [] && store.cart == old(store.cart)) &&
        (HasToken(stored) && postReply.Failed? ==> sent == [PostCart(item)] && store.cart == old(store.cart)) &&
        (HasToken(stored) && postReply.Ok? ==>
          sent == [PostCart(item), GetCart] && store.cart == CartAfterGet(old(store.cart), getReply))
    {
      if !CalendarToken(accessToken, stored) {
        snack := Snack(true, SignInMessage, Failure);
        return [];
      }
      if selectedDate.None? || !Truthy(selectedSlotId) {
        return [];
      }
      var classDate := FormatClassDate(selectedDate.value.date);
      var added;
      sent, added := store.AddToCartReported(stored, CartPost(selectedSlotId, classDate), postReply, getReply);
      if added {
        snack := Snack(true, AddedMessage, Success);
      } else {
        snack := Snack(true, AddFailedMessage, Failure);
      }
    }
  }

  /** Clicking a day whose weekday has no slots clears the slot selection,
      and adding to the cart then sends nothing and changes nothing. */
  method EmptyDayAddsNothing(c: Calendar, store: CartStore, day: Cell, token: string,
                             postReply: Response, getReply: Response)
    returns (sent: seq<Request>)
    requires c.Valid() && ValidDate(day.date) && token != ""
    requires day.dayOfWeek !in c.slotsByWeekday || |c.slotsByWeekday[day.dayOfWeek]| == 0
    modifies c, store
    ensures c.selectedDate == Some(day) && c.selectedSlotId == Null
    ensures sent == [] && store.cart == old(store.cart) && c.snack == old(c.snack)
  {
    c.HandleDayClick(day);
    sent := c.AddToCartHandler(Some(token), Some(token), store, postReply, getReply);
  }

  /** With a day and a slot selected, a POST that the server rejects leaves
      the cart as it was and still announces "Class added to cart!". */
  method FailedAddAnnouncedAsSuccess(c: Calendar, store: CartStore, token: string, message: string)
    returns (sent: seq<Request>)
    requires c.Valid() && c.selectedDate.Some? && Truthy(c.selectedSlotId) && token != ""
    modifies c, store
    ensures c.snack == Snack(true, AddedMessage, Success)
    ensures store.cart == old(store.cart)
    ensures |sent| == 1 && sent[0].PostCart?
  {
    sent := c.AddToCartHandler(Some(token), Some(token), store, Failed(message), Failed(message));
  }

  /** The same situation with the corrected handler reports the failure. */
  method FailedAddReported(c: Calendar, store: CartStore, token: string, message: string)
    returns (sent: seq<Request>)
    requires c.Valid() && c.selectedDate.Some? && Truthy(c.selectedSlotId) && token != ""
    modifies c, store
    ensures c.snack == Snack(true, AddFailedMessage, Failure)
    ensures store.cart == old(store.cart)
    ensures |sent| == 1 && sent[0].PostCart?
  {
    sent := c.AddToCartHandlerReported(Some(token), Some(token), store, Failed(message), Failed(message));
  }
}
