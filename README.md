# Class calendar and cart mirror, modelled in Dafny

This project models the client-side logic of a class-registration web app.

The class calendar (`frontend/src/components/Calendar.jsx`) covers:

- the month grid of whole Sunday-first weeks;
- the canonicalisation of weekday names;
- the normalisation of the slot records the server returns, through alias lists;
- grouping those slots by weekday, sorting each group by start time, and counting them;
- the auto-selection of the first day that has classes;
- the day-click, month-navigation and add-to-cart handlers;
- the `class_date` the calendar sends.

The cart mirror (`frontend/src/contexts/CartContext.jsx`) covers:

- the mapping of server cart items to the client's shape, with its defaults;
- the `cart` state that the token-guarded load, add and remove operations replace with a refetch.

Modules:

- `Wrappers`: `Option`.
- `Text`: the string built-ins used:
  - `trim` with ECMAScript white space;
  - `toLowerCase` and `toUpperCase` on ASCII;
  - decimal printing and parsing;
  - zero padding;
  - code-point string order.
- `JsValue`: the values a record field can hold (`undefined`, `null`, an integral number, a string) and array elements. Also truthiness, `String()`, `??` and `Number()`, plus the outcome of a request.
- `Weekday`: `normalizeDay`.
- `Gregorian`: integer proleptic-Gregorian arithmetic standing in for `Date`:
  - month lengths and leap years;
  - a day number for every date, and the weekday it falls on;
  - the day overflow of `new Date(y, m, d)`.
- `Grid`: the grid-building loop (`BuildMonth`) and what each of its cells is.
- `Slots`:
  - `getField`, the per-record normalisation and a stable insertion sort that specifies the in-place `sort`;
  - the grouped result `GroupedSpec` and the three loops of `loadSlots`.
- `Cart`: `normalizeCartItems` and the `CartStore` class holding `cart`.
- `CalendarState`: the `Calendar` class holding the component's state, and its handlers.

Inputs from outside become parameters:

- The server is an oracle. Each operation that makes a request receives its `Response`: a 2xx reply with its body, or a failure carrying the message the UI shows.
- The cart operations and the add-to-cart handlers return the requests they sent, in order. `LoadSlots` always makes its one GET of `/slots` and receives only that reply, so it returns nothing.
- The tokens are parameters:
  - the stored `access_token` from `localStorage`;
  - the user context's `accessToken`.
- The current date that the initial month comes from is also a parameter.

Two behaviours of the code worth knowing:

- A weekday stored under `day` is not read, because `day` is not one of `getField`'s aliases (`day_of_week`, `dayOfWeek`, `weekday`). So a record such as `{day: "Tues", ...}` lands in the `"(unknown)"` group (`Slots.DayAliasExample`).
- Prices are not clamped: a negative `price_cents` is kept (`Slots.NormalizeSlotPrice`).

## Model

| member | source | states |
|---|---|---|
| Weekday.NormalizeDay | frontend/src/components/Calendar.jsx:45-58 | A falsy input gives "". A recognised key, `String(s).trim().toLowerCase()`, gives one of the seven `WEEKDAYS` names. |
| Weekday.NormalizeDayCases | frontend/src/components/Calendar.jsx:45-58 | A falsy input gives "". A trimmed, lower-cased table key gives its table entry, which is one of the seven weekday names. Any other input comes back as `String(s)`, unchanged. |
| Weekday.WeekdayFallbackSubsumed | frontend/src/components/Calendar.jsx:57 | Every lower-cased weekday name is already a table key mapped to that name capitalised, so the `WEEKDAYS.includes` fallback never decides the result. |
| Weekday.DayTableValuesAreWeekdays | frontend/src/components/Calendar.jsx:47-55 | Every value in the lookup table is one of the `WEEKDAYS` names. |
| Weekday.NormalizeDayOfWeekday | frontend/src/components/Calendar.jsx:42-58 | Each canonical weekday name is its own normal form. |
| Weekday.NormalizeDayIdempotent | frontend/src/components/Calendar.jsx:45-58 | Normalising a normalised day changes nothing. |
| Gregorian.DaysInMonth | frontend/src/components/Calendar.jsx:79-80 | The last day of a month, `new Date(y, m + 1, 0).getDate()`, is between 28 and 31. |
| Gregorian.MonthLengths | frontend/src/components/Calendar.jsx:79-80 | February has 29 days exactly in leap years, and every other month has 30 or 31. The twelve month lengths add up to the year length that the day numbers give. |
| Gregorian.WeekdayOf | frontend/src/components/Calendar.jsx:78 | `getDay` is a weekday number 0..6, taken from the day number. |
| Gregorian.FirstDayIsMonday | frontend/src/components/Calendar.jsx:78 | The day number counts from 1 January of year 1, and `getDay` puts that day on a Monday. |
| Gregorian.YearLength | frontend/src/components/Calendar.jsx:79-80 | A year has 366 days exactly when it is a leap year. |
| Gregorian.NextMonthStart | frontend/src/components/Calendar.jsx:79-80 | The first of the next month is `DaysInMonth` days after the first of this one, across year ends too. |
| Gregorian.ShiftDay | frontend/src/components/Calendar.jsx:84 | `new Date(y, m, d)` for a day up to four weeks outside the month is a valid date, exactly `d - 1` days after the first of the month. It lies in month `m` exactly when `1 <= d <= DaysInMonth`. |
| Gregorian.DayNumberInjective | frontend/src/components/Calendar.jsx:84 | Two valid dates with the same day number are the same date, so the day arithmetic names each day once. |
| Gregorian.MonthAfter | frontend/src/components/Calendar.jsx:158-163 | The next month is in 0..11, differs from the current one, and is one month later counted as `12 * year + month`. |
| Gregorian.MonthBefore | frontend/src/components/Calendar.jsx:153-157 | The previous month is in 0..11, differs from the current one, and is one month earlier counted as `12 * year + month`. |
| Grid.GridSize | frontend/src/components/Calendar.jsx:77-81 | `totalCells` is a multiple of 7 in the range [startDow + totalDays, startDow + totalDays + 6]: the fewest whole weeks that hold the leading days and the month. |
| Grid.GridShape | frontend/src/components/Calendar.jsx:77-81 | Every month's grid has between 28 and 42 cells: four to six weeks. |
| Grid.GridCell | frontend/src/components/Calendar.jsx:83-86 | Each cell holds a real date and is labelled with one of the seven `WEEKDAYS` names. |
| Grid.BuildMonth | frontend/src/components/Calendar.jsx:76-89 | The loop pushes exactly `totalCells` cells, and cell `i` is `GridCell(y, m, i)`. |
| Grid.GridCellOffset | frontend/src/components/Calendar.jsx:84 | Cell `i` is a valid date `i - startDow` days after the first of the month. |
| Grid.GridDaysConsecutive | frontend/src/components/Calendar.jsx:83-86 | Neighbouring cells are consecutive days: no gaps and no repeated dates. |
| Grid.GridCellWeekday | frontend/src/components/Calendar.jsx:84-86 | Cell `i` falls on weekday `i % 7` and is labelled `WEEKDAYS[i % 7]`, so every row starts on Sunday. |
| Grid.GridCellInMonth | frontend/src/components/Calendar.jsx:84-86 | `inMonth` holds exactly for indices startDow .. startDow + totalDays - 1. Those cells are days 1, 2, ... of the month, in order. |
| Grid.GridCoversMonth | frontend/src/components/Calendar.jsx:81-86 | Every day of the month has its cell, and that cell is in the month. |
| Grid.GridCellNeighbours | frontend/src/components/Calendar.jsx:84-86 | The cells before the month are the last days of the previous month. The cells after it are the first days of the next month. |
| Grid.February2025 | frontend/src/components/Calendar.jsx:76-89 | February 2025 starts on a Saturday and gives 35 cells. They run from Sunday 26 January (outside the month) to Saturday 1 March (outside the month). |
| Slots.GetField | frontend/src/components/Calendar.jsx:98-101 | The result is the value under the first alias holding neither `null` nor `undefined`, or the fallback when no alias does. |
| Slots.NormalizeSlot | frontend/src/components/Calendar.jsx:106-114 | The group type and the start and end times are never `null` or `undefined`, because each gets the fallback "". The weekday is already in the normal form `normalizeDay` gives. |
| Slots.NormalizeSlots | frontend/src/components/Calendar.jsx:106 | A body that is not an array gives no slots. An array gives one normalised slot per element, in order. |
| JsValue.NumberOf | frontend/src/components/Calendar.jsx:112-113 | `Number()`: `undefined` is NaN (None), `null` is 0, and a string is parsed. A number is itself and reads back from its own decimal string. |
| JsValue.NumberOrZero | frontend/src/components/Calendar.jsx:112-113 | `Number(v)` with the fallback 0 of JavaScript's logical or: the number `Number(v)` gives when that number is truthy, and 0 for NaN and zero. |
| Text.ParseNumber | frontend/src/components/Calendar.jsx:112-113 | `Number()` on a string: blank text reads as 0, and a run of digits as its value. After trimming, text that starts with anything but a digit or a sign is NaN. When it succeeds, everything after the first character is a digit. |
| Slots.NormalizeSlotPrice | frontend/src/components/Calendar.jsx:112 | `price_cents` comes from `price_cents`, else `price`. It is 0 when both are absent or the value is not numeric. A number is kept, negatives included. |
| Slots.NormalizeSlotCapacity | frontend/src/components/Calendar.jsx:113 | `capacity` is 0 when absent or not numeric. Otherwise it is the value read as a number. |
| Slots.DayAliasExample | frontend/src/components/Calendar.jsx:106-114 | `{day: "Tues", startTime: "09:00", price: 1500}` gets no weekday and the group "(unknown)". Its start time comes through the camel-case alias, its price through `price`, and its capacity is 0. |
| Slots.DayOfWeekExample | frontend/src/components/Calendar.jsx:106-114 | Through the `dayOfWeek` alias, " TUES " becomes "Tuesday", and the string price "1500" becomes 1500. |
| Text.ParseNumberOfDecimal | frontend/src/components/Calendar.jsx:112-113 | `Number(String(n))` is `n` for every integer: the numeric coercion reads back any integer the server prints. |
| Slots.GroupKey | frontend/src/components/Calendar.jsx:117 | The group key is never empty. A slot with a weekday is keyed by that weekday, and a slot with an empty weekday by "(unknown)". |
| Slots.HavingMembers | frontend/src/components/Calendar.jsx:115-119 | The slots collected under a key are exactly the input slots with that key. |
| Slots.StartKey | frontend/src/components/Calendar.jsx:121 | A string start time is its own sort key. A missing one (`null` or `undefined`) sorts as "". |
| Slots.SortByStart | frontend/src/components/Calendar.jsx:120-122 | The sort keeps the number of slots. `SortByStartCorrect` proves the rest: sorted, a permutation, and stable. |
| Slots.SortByStartCorrect | frontend/src/components/Calendar.jsx:120-122 | The sort gives a permutation of its input that is non-decreasing in start key. Slots with equal start keys keep their input order, as the stable `Array.prototype.sort` keeps them. |
| Text.LexLeTotal | frontend/src/components/Calendar.jsx:121 | The comparator's string order is total. |
| Text.LexLeTrans | frontend/src/components/Calendar.jsx:121 | The comparator's string order is transitive. |
| Slots.GroupedSpec | frontend/src/components/Calendar.jsx:115-122 | The keys of `slotsByWeekday` are exactly the group keys that occur among the slots. Each group holds as many slots as have its key. |
| Slots.GroupedPartition | frontend/src/components/Calendar.jsx:115-119 | Every slot is in the group keyed by its weekday, or "(unknown)" when that is empty. Every group holds only slots of its key, and no group is empty. |
| Slots.GroupedSortedStable | frontend/src/components/Calendar.jsx:120-122 | Each group is sorted by start time, and slots with equal start times keep their input order. |
| Slots.PushIntoGroups | frontend/src/components/Calendar.jsx:115-119 | The first loop makes one group per key that occurs, holding that key's slots in input order. The group sizes add up to the number of slots. |
| Slots.SortGroups | frontend/src/components/Calendar.jsx:120-122 | The second loop replaces every group by its sorted version, keeping the keys and the sizes. |
| Slots.CountSlots | frontend/src/components/Calendar.jsx:124 | The reduce adds up the group sizes. |
| Slots.GroupSlots | frontend/src/components/Calendar.jsx:115-124 | The loops together give `GroupedSpec`, and the total is the number of slot records. It is 0 for a non-array response. |
| CalendarState.CalendarToken | frontend/src/components/Calendar.jsx:62 | The guard holds exactly when the token value is truthy. That value is the user context's token, else the stored token, else `null`, chosen by JavaScript's logical or (the left operand when it is truthy, else the right one). |
| CalendarState.Calendar.constructor | frontend/src/components/Calendar.jsx:65-74 | The initial state: the month and year of today, no grid yet, no selected day or slot, no groups, a total of 0, and a closed notification. |
| CalendarState.Calendar.LoadSlots | frontend/src/components/Calendar.jsx:102-136 | A failed request only opens the notification "Failed to load class slots: " plus the message. Otherwise `slotsByWeekday` and `totalSlots` become the grouping and count of the normalised records, and auto-selection runs. |
| CalendarState.FirstHit | frontend/src/components/Calendar.jsx:126 | The result is the index of the first in-month cell whose weekday has a non-empty group, or none when no cell qualifies. |
| CalendarState.FirstHitInMonthGrid | frontend/src/components/Calendar.jsx:125-127 | On a month's grid, once any weekday has slots, the search finds a day within the month's first seven days. |
| CalendarState.Calendar.AutoSelect | frontend/src/components/Calendar.jsx:125-131 | When a day is already selected, or no cell qualifies, the selection is unchanged. Otherwise the first qualifying day is selected with its group's first slot id (`null` if that id is nullish), and the selection is consistent. |
| CalendarState.Calendar.SlotsForSelectedDay | frontend/src/components/Calendar.jsx:141-144 | With no selected day the list is empty. Otherwise it holds exactly the loaded slots of the selected day's weekday: each slot in it has that weekday, and every loaded slot with that weekday is in it. |
| CalendarState.Calendar.HandleDayClick | frontend/src/components/Calendar.jsx:146-150 | The clicked day is selected, together with the first slot of its weekday, or `null` when it has none. A selection other than `null` is one of the day's slots. |
| CalendarState.Calendar.SelectSlot | frontend/src/components/Calendar.jsx:238 | Choosing row `k` selects that row's slot id, which belongs to the selected day. |
| CalendarState.MonthStep | frontend/src/components/Calendar.jsx:152-164 | "prev" moves one month back; any other direction moves one month forward. The month stays in 0..11. |
| CalendarState.MonthStepWraps | frontend/src/components/Calendar.jsx:152-164 | January going back becomes December of the previous year. December going forward becomes January of the next year. Otherwise the year is kept. |
| CalendarState.MonthStepRoundTrip | frontend/src/components/Calendar.jsx:152-164 | "next" then "prev", and "prev" then "next", return to the same month and year. |
| CalendarState.Calendar.HandleMonthChange | frontend/src/components/Calendar.jsx:152-164 | The month and year become `MonthStep` of the old ones, and the month stays valid. |
| CalendarState.Calendar.RebuildGrid | frontend/src/components/Calendar.jsx:76-89 | The effect replaces `calendarDays` with the current month's grid. |
| CalendarState.Calendar.CloseSnack | frontend/src/components/Calendar.jsx:303 | Closing the notification keeps its message and colour. |
| CalendarState.FormatClassDate | frontend/src/components/Calendar.jsx:174-177 | `class_date` is always ten characters. |
| CalendarState.FormatClassDateRoundTrip | frontend/src/components/Calendar.jsx:174-177 | For years 0..9999, `class_date` is the zero-padded `YYYY-MM-DD` of the cell's own year, month and day. Reading it back gives exactly that date, with no time-zone shift. |
| CalendarState.FormatClassDateBeyond9999 | frontend/src/components/Calendar.jsx:174-177 | From year 10000 on, `class_date` starts with "+" and does not read back as a date. Up to year 999999 it is "+", the six-digit zero-padded year, "-" and the two-digit month, with the day cut off; the year and the month read back from it. |
| Text.PadZeroFacts | frontend/src/components/Calendar.jsx:175-177 | Zero padding to a width that holds the number gives exactly that width and the same value. |
| CalendarState.Calendar.AddToCartHandler | frontend/src/components/Calendar.jsx:166-185 | Without a token: only the "Please sign in" error notification. Without a selected day or a truthy slot id: no effect. Otherwise it adds the slot for the day's `class_date` through the cart, then announces "Class added to cart!" whatever the cart did. |
| CalendarState.EmptyDayAddsNothing | frontend/src/components/Calendar.jsx:146-150 | After a click on a day whose weekday has no slots, add-to-cart sends nothing and changes neither the cart nor the notification. |
| Cart.NormalizeCartItem | frontend/src/contexts/CartContext.jsx:39-49 | `id` is copied; `slotId`, `classDate` and `addedAt` are renamed. `groupType`, `startTime` and `endTime` are never nullish: nullish ones become "—". `priceCents` and `capacity` are never `undefined`: nullish ones become `null`. Other values are copied unchanged. |
| Cart.NormalizeCartItems | frontend/src/contexts/CartContext.jsx:38-49 | When every item is readable, the result keeps the length and order and maps each item. It fails, as the `map` throws, exactly when some item is `null` or `undefined`. |
| Cart.NormalizeCartItemRoundTrip | frontend/src/contexts/CartContext.jsx:38-49 | Every client item with non-nullish text fields and non-`undefined` number fields comes back unchanged from its own server record. |
| Cart.NormalizeCartItemsRoundTrip | frontend/src/contexts/CartContext.jsx:38-49 | The same holds for whole lists. |
| Cart.CartAfterGet | frontend/src/contexts/CartContext.jsx:58-65 | A reply whose body is an array of readable items replaces the cart wholesale with the normalised items. A failure, a non-array body or a throwing map leaves the cart unchanged. |
| Cart.CartAfterGetForgetsOldCart | frontend/src/contexts/CartContext.jsx:60-62 | Two loads with the same readable array reply give the same cart, whatever the cart held before. |
| Cart.HasToken | frontend/src/contexts/CartContext.jsx:55-56 | The guard `if (!token) return` passes exactly when the value `getItem` returns (the string, or `null`) is truthy in JavaScript. |
| Cart.DeletePath | frontend/src/contexts/CartContext.jsx:85 | The DELETE path starts with "/api/cart/", and a numeric item id reads back from the rest of it. |
| Cart.DeletePathInjective | frontend/src/contexts/CartContext.jsx:85 | Two ids give the same DELETE path exactly when `String()` renders them the same, so a DELETE reaches only the item it names. |
| Cart.CartStore.constructor | frontend/src/contexts/CartContext.jsx:52 | The cart starts empty. |
| Cart.CartStore.LoadCart | frontend/src/contexts/CartContext.jsx:54-66 | Without a stored token: no request, and the cart is unchanged. Otherwise one GET, and the cart becomes `CartAfterGet` of the old cart and the reply. |
| Cart.CartStore.AddToCart | frontend/src/contexts/CartContext.jsx:68-78 | Without a token: nothing is sent or changed. A failed POST leaves the cart unchanged, and the operation completes normally. After a successful POST, the refetch comes second and the cart is its result. |
| Cart.CartStore.RemoveFromCart | frontend/src/contexts/CartContext.jsx:80-90 | The same for the DELETE of `/api/cart/${id}`. |
| Cart.CartStore.AddToCartReported | frontend/src/contexts/CartContext.jsx:68-78 | Same effects as `AddToCart`, and also reports whether the item was added: exactly when a token is stored and the POST succeeded. |
| CalendarState.Calendar.AddToCartHandlerReported | frontend/src/components/Calendar.jsx:179-184 | Same guards and requests as `AddToCartHandler`. Success is announced exactly when the item was added; otherwise the notification is "Add to cart failed". |
| CalendarState.FailedAddAnnouncedAsSuccess | frontend/src/components/Calendar.jsx:179-184 | With a day and a slot selected and the POST rejected, the code as written leaves the cart unchanged and still announces "Class added to cart!". |
| CalendarState.FailedAddReported | frontend/src/components/Calendar.jsx:179-184 | In the same situation the corrected handler announces "Add to cart failed". |

## Left out

- Rendering is not modelled:
  - the JSX and MUI layout and styling;
  - the 3-second auto-hide of the notification (colours appear only as a success/failure severity);
  - the `toLocaleString` month label;
  - the `loadingSlots`/`loadingCart` flags;
  - the `console.log`/`console.error` calls.
- The price display `(price_cents / 100).toFixed(2)` is not modelled: it is floating-point formatting.
- The network and storage are parameters, not modelled:
  - the axios instances and interceptors, the base URLs and the `Authorization` header;
  - `localStorage`. The stored token is a parameter, read once per operation.
- Request failures are not distinguished. The UI's choice between `e.response?.data?.error` and `e.message` arrives already made, as the message of a failed `Response`.
- React scheduling is not modelled:
  - when effects run, and the race between `loadSlots` and a month change;
  - stale closures.

  `LoadSlots` reads the current `selectedDate` and `calendarDays`. It keeps an existing selection even when the new groups no longer hold the selected slot. The model says no more about that case.
- The provider's mount effect is not a separate member. It is `LoadCart` on a new `CartStore`.
- Cart.CartStore.AddToCart: the refetch reuses the stored token the operation started with. The code reads `localStorage` again inside `loadCart`, and a token removed in between is not modelled.
- Gregorian.ShiftDay: requires the day to lie within four weeks of the month. That covers every cell of the grid; `new Date` itself accepts any day.
- JsValue.NumberOf: models `Number()` only on integer literals, with optional sign and surrounding white space. Fractions, exponents, hexadecimal, `Infinity` and booleans are not modelled. Field values are integers, strings, `null` or `undefined`: nested objects, arrays and booleans are not modelled. Numbers are unbounded integers, not IEEE doubles. Rounding above 2^53 is not modelled (`Number("9007199254740993")` gives 9007199254740992 in JavaScript), and neither is exponent notation in `String()` from 1e21 up (`"1e+21"`). `ToJsString` prints every digit, and that string reaches `normalizeDay`'s `String(s)` fallback and `DeletePath`.
- Text.ToLower: changes only ASCII letters. Letters outside ASCII are not modelled, and the same holds for `Text.UpperChar` in `normalizeDay`'s capitalisation.
- Text.LexLe: models `localeCompare` as plain code-point order, not locale collation.
- Keys inherited from `Object.prototype` (such as "constructor" or "toString") are not modelled. The code looks them up on plain objects, both in `normalizeDay`'s table and in the `grouped` object. There they would find inherited functions, where the model finds nothing.
- `Date` is modelled only for years that `new Date(y, m, d)` and `Date.UTC(y, m, d)` take literally:
  - the mapping of years 0–99 to 1900–1999 is not modelled. Both constructors apply it, so for those years the real grid and `class_date` fall in 1900–1999;
  - the `Date` range limit of ±8.64e15 ms, where `toISOString` throws, is not modelled.
- CalendarState.FormatClassDateRoundTrip: the round trip is proved for years 0..9999 of the model's `Date`. In JavaScript it holds only from year 100, because `Date.UTC` maps years 0–99 to 1900–1999.
- The other files of the repository are not part of this model: authentication, routing, checkout, sign-in and sign-up.

## Findings

| source | as written | input that shows it | evidently intended | confidence | as-written member | corrected member |
|---|---|---|---|---|---|---|
| frontend/src/components/Calendar.jsx:179-184 | `addToCart` catches its own errors and never rejects (frontend/src/contexts/CartContext.jsx:75-77), so the `catch` of `addToCartHandler` is unreachable. "Class added to cart!" is shown after every attempt. | A day and a slot selected, a stored token, and a POST to `/api/cart` that the server rejects: the cart is unchanged and the success notification opens. The same happens when only the user context holds a token and nothing is sent. | Announce success only when the item was added, and "Add to cart failed" otherwise. | high, not executed | CalendarState.FailedAddAnnouncedAsSuccess | CalendarState.Calendar.AddToCartHandlerReported |
