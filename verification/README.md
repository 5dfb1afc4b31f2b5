# GONG H-Alpha status dashboard: display rules

This project models the pure display logic of `simpleDash.py`, a Streamlit
dashboard. The dashboard polls a JSON status feed about the GONG H-alpha
observing sites and draws one table row per site. The model covers:

- the site-name resolver `getFullName`;
- the age formatter `getAgeString`;
- the status-icon ladder;
- the construction of the table's header row and per-site rows, including
  the `"NONE"` link sentinel;
- the sequence of countdown messages shown between refreshes.

Modules:

- `Decimal`: Python's `str()` of an `int`, plus a reader that inverts it.
- `Rounding`: Python 3's `round()` of an exact quotient, which rounds half to even.
- `Sites`: `getFullName`.
- `AgeFormat`: `getAgeString`. It is split into `Describe`, which picks the
  units and their values, and `Render`, which writes them. `ParseAgeText`
  reads a rendered text back.
- `StatusIcon`: the icon ladder.
- `Dashboard`: the feed records, the table rows, the countdown and one refresh.

All arithmetic is on unbounded integers. The source computes
`math.floor(age/60.0)`, `math.floor(age/3600.0)` and `math.floor(age/86400.0)`.
It also computes `round((age % 3600) / 60)` and `round((age % 86400) / 3600)`.
These floats are quotients of integers below 864000 by 60, 3600 or 86400.
A double holds such a quotient to far better than 1/86400, so float error
never moves a value across an integer or a half-way point. An exact half,
such as 3570/60 = 59.5, is itself a double. IEEE division is correctly rounded,
so `round` sees that exact half and applies its tie rule to it. The model
therefore uses integer floor division and an integer round-half-even.

Points of the code that the model keeps:

- The ten-day test at line 83 returns before the days/hours computation, so
  `Describe` returns `NoRecentData` exactly when age ≥ 864000.
- `round` is Python 3's round-half-to-even, which `RoundHalfEven` models.
- Ages are not checked for sign. A negative age takes the "< 60" branch and is
  written with a leading `-`, as `str()` writes it.

## Model

| member | source | states |
|---|---|---|
| `Sites.FullName` | simpleDash.py:47-64 | Each of the seven codes M, B, C, Z, L, U, T gives its fixed name from the `SiteNames` table. Every other code is returned unchanged. |
| `Sites.FullNameUnchangedIff` | simpleDash.py:47-64 | The resolver returns its argument unchanged exactly when the code is not one of the seven known codes. |
| `Sites.FullNameInjectiveOnCodes` | simpleDash.py:49-62 | Two different one-character codes never show the same site name. |
| `Decimal.NatStr` | simpleDash.py:71 | `str()` of a natural number is a non-empty run of digits with no leading zero. |
| `Decimal.IntStr` | simpleDash.py:71 | `str()` of an integer starts with `-` exactly for negative numbers. Otherwise it is all digits. |
| `Decimal.DigitsValueOfNatStr` | simpleDash.py:71 | Reading the digits of `str(n)` gives back `n`. |
| `Decimal.ParseIntPrefixOfIntStr` | simpleDash.py:76 | A number's text followed by a non-digit reads back as that number, and the reader stops exactly at the non-digit. |
| `Decimal.IntStrInjective` | simpleDash.py:71 | Different integers have different texts. |
| `Rounding.RoundHalfEven` | simpleDash.py:80 | `round(n/d)` is an integer within half a step of `n/d`. On an exact tie it is even. |
| `Rounding.WithinHalfNeighbours` | simpleDash.py:80 | Two different integers within half a step of n/d are neighbours, and n/d lies exactly half-way between them. |
| `Rounding.RoundsHalfEvenUnique` | simpleDash.py:80 | At most one integer meets the nearest-with-ties-to-even rule, so the rule defines Python's `round` completely. |
| `Rounding.RoundHalfEvenBounds` | simpleDash.py:87 | Rounding `n/d` with 0 ≤ n < m·d gives a value in 0..m. This puts minutes in 0..60 and hours in 0..24. |
| `AgeFormat.Describe` | simpleDash.py:68-88 | Below 60 s the units are seconds, carrying the age itself. Below one hour they are minutes m in 1..59 and seconds s in 0..59 with 60·m + s = age. Below one day they are hours h in 1..23, the whole hours in the age, plus the remaining seconds over 60 rounded half-even, in 0..60. At 864000 s or more the result is "No recent data", and only then. In between it is days d in 1..9, the whole days, plus the remaining seconds over 3600 rounded half-even, in 0..24. |
| `AgeFormat.Render` | simpleDash.py:70-88 | Only the no-data case writes "No recent data". Every other text starts with its first number in `str()` form, so with a digit or `-`. Its partner `ParseAgeText` reads every text back (`AgeTextRoundTrip`). |
| `AgeFormat.AgeString` | simpleDash.py:68-88 | The age text is "No recent data" exactly when the age is at least 864000 s. What the other texts read back as is given by `AgeTextRoundTrip`, `AgeStringExactBelowHour` and `AgeStringApproximates`. |
| `AgeFormat.AgeTextRoundTrip` | simpleDash.py:71-88 | Every text the formatter writes reads back as the units and values it was written from. |
| `AgeFormat.RenderInjective` | simpleDash.py:71-88 | Different unit/value pairs never produce the same text. |
| `AgeFormat.AgeStringNoRecentDataIff` | simpleDash.py:83-84 | The age text is "No recent data" if and only if the age is at least ten days. |
| `AgeFormat.DescribeExact` | simpleDash.py:70-76 | Below one hour the chosen units add up to exactly the age. From one hour on the units are hours or days, which are not exact. |
| `AgeFormat.DescribeApproximates` | simpleDash.py:78-88 | Between one hour and ten days the chosen units add up to within 30 s of the age below one day, and within 1800 s from one day on. |
| `AgeFormat.AgeStringExactBelowHour` | simpleDash.py:70-76 | Below one hour the text gives the age exactly. From one hour on, the text never reads as an exact seconds or minutes-and-seconds age. |
| `AgeFormat.AgeStringApproximates` | simpleDash.py:78-88 | Between one hour and ten days the text reads back as an age within 30 s of the true age when it is below one day, and within 1800 s from one day on. |
| `AgeFormat.AgeStringExamplesBelowHour` | simpleDash.py:70-76 | 45 gives "45 Seconds". 90 gives "1 Minutes 30 Seconds". |
| `AgeFormat.AgeStringExamplesBelowDay` | simpleDash.py:78-81 | 3661 gives "1 Hours 1 Minutes". 7170 gives "1 Hours 60 Minutes", so a minute count of 60 is reachable. |
| `AgeFormat.AgeStringExamplesFromDay` | simpleDash.py:83-88 | 90000 gives "1 Days 1 Hours". 863999 gives "9 Days 24 Hours". 864000 gives "No recent data". |
| `StatusIcon.SelectIcon` | simpleDash.py:143-149 | The icon is day for age ≤ 3600. It is night for 3600 < age < 259200, the question mark for 259200 ≤ age < 864000, and the cross for age ≥ 864000. Each is returned if and only if the age is in its range. |
| `StatusIcon.IconPath` | simpleDash.py:143-149 | Every icon is a `.png` file under `icons/`. |
| `StatusIcon.IconPathInjective` | simpleDash.py:143-149 | The four icons use four different image files. |
| `StatusIcon.SeverityMonotone` | simpleDash.py:143-149 | An older report never gets a less severe icon. The order is day < night < question mark < cross. |
| `StatusIcon.CrossIffNoRecentData` | simpleDash.py:148 | The cross is shown exactly when the age column says "No recent data". Both use the same ten-day threshold, the one at line 83. |
| `Dashboard.LinkCell` | simpleDash.py:157-165 | A link cell is blank if and only if the field is the sentinel "NONE". Otherwise it is a link to that field's URL. |
| `Dashboard.SiteRow` | simpleDash.py:153-165 | A site row is never the header row. It shows the age's icon, the resolved site name and the age text. Its image cell is blank iff `imageLink` is "NONE", and otherwise links to `imageLink` with caption "Image link". The movie cell follows the same rule for `movieURL` with caption "Movie link". |
| `Dashboard.SiteRows` | simpleDash.py:140-165 | There is exactly one row per report, and row i belongs to report i, so feed order is kept. |
| `Dashboard.Table` | simpleDash.py:131-165 | n reports give n+1 rows. The header comes first and appears nowhere else; its five cells are "**Status**", "**Site**", "**Data age**", "**Latest Image**" and "**Movie Page**" (lines 132-136). Row i+1 is the row of report i. |
| `Dashboard.TickText` | simpleDash.py:180 | A countdown message reads back, through `ReadTick`, as exactly the count it shows. It is never "Updating...". |
| `Dashboard.Ticks` | simpleDash.py:178-181 | Counting down from `from` gives exactly `from` messages. Message k announces `from − k` seconds and carries the same timestamp as the others. |
| `Dashboard.Countdown` | simpleDash.py:177-183 | The countdown line shows exactly 61 messages. The first 60 announce 60, 59, …, 1 seconds with the refresh's timestamp, and the last is "Updating...". |
| `Dashboard.CountdownCountsDown` | simpleDash.py:178-183 | Reading back the counts of the 61 messages gives 60, 59, …, 1 in order. The final message announces no count. |
| `Dashboard.Refresh` | simpleDash.py:110-183 | One refresh of a feed with n reports has the title "GONG H-Alpha Dashboard". It draws n+1 rows, with the header first and report i in row i+1. Its countdown is the 61 messages of `Countdown`: 60, 59, …, 1 seconds with the refresh's timestamp, then "Updating...". |

## Left out

- Fetching and decoding the feed (`requests.get(...).json()`, line 103): network I/O and a foreign library. `Feed` and `SiteReport` are the already decoded document. A missing key or malformed JSON crashes the source, and the model has no such case.
- Reports whose `age` is not an integer: the feed sends integer ages, and the model types `age` as `int`.
- The Streamlit calls: `st.empty`, `pc.title("Loading...")`, `st.columns` with its widths `[2,5,5,3,3]`, `image`, `write`, `page_link` and `st.html`. These are UI framework calls. A `Cell` records only what is written into a column.
- The footer `st.html("<P>" + message + "</p>")` (line 169): framework rendering of raw HTML. `Feed.message` is kept in the data model but not drawn.
- `datetime.now(timezone.utc).strftime(...)` (lines 173-174): wall clock and OS formatting. The timestamp is the opaque `stamp` parameter.
- `time.sleep(1)` and the `tickingClock.empty()` clears (lines 179-182): timing only. The countdown is the list of messages written, in order.
- The endless `while True` loop and `quit()` (lines 100, 188): non-terminating process control. `Refresh` models one iteration.
- Python floats: `math.floor(x/k.0)` and `round(...)` are exact integer floor division and round-half-even, for the reasons given above.
