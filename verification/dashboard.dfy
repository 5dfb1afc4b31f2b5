/**
 One refresh of the dashboard: the decoded status feed becomes a table of
 cells (a header row, then one row per site report in feed order), and a
 countdown of messages runs until the next refresh. The widgets themselves are not modelled: a cell records
 what the dashboard writes into it.
 */
module Dashboard {
  import opened Optional
  import opened Decimal
  import opened Sites
  import opened AgeFormat
  import opened StatusIcon

  /** One entry of the feed's `siteInfo` list. */
  datatype SiteReport = SiteReport(siteCode: string, age: int, imageLink: string, movieURL: string)

  /** The decoded JSON document the dashboard polls. */
  datatype Feed = Feed(message: string, siteInfo: seq<SiteReport>)

  /** What one cell shows: markdown text, an image file, or a link with a caption. */
  datatype Cell =
    | Markdown(text: string)
    | Picture(path: string)
    | PageLink(url: string, caption: string)

  /** The five columns: status icon, site, data age, latest image, movie page. */
  datatype Row = Row(status: Cell, site: Cell, age: Cell, image: Cell, movie: Cell)

  /** What the dashboard shows after one refresh. */
  datatype Frame = Frame(title: string, table: seq<Row>, countdown: seq<string>)

  const DashboardTitle := "GONG H-Alpha Dashboard"

  /** The value a feed uses for a link it does not have. */
  const NoLink := "NONE"

  /** What a link column shows when there is no link. */
  const BlankCell := Markdown(" ")

  const ImageCaption := "Image link"
  const MovieCaption := "Movie link"

  const HeaderRow := Row(
    Markdown("**Status**"),
    Markdown("**Site**"),
    Markdown("**Data age**"),
    Markdown("**Latest Image**"),
    Markdown("**Movie Page**"))

  /** A link column: blank when the feed has no link, otherwise a link to the feed's URL. */
  function LinkCell(target: string, caption: string): (cell: Cell)
    ensures cell == BlankCell <==> target == NoLink
    ensures cell != BlankCell ==> cell.PageLink? && cell.url == target
  {
    if target == NoLink then BlankCell else PageLink(target, caption)
  }

  /** The row drawn for one site report: its icon, name, age text and its two link columns. */
  function SiteRow(report: SiteReport): (row: Row)
    ensures row != HeaderRow
    ensures row.status == Picture(IconPath(SelectIcon(report.age)))
    ensures row.site == Markdown(FullName(report.siteCode))
    ensures row.age == Markdown(AgeString(report.age))
    ensures row.image == BlankCell <==> report.imageLink == NoLink
    ensures report.imageLink != NoLink ==> row.image == PageLink(report.imageLink, ImageCaption)
    ensures row.movie == BlankCell <==> report.movieURL == NoLink
    ensures report.movieURL != NoLink ==> row.movie == PageLink(report.movieURL, MovieCaption)
  {
    Row(
      Picture(IconPath(SelectIcon(report.age))),
      Markdown(FullName(report.siteCode)),
      Markdown(AgeString(report.age)),
      LinkCell(report.imageLink, ImageCaption),
      LinkCell(report.movieURL, MovieCaption))
  }

  /** The rows for the reports, one each, in the order of the feed. */
  function SiteRows(reports: seq<SiteReport>): (rows: seq<Row>)
    ensures |rows| == |reports|
    ensures forall i :: 0 <= i < |reports| ==> rows[i] == SiteRow(reports[i])
  {
    if |reports| == 0 then [] else [SiteRow(reports[0])] + SiteRows(reports[1..])
  }

  /** The whole table: the header once, first, then the row of each report in feed order. */
  function Table(reports: seq<SiteReport>): (rows: seq<Row>)
    ensures |rows| == |reports| + 1
    ensures rows[0] == HeaderRow
    ensures forall i :: 0 < i < |rows| ==> rows[i] != HeaderRow
    ensures forall i :: 0 <= i < |reports| ==> rows[i + 1] == SiteRow(reports[i])
  {
    [HeaderRow] + SiteRows(reports)
  }

  /** How many seconds the countdown starts from. */
  const CountdownStart := 60
  const UpdatingText := "Updating..."

  /** The text that starts every countdown message of a refresh made at `stamp`. */
  function TickLead(stamp: string): string
  {
    "Last updated " + stamp + ", next update in "
  }

  /** The countdown message showing `secondsLeft`; a reader gets the count back from it. */
  function TickText(stamp: string, secondsLeft: int): (msg: string)
    ensures ReadTick(stamp, msg) == Some(secondsLeft)
    ensures msg != UpdatingText
  {
    ParseUnitOfRendered(TickLead(stamp), secondsLeft, " seconds");
    TickLead(stamp) + IntStr(secondsLeft) + " seconds"
  }

  /** The countdown messages from `from` seconds down to one second. */
  function Ticks(stamp: string, from: nat): (msgs: seq<string>)
    ensures |msgs| == from
    ensures forall k :: 0 <= k < from ==> msgs[k] == TickText(stamp, from - k)
  {
    if from == 0 then []
    else
      var later := Ticks(stamp, from - 1);
      var msgs := [TickText(stamp, from)] + later;
      assert forall k :: 0 < k < from ==> msgs[k] == later[k - 1];
      msgs
  }

  /** The messages the countdown line shows, in order, after a refresh made at `stamp`. */
  function Countdown(stamp: string): (msgs: seq<string>)
    ensures |msgs| == CountdownStart + 1
    ensures forall k :: 0 <= k < CountdownStart ==> msgs[k] == TickText(stamp, CountdownStart - k)
    ensures msgs[CountdownStart] == UpdatingText
  {
    Ticks(stamp, CountdownStart) + [UpdatingText]
  }

  /** The number of seconds a countdown message of a refresh made at `stamp` announces. */
  function ReadTick(stamp: string, msg: string): Option<int>
  {
    ParseUnit(msg, TickLead(stamp), " seconds")
  }

  /** A reader of the countdown sees 60, 59, ..., 1 and then a message that announces no count. */
  lemma CountdownCountsDown(stamp: string)
    ensures forall k :: 0 <= k < CountdownStart ==> ReadTick(stamp, Countdown(stamp)[k]) == Some(CountdownStart - k)
    ensures ReadTick(stamp, Countdown(stamp)[CountdownStart]) == None
  {
    forall k | 0 <= k < CountdownStart
      ensures ReadTick(stamp, Countdown(stamp)[k]) == Some(CountdownStart - k)
    {
      ParseUnitOfRendered(TickLead(stamp), CountdownStart - k, " seconds");
    }
  }

  /** One refresh of `feed` whose countdown shows `stamp`: the title, the table, then the countdown. */
  function Refresh(feed: Feed, stamp: string): (frame: Frame)
    ensures frame.title == DashboardTitle
    ensures |frame.table| == |feed.siteInfo| + 1
    ensures frame.table[0] == HeaderRow
    ensures forall i :: 0 <= i < |feed.siteInfo| ==> frame.table[i + 1] == SiteRow(feed.siteInfo[i])
    ensures frame.countdown == Countdown(stamp)
    ensures |frame.countdown| == CountdownStart + 1
    ensures forall k :: 0 <= k < CountdownStart ==> frame.countdown[k] == TickText(stamp, CountdownStart - k)
    ensures frame.countdown[CountdownStart] == UpdatingText
  {
    Frame(DashboardTitle, Table(feed.siteInfo), Countdown(stamp))
  }
}
