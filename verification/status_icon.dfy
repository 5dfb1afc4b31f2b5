/**
 The status icon shown in a site's first column. The dashboard starts from
 the day icon and lets each later threshold the age passes override the
 earlier choice.
 */
module StatusIcon {
  import opened AgeFormat

  datatype Icon = Day | Night | QuestionMark | Cross

  /** From this age on a site is shown with the question mark. */
  const DoubtfulAge := 3 * SecondsPerDay

  /** The image file the dashboard shows for an icon: a PNG file in the `icons` directory. */
  function IconPath(icon: Icon): (path: string)
    ensures |path| > 10
    ensures path[..6] == "icons/"
    ensures path[|path| - 4..] == ".png"
  {
    match icon
    case Day => "icons/day.png"
    case Night => "icons/night.png"
    case QuestionMark => "icons/questionMark.png"
    case Cross => "icons/cross.png"
  }

  /** How alarming an icon is, from the day icon (0) to the cross (3). */
  function Severity(icon: Icon): nat
  {
    match icon
    case Day => 0
    case Night => 1
    case QuestionMark => 2
    case Cross => 3
  }

  /** The icon for a site whose data is `age` seconds old: a ladder of tests, a later match overriding an earlier one. */
  function SelectIcon(age: int): (icon: Icon)
    ensures icon == Day <==> age <= SecondsPerHour
    ensures icon == Night <==> SecondsPerHour < age < DoubtfulAge
    ensures icon == QuestionMark <==> DoubtfulAge <= age < NoDataAge
    ensures icon == Cross <==> age >= NoDataAge
  {
    var shown := Day;
    var shown := if age > SecondsPerHour then Night else shown;
    var shown := if age >= DoubtfulAge then QuestionMark else shown;
    if age >= NoDataAge then Cross else shown
  }

  /** Different icons are different files. */
  lemma IconPathInjective(a: Icon, b: Icon)
    requires IconPath(a) == IconPath(b)
    ensures a == b
  {
  }

  /** An older report is never shown with a less alarming icon. */
  lemma SeverityMonotone(younger: int, older: int)
    requires younger <= older
    ensures Severity(SelectIcon(younger)) <= Severity(SelectIcon(older))
  {
  }

  /** The cross and the "No recent data" age text go together: both use the ten-day threshold. */
  lemma CrossIffNoRecentData(age: int)
    ensures SelectIcon(age) == Cross <==> AgeString(age) == NoRecentDataText
  {
    AgeStringNoRecentDataIff(age);
  }
}
