/**
 The site name resolver: the seven GONG observatory codes and the names the
 dashboard shows for them. A code the table does not know is shown as it is.
 */
module Sites {

  /** The lookup table, as a map; `FullName` is written as the chain of tests the dashboard uses. */
  const SiteNames: map<string, string> := map[
    "M" := "Mauna Loa, HI, United States",
    "B" := "Big Bear, CA, United States",
    "C" := "Cerro Tololo, Chile",
    "Z" := "Boulder, CO, United States",
    "L" := "Learmonth, Australia",
    "U" := "Udaipur, India",
    "T" := "El Tiede, Spain"
  ]

  /** `getFullName`: the display name of a site code, a table lookup with the code itself as the fallback. */
  function FullName(siteCode: string): (name: string)
    ensures siteCode in SiteNames ==> name == SiteNames[siteCode]
    ensures siteCode !in SiteNames ==> name == siteCode
  {
    if siteCode == "M" then "Mauna Loa, HI, United States"
    else if siteCode == "B" then "Big Bear, CA, United States"
    else if siteCode == "C" then "Cerro Tololo, Chile"
    else if siteCode == "Z" then "Boulder, CO, United States"
    else if siteCode == "L" then "Learmonth, Australia"
    else if siteCode == "U" then "Udaipur, India"
    else if siteCode == "T" then "El Tiede, Spain"
    else siteCode
  }

  /** A code is shown unchanged exactly when the table does not know it. */
  lemma FullNameUnchangedIff(siteCode: string)
    ensures FullName(siteCode) == siteCode <==> siteCode !in SiteNames
  {
  }

  /** Distinct one-character codes get distinct names, so the site column identifies the site. */
  lemma FullNameInjectiveOnCodes(a: string, b: string)
    requires |a| == 1 && |b| == 1
    requires FullName(a) == FullName(b)
    ensures a == b
  {
  }
}
