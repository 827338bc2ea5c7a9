/** The static scoring configuration: keyword tiers, the location list and
    the minimum score, transcribed in the source's order (order matters for
    the first-match location rule and for the debug scorer's reasons). */
module Config {

  /** High-value role titles: 50 points each, 30 more when in the title. */
  const TIER_1_KEYWORDS: seq<string> := [
    "Public Relations",
    "PR Manager",
    "PR Director",
    "Director of Communications",
    "Head of Communications",
    "Head of PR",
    "Senior Publicist",
    "Media Relations",
    "Publicity Manager",
    "VP of Communications",
    "Director of Public Relations",
    "External Affairs",
    "Corporate Affairs",
    "Chief Communications Officer"
  ]

  /** Adjacent roles: 15 points each. */
  const TIER_2_KEYWORDS: seq<string> := [
    "Strategic Communications",
    "Press Relations",
    "Crisis Communications",
    "Internal Communications",
    "Reputation Management",
    "Talent Relations",
    "Studio Relations",
    "Entertainment",
    "Media Strategy"
  ]

  /** Any of these in a title discards the posting. */
  const NEGATIVE_KEYWORDS: seq<string> := [
    "Intern",
    "Internship",
    "Assistant",
    "Coordinator",
    "Entry Level",
    "Junior",
    "Sales",
    "SDR",
    "BDR",
    "Account Executive",
    "Customer Support",
    "Customer Service",
    "Software",
    "Engineer",
    "Developer",
    "Full Stack",
    "Designer",
    "SEO",
    "PPC",
    "Growth Hacker",
    "Content Writer",
    "Social Media Manager"
  ]

  /** Preferred locations, in priority order. */
  const LOCATIONS: seq<string> := [
    "Los Angeles",
    "Santa Monica",
    "Culver City",
    "Burbank",
    "Hollywood",
    "Glendale",
    "Beverly Hills",
    "El Segundo",
    "Pasadena",
    "Sherman Oaks"
  ]

  /** Postings below this keyword score are not collected. */
  const MIN_SCORE_THRESHOLD: int := 60
}
