/** The oddID taxonomy: {stat}-{entity}-{period}-{bet type}-{side}, and the tables keyed by its parts. */
module Taxonomy {
  import opened Wrappers
  import opened Domain
  import opened Text

  datatype Parts = Parts(stat: string, entity: string, period: string, betType: string, side: string)

  function Fields(p: Parts): seq<string> {
    [p.stat, p.entity, p.period, p.betType, p.side]
  }

  function OddId(p: Parts): string {
    Join(Fields(p), '-')
  }

  function ParseOddId(id: string): Option<Parts> {
    var parts := Split(id, '-');
    if |parts| != 5 then None else Some(Parts(parts[0], parts[1], parts[2], parts[3], parts[4]))
  }

  lemma OddIdReadsBack(p: Parts)
    requires Free(Fields(p), '-')
    ensures ParseOddId(OddId(p)) == Some(p)
  {
    SplitOfJoin(Fields(p), '-');
  }

  function CategoryOf(betType: string): Option<Category> {
    if betType == "ml" || betType == "ml3way" then Some(Moneyline)
    else if betType == "sp" then Some(Spread)
    else if betType == "ou" then Some(Total)
    else if betType == "yn" || betType == "eo" then Some(PropsGame)
    else None
  }

  const SCOPES := map[
    "game" := "FULL_GAME", "reg" := "FULL_GAME", "1h" := "H1", "2h" := "H2",
    "1q" := "Q1", "2q" := "Q2", "3q" := "Q3", "4q" := "Q4",
    "1p" := "P1", "2p" := "P2", "3p" := "P3", "ot" := "OVERTIME", "so" := "SHOOTOUT",
    "1i" := "INNING_1", "2i" := "INNING_2", "3i" := "INNING_3", "4i" := "INNING_4", "5i" := "INNING_5",
    "6i" := "INNING_6", "7i" := "INNING_7", "8i" := "INNING_8", "9i" := "INNING_9",
    "1st5" := "INNINGS_1_5", "1st3" := "INNINGS_1_3", "5min" := "MINUTES_5", "10min" := "MINUTES_10"]

  const SCOPE_SLUGS := map[
    "FULL_GAME" := "ft", "H1" := "h1", "H2" := "h2", "Q1" := "q1", "Q2" := "q2", "Q3" := "q3", "Q4" := "q4",
    "P1" := "p1", "P2" := "p2", "P3" := "p3", "OVERTIME" := "ot", "SHOOTOUT" := "so",
    "INNINGS_1_5" := "i1_5", "INNINGS_1_3" := "i1_3", "MINUTES_5" := "m5", "MINUTES_10" := "m10",
    "INNING_1" := "i1", "INNING_2" := "i2", "INNING_3" := "i3", "INNING_4" := "i4", "INNING_5" := "i5",
    "INNING_6" := "i6", "INNING_7" := "i7", "INNING_8" := "i8", "INNING_9" := "i9"]

  function ScopeSlug(scope: string): string {
    if scope in SCOPE_SLUGS then SCOPE_SLUGS[scope] else Lower(scope)
  }

  function TypeOverride(p: Parts, league: string): Option<string> {
    if p.stat == "goals" && p.entity == "all" && p.period == "game" && p.betType == "yn" && p.side in {"yes", "no"}
    then Some(league + "_BTTS")
    else if p.period == "game" && p.betType == "sp" && p.entity == p.side && p.side in {"home", "away"} then
      if p.stat == "goals" && league == "NHL" then Some("NHL_PUCK_LINE")
      else if p.stat == "runs" && league == "MLB" then Some("MLB_RUN_LINE")
      else None
    else None
  }

  function MarketType(p: Parts, league: string): string {
    match TypeOverride(p, league)
    case Some(t) => t
    case None => league + "_" + Upper(p.stat) + "_" + Upper(p.betType)
  }
}
